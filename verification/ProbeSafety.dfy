/** What holds in every state of every run of the probe protocol. */
module ProbeSafety {
  import opened Text
  import opened Sorting
  import opened Sequences
  import opened ProbeTypes
  import opened ProbeBinary
  import opened ProbeChecks
  import opened ProbeJobs
  import opened JobLaws
  import opened ProbeController
  import opened ProbeArtifacts
  import opened ProbeRuns
  import CheckLaws

  // ----- where results come from -----

  /** The reading is what the probe program reported for these checks and this number of attempts, with the pod stamped
      on it. */
  ghost predicate ReadOff(reading: Reading, node: string, checks: seq<Check>, count: int) {
    exists raw: Report :: Reported(raw, node, checks, count) && reading.report == Stamped(raw, reading.pod)
  }

  lemma ReadOffAnswers(reading: Reading, node: string, checks: seq<Check>, count: int)
    requires ReadOff(reading, node, checks, count)
    ensures AnswersAll(reading.report, node, checks)
  {
    hide Reported;
    var raw: Report :| Reported(raw, node, checks, count) && reading.report == Stamped(raw, reading.pod);
    ReportedAnswers(raw, node, checks, count);
    forall i | 0 <= i < |checks| ensures Answers(reading.report.results[i], checks[i]) {
      assert Answers(raw.results[i], checks[i]);
    }
  }

  /** The report was read from a pod owned by a job that was created for this generation, this node, these traffic
      settings and exactly the checks of this node, and it is what the probe program reported for them. */
  ghost predicate FromJob(e: Env, created: map<nat, Job>, generation: int, basis: Basis, node: string,
          reading: Reading) {
    && reading.uid in created && OwnedByJob(reading.pod, reading.uid)
    && var job, group := created[reading.uid], GroupOf(basis.checks, node);
    && job.generation == generation && job.hash == ChecksHash(e, group)
    && job.sourceNode == node && job.payload == group && job.budget == BudgetOf(basis.traffic, |group|)
    && ReadOff(reading, node, group, DefaultInt(basis.traffic.count, 1))
  }

  /** The status result shows the result of the probe. */
  predicate Shows(r: StatusResult, item: Result) {
    && (item.sourcePod != "" ==> r.sourcePod == item.sourcePod) && r.sourcePodIP == item.sourceIP
    && r.sourceNode == item.sourceNode && r.protocol == item.protocol && r.port == item.port && r.path == item.path
    && r.targetService == item.targetService && r.serviceIP == item.serviceIP
    && (item.targetService == "" || item.targetIP != "" ==>
          r.targetPod == item.targetPod && r.targetPodIP == item.targetIP && r.targetNode == item.targetNode)
    && r.success == item.success && r.error == item.error && r.p50 == item.p50 && r.p95 == item.p95
  }

  predicate ShowsAll(results: seq<StatusResult>, items: seq<Result>) {
    |results| == |items| && forall i | 0 <= i < |results| :: Shows(results[i], items[i])
  }

  ghost predicate Sourced(e: Env, created: map<nat, Job>, generation: int, basis: Basis) {
    var nodes := NodesOf(basis.checks);
    && |basis.readings| == |nodes|
    && forall i | 0 <= i < |nodes| :: FromJob(e, created, generation, basis, nodes[i], basis.readings[i])
  }

  /** The counts and the results of the status are those of the reports. */
  predicate Reflects(st: Status, checks: seq<Check>, readings: seq<Reading>) {
    && st.totalTests == |checks| && st.succeeded == Successes(st.results) && st.succeeded + st.failed == |st.results|
    && ShowsAll(st.results, Bind(readings, Items()))
  }

  ghost predicate Backed(e: Env, created: map<nat, Job>, basis: Basis, st: Status) {
    && Sourced(e, created, st.observedGeneration, basis)
    && Reflects(st, basis.checks, basis.readings)
  }

  predicate Blank(st: Status) {
    st.phase != Succeeded && st.results == [] && st.succeeded == 0 && st.failed == 0
  }

  ghost predicate StatusSound(e: Env, created: map<nat, Job>, basis: Basis, st: Status) {
    && (basis.checks != [] ==> Backed(e, created, basis, st) && st.phase != Running)
    && (basis.checks == [] ==> Blank(st))
    && (st.phase == Running ==> st.nodeResults == [] && st.rawNames == [])
    && (st.phase == Succeeded ==> st.failed == 0)
  }

  // ----- the artifacts of the lab -----

  predicate Held(lab: Option<Lab>) {
    lab.Some? && FINALIZER in lab.value.finalizers
  }

  /** Without the finalizer nothing is left. */
  ghost predicate Tracked(e: Env, s: State) {
    !Held(s.lab) ==> forall name :: !LabelledLive(e, s.store.jobs, name) && !Labelled(e, s.configMaps, name)
  }

  /** While the lab is not being deleted, its status refers only to ConfigMaps that have its label, unless others have
      taken them away since. */
  ghost predicate RefersToArtifacts(e: Env, s: State) {
    s.lab.Some? && !s.lab.value.deleting ==> AllLabelled(e, s.configMaps, NamedBy(s.lab.value.status) - s.removed)
  }

  ghost predicate JobsFit(e: Env, s: State) {
    s.lab.Some? ==> Fits(e, s.store.jobs, s.lab.value.generation, s.lab.value.spec.traffic)
  }

  ghost predicate Inv(e: Env, s: State) {
    && Records(e, s.store) && PodsHonest(s.pods, s.store) && Tracked(e, s) && RefersToArtifacts(e, s) && JobsFit(e, s)
    && (s.lab.Some? ==> StatusSound(e, s.store.created, s.basis, s.lab.value.status))
  }

  // ----- reports are backed by jobs -----

  lemma {:induction false} ReadHonest(pods: seq<ProbePod>, store: Store, name: string, uid: nat)
    requires PodsHonest(pods, store) && uid in store.created && ReadReport(pods, name, uid).Some?
    ensures var reading, job := ReadReport(pods, name, uid).value, store.created[uid];
            && reading.uid == uid && OwnedByJob(reading.pod, uid)
            && ReadOff(reading, job.sourceNode, job.payload, job.budget.count)
  {
    hide ProbeMessage, Reported, Stamped;
    var pod, job := pods[0], store.created[uid];
    if pod.jobName == name && OwnedByJob(pod, uid) && ProbeMessage(pod.statuses).Some? {
      assert HonestPod(pod, uid, store);
      assert Reported(ProbeMessage(pod.statuses).value.report, job.sourceNode, job.payload, job.budget.count);
    } else {
      assert forall p | p in pods[1..] :: p in pods;
      ReadHonest(pods[1..], store, name, uid);
    }
  }

  /** What a pass relies on: recorded jobs, honest pods, and jobs that fit the lab. */
  ghost predicate Ready(e: Env, p: ProbeJobs.Pass, store: Store) {
    && Records(e, store) && PodsHonest(p.pods, store) && Fits(e, store.jobs, p.generation, p.traffic)
    && Sorted(p.checks, IdLe) && OnNodes(e, p.checks)
  }

  lemma ReadingBacked(e: Env, p: ProbeJobs.Pass, store: Store, node: string, basis: Basis, reading: Reading)
    requires Collisionless(e) && Ready(e, p, store) && node in e.nodes && basis.checks == p.checks
             && basis.traffic == p.traffic
    requires ReadFrom(e, p, store.jobs, node, reading)
    ensures FromJob(e, store.created, p.generation, basis, node, reading)
  {
    hide JobName, GroupOf, ChecksHash, ReadReport, Sorted, ReadOff, PodsHonest, OnNodes, Deadline;
    var name := JobName(e, node);
    assert Recorded(store, name, node) && FitsOne(store.jobs[name], p.generation, p.traffic);
    var record := store.created[reading.uid];
    assert Sane(e, reading.uid, record);
    ReadHonest(p.pods, store, name, reading.uid);
    GroupSorted(p.checks, node);
    HashTells(e, record.payload, GroupOf(p.checks, node));
  }

  lemma ReadingsBacked(e: Env, p: ProbeJobs.Pass, store: Store, readings: seq<Reading>)
    requires Collisionless(e) && Ready(e, p, store)
    requires ReadAll(e, p, store.jobs, NodesOf(p.checks), readings)
    ensures Sourced(e, store.created, p.generation, Basis(p.traffic, p.checks, readings))
  {
    assert OnNodes(e, p.checks);
    hide Ready, ReadFrom, FromJob, NodesOf, OnNodes;
    NodeNamesDiffer(e, p.checks);
    var nodes, basis := NodesOf(p.checks), Basis(p.traffic, p.checks, readings);
    forall i | 0 <= i < |nodes| ensures FromJob(e, store.created, p.generation, basis, nodes[i], readings[i]) {
      ReadingBacked(e, p, store, nodes[i], basis, readings[i]);
    }
  }

  lemma SourcedGrows(e: Env, a: Store, b: Store, generation: int, basis: Basis)
    requires Grows(a, b) && Sourced(e, a.created, generation, basis)
    ensures Sourced(e, b.created, generation, basis)
  {
    hide GroupOf, ChecksHash, ReadOff, NodesOf, BudgetOf;
    var nodes := NodesOf(basis.checks);
    forall i | 0 <= i < |nodes| ensures FromJob(e, b.created, generation, basis, nodes[i], basis.readings[i]) {
      assert FromJob(e, a.created, generation, basis, nodes[i], basis.readings[i]);
    }
  }

  lemma SoundGrows(e: Env, a: Store, b: Store, basis: Basis, st: Status)
    requires Grows(a, b) && StatusSound(e, a.created, basis, st)
    ensures StatusSound(e, b.created, basis, st)
  {
    hide Sourced, Reflects, NodesOf, Grows;
    if basis.checks != [] {
      SourcedGrows(e, a, b, st.observedGeneration, basis);
    }
  }

  lemma HonestGrows(pods: seq<ProbePod>, a: Store, b: Store)
    requires Grows(a, b) && PodsHonest(pods, a)
    ensures PodsHonest(pods, b)
  {
    hide ProbeMessage, Reported;
    forall pod, uid | pod in pods && OwnedByJob(pod, uid) ensures HonestPod(pod, uid, b) {
      assert HonestPod(pod, uid, a);
    }
  }

  /** What a pass over the jobs returns. */
  lemma PassSound(e: Env, p: ProbeJobs.Pass, store: Store)
    requires Collisionless(e) && Ready(e, p, store)
    ensures var after := PassOver(e, p, store);
            && Records(e, after.store) && Grows(store, after.store)
            && Fits(e, after.store.jobs, p.generation, p.traffic)
            && (!after.failed && !after.pending ==>
                  Sourced(e, after.store.created, p.generation, Basis(p.traffic, p.checks, after.readings)))
  {
    assert Records(e, store) && Fits(e, store.jobs, p.generation, p.traffic) && OnNodes(e, p.checks)
           && Sorted(p.checks, IdLe);
    hide Visits, Records, Grows, Sorted, NodesOf, Sourced, OthersUntouched, Sort, ReadAll, Ready, Fits, OnNodes;
    var nodes := NodesOf(p.checks);
    var s := Visits(e, p, store, nodes);
    NodeNamesDiffer(e, p.checks);
    VisitsRecords(e, p, store, nodes);
    VisitsFit(e, p, store, nodes);
    if !s.failed && !s.pending {
      assert UidsBelow(store) by { RecordsBelow(e, store); }
      OnePassDoes(e, p, store, nodes);
      ReadingsBacked(e, p, store, s.readings);
      SourcedInOrder(e, store.created, p.generation, Basis(p.traffic, p.checks, s.readings));
      SourcedGrows(e, store, s.store, p.generation, Basis(p.traffic, p.checks, s.readings));
    }
  }

  lemma RecordsBelow(e: Env, store: Store)
    requires Records(e, store)
    ensures UidsBelow(store)
  {
  }

  lemma SourcedInOrder(e: Env, created: map<nat, Job>, generation: int, basis: Basis)
    requires Sourced(e, created, generation, basis)
    ensures Sort(basis.readings, ReportLe) == basis.readings
  {
    hide NodesOf, GroupOf, ChecksHash, ReadOff, BudgetOf;
    var nodes := NodesOf(basis.checks);
    forall i | 0 <= i < |basis.readings| ensures basis.readings[i].report.sourceNode == nodes[i] {
      assert FromJob(e, created, generation, basis, nodes[i], basis.readings[i]);
      ReadOffAnswers(basis.readings[i], nodes[i], GroupOf(basis.checks, nodes[i]), DefaultInt(basis.traffic.count, 1));
    }
    ReadingsInOrder(basis.checks, basis.readings);
  }

  // ----- the status of a run -----

  lemma {:induction false} StatusShows(e: Env, w: World, items: seq<Result>)
    ensures ShowsAll(Bind(items, AsStatus(e, w)), items)
  {
    hide JobName;
    if items != [] {
      var last := |items| - 1;
      StatusShows(e, w, items[..last]);
      assert Bind(items, AsStatus(e, w)) == Bind(items[..last], AsStatus(e, w)) + [StatusOf(e, w, items[last])];
    }
  }

  lemma FilledReflects(e: Env, spec: Spec, w: World, checks: seq<Check>, readings: seq<Reading>,
          snapshots: seq<string>, generation: int, failed: bool)
    ensures Reflects(StatusAfter(generation, Filled(e, spec, w, |checks|, readings, snapshots), failed), checks,
                     readings)
  {
    hide Bind, Sort, ShowsAll, AsStatus;
    StatusShows(e, w, Bind(readings, Items()));
  }

  lemma CompleteSound(e: Env, lab: Lab, w: World, store: Store, configMaps: map<string, ConfigMap>,
          checks: seq<Check>, readings: seq<Reading>)
    requires Sourced(e, store.created, lab.generation, Basis(lab.spec.traffic, checks, readings)) && checks != []
    ensures var o := Complete(e, lab.spec, w, store, configMaps, checks, readings);
            o.store == store && StatusSound(e, store.created, o.basis, StatusAfter(lab.generation, o.run, o.failed))
  {
    hide Sourced, Reflects, NodesOf, WriteSnapshots, WriteReports, Sort, ResultsOf;
    var o := Complete(e, lab.spec, w, store, configMaps, checks, readings);
    if o.basis != NO_BASIS {
      FilledReflects(e, lab.spec, w, checks, readings, w.snapshots.value, lab.generation, o.failed);
    }
  }

  lemma BuiltSorted(traffic: Traffic, pods: seq<Pod>, services: seq<Service>, digest: Digest)
    ensures Sorted(BuiltChecks(traffic, pods, services, digest), IdLe)
  {
    IdLePreorder();
    SortSorted(ListedChecks(traffic, pods, services, digest), IdLe);
  }

  lemma BuiltOnNodes(e: Env, traffic: Traffic, pods: seq<Pod>, services: seq<Service>)
    requires forall pod | pod in pods :: pod.node in e.nodes
    ensures OnNodes(e, BuiltChecks(traffic, pods, services, e.id))
  {
    hide ListedChecks, Probes, MakeCheck, PortsFor, Protocols;
    var listed := ListedChecks(traffic, pods, services, e.id);
    SortContents(listed, IdLe);
    SameMembers(listed, Sort(listed, IdLe));
    forall c | c in listed ensures c.sourceNode in e.nodes {
      var t, protocol, port := CheckLaws.CheckOrigin(traffic, pods, services, e.id, c);
      CheckLaws.ProbeOrigin(traffic, pods, services, t);
      CheckNode(t, protocol, port, e.id);
    }
  }

  lemma CheckNode(t: Probe, protocol: string, port: int, digest: Digest)
    ensures MakeCheck(t, protocol, port, digest).sourceNode == t.node
  {
  }

  lemma RunSound(e: Env, lab: Lab, w: World, s: State)
    requires Collisionless(e) && Records(e, s.store) && PodsHonest(s.pods, s.store) && Located(e, w)
    requires Fits(e, s.store.jobs, lab.generation, lab.spec.traffic)
    ensures var o := RunOf(e, lab, w, s);
            && Records(e, o.store) && Grows(s.store, o.store) && Fits(e, o.store.jobs, lab.generation, lab.spec.traffic)
            && StatusSound(e, o.store.created, o.basis, StatusAfter(lab.generation, o.run, o.failed))
  {
    hide Records, PodsHonest, BuiltChecks, PassOver, Complete, Sorted, Sourced, Reflects, NodesOf, OnNodes, Fits;
    if w.targets.Some? && w.services.Some? && w.targets.value != [] {
      var checks := BuiltChecks(lab.spec.traffic, w.targets.value, w.services.value, e.id);
      BuiltSorted(lab.spec.traffic, w.targets.value, w.services.value, e.id);
      if checks != [] {
        var p := ProbeJobs.Pass(lab.generation, lab.spec.traffic, checks, s.pods, w.faultyJobs);
        BuiltOnNodes(e, lab.spec.traffic, w.targets.value, w.services.value);
        PassSound(e, p, s.store);
        var after := PassOver(e, p, s.store);
        if !after.failed && !after.pending {
          CompleteSound(e, lab, w, after.store, s.configMaps, checks, after.readings);
        }
      }
    }
  }

  // ----- the cleanup -----

  lemma {:induction false} DeleteJobsEffect(e: Env, jobs: map<string, Job>, names: seq<string>, faulty: set<string>)
    ensures var c := DeleteJobs(jobs, names, faulty);
            && (forall name | name in c.objects ::
                  name in jobs && Made(c.objects[name], jobs[name])
                    && (jobs[name].deleting ==> c.objects[name].deleting))
            && (forall name | LabelledLive(e, c.objects, name) ::
                LabelledLive(e, jobs, name) && (c.failed || name !in names))
  {
    if names != [] {
      var rest, last := names[..|names| - 1], names[|names| - 1];
      assert names == rest + [last];
      DeleteJobsEffect(e, jobs, rest, faulty);
    }
  }

  lemma {:induction false} DeleteConfigMapsEffect(e: Env, configMaps: map<string, ConfigMap>, names: seq<string>,
          faulty: set<string>)
    ensures var c := DeleteConfigMaps(configMaps, names, faulty);
            forall name | Labelled(e, c.objects, name) :: Labelled(e, configMaps, name) && (c.failed || name !in names)
  {
    if names != [] {
      var rest, last := names[..|names| - 1], names[|names| - 1];
      assert names == rest + [last];
      DeleteConfigMapsEffect(e, configMaps, rest, faulty);
    }
  }

  /** A cleanup without errors leaves no live job and no ConfigMap of the lab. */
  lemma CleanupComplete(e: Env, w: World, jobs: map<string, Job>, configMaps: map<string, ConfigMap>)
    ensures !CleanJobs(e, w, jobs).failed ==> forall name :: !LabelledLive(e, CleanJobs(e, w, jobs).objects, name)
    ensures !CleanConfigMaps(e, w, configMaps).failed ==>
              forall name :: !Labelled(e, CleanConfigMaps(e, w, configMaps).objects, name)
  {
    hide DeleteJobs, DeleteConfigMaps, SortedSet;
    SortedSetMembers(LabelledJobs(e, jobs), StringLe);
    DeleteJobsEffect(e, jobs, SortedSet(LabelledJobs(e, jobs), StringLe), w.faultyJobs);
    SortedSetMembers(LabelledConfigMaps(e, configMaps), StringLe);
    DeleteConfigMapsEffect(e, configMaps, SortedSet(LabelledConfigMaps(e, configMaps), StringLe), w.faultyConfigMaps);
    var after := CleanConfigMaps(e, w, configMaps);
    forall name | Labelled(e, after.objects, name) ensures after.failed {
      assert w.listConfigMapsFails || Labelled(e, configMaps, name);
      assert name in LabelledConfigMaps(e, configMaps);
    }
  }

  /** No deletion mark is taken back. */
  predicate MoreDeleted(a: map<string, Job>, b: map<string, Job>) {
    forall name | name in b :: name in a && (a[name].deleting ==> b[name].deleting)
  }

  lemma CleanJobsProgress(e: Env, w: World, store: Store)
    ensures OnlyProgress(store, store.(jobs := CleanJobs(e, w, store.jobs).objects))
    ensures MoreDeleted(store.jobs, CleanJobs(e, w, store.jobs).objects)
  {
    hide DeleteJobs, SortedSet;
    DeleteJobsEffect(e, store.jobs, SortedSet(LabelledJobs(e, store.jobs), StringLe), w.faultyJobs);
  }

  // ----- every step keeps the invariant -----

  predicate SameSpec(a: Lab, b: Lab) {
    a.generation == b.generation && a.spec == b.spec
  }

  /** A step that keeps the pods, the basis and the status, and lets jobs progress, keeps the invariant. */
  lemma ProgressKeeps(e: Env, s: State, t: State)
    requires Inv(e, s) && t.pods == s.pods && t.basis == s.basis && OnlyProgress(s.store, t.store)
    requires Tracked(e, t) && RefersToArtifacts(e, t) && MoreDeleted(s.store.jobs, t.store.jobs)
    requires t.lab.Some? ==>
               s.lab.Some? && t.lab.value.status == s.lab.value.status && SameSpec(s.lab.value, t.lab.value)
    ensures Inv(e, t)
  {
    hide Records, PodsHonest, StatusSound, Grows, Tracked, RefersToArtifacts, Fits;
    ProgressRecords(e, s.store, t.store);
    HonestGrows(s.pods, s.store, t.store);
    if t.lab.Some? {
      FewerFit(e, s.store.jobs, t.store.jobs, s.lab.value.generation, s.lab.value.spec.traffic);
      SoundGrows(e, s.store, t.store, s.basis, s.lab.value.status);
    }
  }

  lemma FinalizeKeeps(e: Env, w: World, lab: Lab, s: State)
    requires Inv(e, s) && s.lab == Some(lab) && FINALIZER in lab.finalizers && lab.deleting
    ensures Inv(e, Finalize(e, w, lab, s))
  {
    hide Records, PodsHonest, StatusSound, CleanJobs, CleanConfigMaps, OnlyProgress, LabelledLive, Labelled, Fits,
         MoreDeleted;
    var t := Finalize(e, w, lab, s);
    CleanJobsProgress(e, w, s.store);
    CleanupComplete(e, w, s.store.jobs, s.configMaps);
    ProgressKeeps(e, s, t);
  }

  lemma LabelledLater(e: Env, before: map<string, ConfigMap>, after: map<string, ConfigMap>, names: set<string>,
          kept: set<string>)
    requires Adds(e, before, after, names) && AllLabelled(e, before, kept)
    ensures AllLabelled(e, after, kept)
  {
    hide LabLabel;
  }

  lemma ProbeKeeps(e: Env, w: World, lab: Lab, s: State)
    requires Collisionless(e) && Located(e, w) && Inv(e, s) && s.lab == Some(lab) && FINALIZER in lab.finalizers
    ensures Inv(e, Probed(e, w, lab, s))
  {
    hide Records, PodsHonest, StatusSound, RunOf, Grows, StatusAfter, Adds, AllLabelled, NamedBy, HasSnapshots,
         HasReports, ArtifactNames, Fits;
    RunSound(e, lab, w, s);
    RunWrites(e, lab, w, s);
    var o := RunOf(e, lab, w, s);
    if w.statusFails {
      if !lab.deleting {
        LabelledLater(e, s.configMaps, o.configMaps, ArtifactNames(e, lab.spec, w), NamedBy(lab.status) - s.removed);
      }
    } else {
      var names := NamedBy(StatusAfter(lab.generation, o.run, o.failed));
      assert names - {} == names;
    }
    HonestGrows(s.pods, s.store, o.store);
    SoundGrows(e, s.store, o.store, s.basis, lab.status);
  }

  lemma PassKeeps(e: Env, w: World, s: State)
    requires Collisionless(e) && Located(e, w) && Inv(e, s)
    ensures Inv(e, Reconciled(e, w, s))
  {
    hide Records, PodsHonest, StatusSound, Finalize, Probed;
    if s.lab.Some? {
      var lab := s.lab.value;
      if lab.deleting {
        if FINALIZER in lab.finalizers {
          FinalizeKeeps(e, w, lab, s);
        }
      } else if FINALIZER in lab.finalizers {
        ProbeKeeps(e, w, lab, s);
      }
    }
  }

  lemma JobStepKeeps(e: Env, s: State, t: State)
    requires Inv(e, s) && t == s.(store := t.store) && OnlyProgress(s.store, t.store)
    requires forall name | LabelledLive(e, t.store.jobs, name) :: LabelledLive(e, s.store.jobs, name)
    requires MoreDeleted(s.store.jobs, t.store.jobs)
    ensures Inv(e, t)
  {
    hide Records, PodsHonest, StatusSound, OnlyProgress, LabelledLive, Labelled, Fits, MoreDeleted;
    ProgressKeeps(e, s, t);
  }

  lemma LabStepKeeps(e: Env, s: State, t: State)
    requires Inv(e, s) && t == s.(lab := t.lab) && (Held(s.lab) ==> Held(t.lab))
    requires t.lab.Some? ==>
               s.lab.Some? && t.lab.value.status == s.lab.value.status
                 && (s.lab.value.deleting ==> t.lab.value.deleting)
    requires t.lab.Some? ==> SameSpec(s.lab.value, t.lab.value) || t.lab.value.generation == s.lab.value.generation + 1
    ensures Inv(e, t)
  {
    hide Records, PodsHonest, StatusSound, NamedBy, AllLabelled, LabelledLive, Labelled, Fits;
    if t.lab.Some? && !SameSpec(s.lab.value, t.lab.value) {
      NextGenerationFits(e, s.store.jobs, s.lab.value.generation, s.lab.value.spec.traffic, t.lab.value.spec.traffic);
    }
  }

  /** Without the finalizer all jobs of the lab are being deleted, so they fit any new lab. */
  lemma NothingLiveFits(e: Env, s: State, generation: int, traffic: Traffic)
    requires Records(e, s.store) && Tracked(e, s) && !Held(s.lab)
    ensures Fits(e, s.store.jobs, generation, traffic)
  {
    hide JobName, BudgetOf, ChecksHash, Sorted;
    forall node | node in e.nodes && JobName(e, node) in s.store.jobs
      ensures FitsOne(s.store.jobs[JobName(e, node)], generation, traffic)
    {
      var name := JobName(e, node);
      assert Recorded(s.store, name, node);
      assert Sane(e, s.store.jobs[name].uid, s.store.created[s.store.jobs[name].uid]);
      assert !LabelledLive(e, s.store.jobs, name);
    }
  }

  lemma OthersFit(e: Env, s: State, t: State, generation: int, traffic: Traffic)
    requires Foreign(e, s, t) && Fits(e, s.store.jobs, generation, traffic)
    ensures Fits(e, t.store.jobs, generation, traffic)
  {
    hide JobName, FitsOne, LabelledLive, Labelled;
    forall node | node in e.nodes && JobName(e, node) in t.store.jobs
      ensures FitsOne(t.store.jobs[JobName(e, node)], generation, traffic)
    {
      assert SameJob(s.store.jobs, t.store.jobs, JobName(e, node));
      assert FitsOne(s.store.jobs[JobName(e, node)], generation, traffic);
    }
  }

  lemma OthersRecords(e: Env, s: State, t: State)
    requires Records(e, s.store) && Foreign(e, s, t)
    ensures Records(e, t.store) && Grows(s.store, t.store)
  {
    hide JobName, Sane;
    forall node | node in e.nodes && JobName(e, node) in t.store.jobs
      ensures Recorded(t.store, JobName(e, node), node)
    {
      assert SameJob(s.store.jobs, t.store.jobs, JobName(e, node));
      assert Recorded(s.store, JobName(e, node), node);
    }
  }

  lemma OthersKeep(e: Env, s: State, t: State)
    requires Inv(e, s) && Foreign(e, s, t)
    ensures Inv(e, t)
  {
    hide Records, PodsHonest, StatusSound, Grows, LabelledLive, Labelled, Fits;
    OthersRecords(e, s, t);
    HonestGrows(s.pods, s.store, t.store);
    if t.lab.Some? {
      OthersFit(e, s, t, t.lab.value.generation, t.lab.value.spec.traffic);
      SoundGrows(e, s.store, t.store, s.basis, s.lab.value.status);
    }
  }

  lemma JobsKeep(e: Env, s: State, step: Step, t: State)
    requires Inv(e, s) && Next(e, s, step, t)
    requires step.JobReports? || step.DeletionTakesEffect? || step.JobExpires?
    ensures Inv(e, t)
  {
    hide Inv, Reconciled, Foreign, PodsHonest;
    JobStepKeeps(e, s, t);
  }

  lemma LabKeeps(e: Env, s: State, step: Step, t: State)
    requires Inv(e, s) && Next(e, s, step, t)
    requires step.CreateLab? || step.EditSpec? || step.EditFinalizers? || step.DeleteLab?
    ensures Inv(e, t)
  {
    hide Reconciled, Foreign, PodsHonest, Records, Sourced, Fits, LabelledLive, Labelled;
    if step.CreateLab? {
      assert !Held(s.lab);
      NothingLiveFits(e, s, step.lab.generation, step.lab.spec.traffic);
    } else {
      LabStepKeeps(e, s, t);
    }
  }

  lemma StepKeeps(e: Env, s: State, step: Step, t: State)
    requires Collisionless(e) && Inv(e, s) && Next(e, s, step, t)
    ensures Inv(e, t)
  {
    if step.ControllerPass? {
      PassKeeps(e, step.world, s);
    } else if step.PodsChange? {
    } else if step.OthersAct? {
      OthersKeep(e, s, t);
    } else if step.JobReports? || step.DeletionTakesEffect? || step.JobExpires? {
      JobsKeep(e, s, step, t);
    } else {
      LabKeeps(e, s, step, t);
    }
  }

  /** The invariant holds in every state of every run. */
  lemma {:induction false} Always(e: Env, states: seq<State>, steps: seq<Step>, i: nat)
    requires Collisionless(e) && IsRun(e, states, steps) && i < |states|
    ensures Inv(e, states[i])
  {
    hide Next, Inv, Initial;
    if i == 0 {
      InitialInv(e, states[0]);
    } else {
      Always(e, states, steps, i - 1);
      StepKeeps(e, states[i - 1], steps[i - 1], states[i]);
    }
  }

  lemma InitialInv(e: Env, s: State)
    requires Initial(e, s)
    ensures Inv(e, s)
  {
    hide JobName;
  }

  // ----- what it means -----

  lemma {:induction false} AllSucceed(results: seq<StatusResult>)
    requires Successes(results) == |results|
    ensures forall r | r in results :: r.success
  {
    if results != [] {
      AllSucceed(results[..|results| - 1]);
      assert results == results[..|results| - 1] + [results[|results| - 1]];
    }
  }

  lemma {:induction false} ItemsAnswer(checks: seq<Check>, nodes: seq<string>, readings: seq<Reading>)
    requires |readings| == |nodes|
    requires forall i | 0 <= i < |nodes| :: AnswersAll(readings[i].report, nodes[i], GroupOf(checks, nodes[i]))
    ensures var items, grouped := Bind(readings, Items()), Bind(nodes, GroupFor(checks));
            |items| == |grouped| && forall i | 0 <= i < |items| :: Answers(items[i], grouped[i])
  {
    hide GroupOf, Answers;
    if nodes != [] {
      var last := |nodes| - 1;
      assert AnswersAll(readings[last].report, nodes[last], GroupOf(checks, nodes[last]));
      ItemsAnswer(checks, nodes[..last], readings[..last]);
    }
  }

  lemma SourcedAnswers(e: Env, created: map<nat, Job>, generation: int, basis: Basis, i: nat)
    requires Sourced(e, created, generation, basis) && i < |NodesOf(basis.checks)|
    ensures var node := NodesOf(basis.checks)[i];
            AnswersAll(basis.readings[i].report, node, GroupOf(basis.checks, node))
  {
    hide NodesOf, GroupOf, ChecksHash, ReadOff, BudgetOf;
    var node := NodesOf(basis.checks)[i];
    assert FromJob(e, created, generation, basis, node, basis.readings[i]);
    ReadOffAnswers(basis.readings[i], node, GroupOf(basis.checks, node), DefaultInt(basis.traffic.count, 1));
  }

  function CheckId(): Check -> seq<string> {
    (c: Check) => [c.id]
  }

  function ResultId(): Result -> seq<string> {
    (r: Result) => [r.checkID]
  }

  lemma {:induction false} AnswersSameIds(items: seq<Result>, checks: seq<Check>)
    requires |items| == |checks| && forall i | 0 <= i < |items| :: Answers(items[i], checks[i])
    ensures Bind(items, ResultId()) == Bind(checks, CheckId())
  {
    if items != [] {
      AnswersSameIds(items[..|items| - 1], checks[..|checks| - 1]);
    }
  }

  /** The results that a status is based on are those of the checks, each answered exactly once. */
  lemma EveryCheckOnce(e: Env, created: map<nat, Job>, generation: int, basis: Basis)
    requires Sourced(e, created, generation, basis)
    ensures var items := Bind(basis.readings, Items());
            |items| == |basis.checks| && multiset(Bind(items, ResultId())) == multiset(Bind(basis.checks, CheckId()))
  {
    var checks, nodes := basis.checks, NodesOf(basis.checks);
    assert |basis.readings| == |nodes|;
    hide Sourced, NodesOf, Bind, Answers, AnswersAll, GroupFor, GroupOf;
    var items, grouped := Bind(basis.readings, Items()), Bind(nodes, GroupFor(checks));
    forall i | 0 <= i < |nodes| ensures AnswersAll(basis.readings[i].report, nodes[i], GroupOf(checks, nodes[i])) {
      SourcedAnswers(e, created, generation, basis, i);
    }
    ItemsAnswer(checks, nodes, basis.readings);
    GroupsPartition(checks);
    AnswersSameIds(items, grouped);
    BindPermutation(grouped, checks, CheckId());
  }

  // ----- the checks are those of the lab -----

  /** The pass built these checks: from the spec that the lab had then, at the generation the status observed, and from
      the pods and services that were listed then. */
  ghost predicate BuiltByPass(e: Env, s: State, step: Step, generation: int, basis: Basis) {
    && step.ControllerPass? && step.world.targets.Some? && step.world.services.Some?
    && s.lab.Some? && s.lab.value.generation == generation
    && basis.traffic == s.lab.value.spec.traffic
    && basis.checks == BuiltChecks(basis.traffic, step.world.targets.value, step.world.services.value, e.id)
  }

  /** The lab has moved on to another generation, or it still has the spec it had. */
  predicate Since(now: Lab, before: Lab, generation: int) {
    generation <= now.generation && (generation == now.generation ==> now.spec == before.spec)
  }

  /** The checks behind the status of the i-th state were built by an earlier pass of the run, and the lab has the same
      spec since, unless its generation has grown. */
  ghost predicate Drawn(e: Env, states: seq<State>, steps: seq<Step>, i: nat)
    requires i < |states| == |steps| + 1 && states[i].lab.Some?
  {
    exists k: nat :: k < i && DrawnAt(e, states, steps, k, states[i])
  }

  ghost predicate DrawnAt(e: Env, states: seq<State>, steps: seq<Step>, k: nat, now: State)
    requires k < |steps| < |states| && now.lab.Some?
  {
    var generation := now.lab.value.status.observedGeneration;
    && BuiltByPass(e, states[k], steps[k], generation, now.basis)
    && Since(now.lab.value, states[k].lab.value, generation)
  }

  lemma RunBuilds(e: Env, lab: Lab, w: World, s: State)
    requires s.lab == Some(lab)
    ensures var o := RunOf(e, lab, w, s);
            o.basis.checks != [] ==> BuiltByPass(e, s, ControllerPass(w), lab.generation, o.basis)
  {
    hide PassOver, BuiltChecks, WriteSnapshots, WriteReports, Filled;
  }

  /** The status and its basis stay, and the lab only moves on. */
  predicate KeepsStatus(s: State, t: State) {
    && s.lab.Some? && t.lab.Some? && t.basis == s.basis && t.lab.value.status == s.lab.value.status
    && s.lab.value.generation <= t.lab.value.generation
    && (s.lab.value.generation == t.lab.value.generation ==> t.lab.value.spec == s.lab.value.spec)
  }

  lemma PassDraws(e: Env, w: World, s: State)
    requires Reconciled(e, w, s).lab.Some? && Reconciled(e, w, s).basis.checks != []
    ensures var t := Reconciled(e, w, s);
            || KeepsStatus(s, t)
            || (var generation := t.lab.value.status.observedGeneration;
                BuiltByPass(e, s, ControllerPass(w), generation, t.basis)
                  && Since(t.lab.value, s.lab.value, generation))
  {
    hide RunOf, BuiltByPass, CleanJobs, CleanConfigMaps;
    var t := Reconciled(e, w, s);
    if s.lab.Some? && !s.lab.value.deleting && FINALIZER in s.lab.value.finalizers && !w.statusFails {
      RunBuilds(e, s.lab.value, w, s);
    }
  }

  lemma StepDraws(e: Env, s: State, step: Step, t: State)
    requires Next(e, s, step, t) && t.lab.Some? && t.basis.checks != []
    ensures || KeepsStatus(s, t)
            || (var generation := t.lab.value.status.observedGeneration;
                BuiltByPass(e, s, step, generation, t.basis) && Since(t.lab.value, s.lab.value, generation))
  {
    hide Reconciled, BuiltByPass, PodsHonest, LabelledLive, Labelled;
    if step.ControllerPass? {
      PassDraws(e, step.world, s);
    }
  }

  /** In every state of every run, the checks behind a status were built by an earlier pass of the run. */
  lemma {:induction false} ChecksAreDrawn(e: Env, states: seq<State>, steps: seq<Step>, i: nat)
    requires IsRun(e, states, steps) && i < |states| && states[i].lab.Some? && states[i].basis.checks != []
    ensures Drawn(e, states, steps, i)
  {
    hide Next, BuiltByPass, PodsHonest;
    var s, t := states[i - 1], states[i];
    StepDraws(e, s, steps[i - 1], t);
    if KeepsStatus(s, t) {
      ChecksAreDrawn(e, states, steps, i - 1);
      var k: nat :| k < i - 1 && DrawnAt(e, states, steps, k, s);
      assert DrawnAt(e, states, steps, k, t);
    } else {
      assert DrawnAt(e, states, steps, i - 1, t);
    }
  }

  // ----- each result has its pod -----

  /** The result carries the name and the address of the pod that the reading was taken from. */
  predicate CameFrom(r: StatusResult, reading: Reading) {
    r.sourcePod == reading.pod.namespace + "/" + reading.pod.name && r.sourcePodIP == reading.pod.ip
  }

  ghost predicate HasSource(r: StatusResult, basis: Basis) {
    exists j :: 0 <= j < |basis.readings| && CameFrom(r, basis.readings[j])
      && r.sourceNode == basis.readings[j].report.sourceNode
  }

  lemma ItemHasSource(reading: Reading, node: string, checks: seq<Check>, count: int, item: Result, r: StatusResult)
    requires ReadOff(reading, node, checks, count) && item in reading.report.results && Shows(r, item)
    requires forall c | c in checks :: c.sourceNode == node
    ensures CameFrom(r, reading) && r.sourceNode == reading.report.sourceNode
  {
    hide Reported, Answers;
    ReadOffAnswers(reading, node, checks, count);
    var raw: Report :| Reported(raw, node, checks, count) && reading.report == Stamped(raw, reading.pod);
    var i :| 0 <= i < |reading.report.results| && reading.report.results[i] == item;
    StampMarks(raw.results, reading.pod.namespace + "/" + reading.pod.name, reading.pod.ip, i);
    AnswersNode(item, checks[i]);
    assert checks[i] in checks;
  }

  lemma StampMarks(results: seq<Result>, sourcePod: string, sourceIP: string, k: nat)
    requires k < |results|
    ensures Stamp(results, sourcePod, sourceIP)[k].sourcePod == sourcePod
            && Stamp(results, sourcePod, sourceIP)[k].sourceIP == sourceIP
  {
  }

  lemma AnswersNode(item: Result, c: Check)
    requires Answers(item, c)
    ensures item.sourceNode == c.sourceNode
  {
  }

  /** Every recorded result carries the pod of the reading it came from. */
  lemma ResultsHaveSources(e: Env, created: map<nat, Job>, generation: int, basis: Basis, results: seq<StatusResult>)
    requires Sourced(e, created, generation, basis)
    requires ShowsAll(results, Bind(basis.readings, Items()))
    ensures forall r | r in results :: HasSource(r, basis)
  {
    hide NodesOf, GroupOf, ChecksHash, ReadOff, Bind, Shows, CameFrom, BudgetOf;
    var items := Bind(basis.readings, Items());
    forall r | r in results ensures HasSource(r, basis) {
      var k :| 0 <= k < |results| && results[k] == r;
      BindMember(basis.readings, Items(), items[k]);
      var reading :| reading in basis.readings && items[k] in Items()(reading);
      var j :| 0 <= j < |basis.readings| && basis.readings[j] == reading;
      var node := NodesOf(basis.checks)[j];
      assert FromJob(e, created, generation, basis, node, reading);
      GroupMembers(basis.checks, node);
      ItemHasSource(reading, node, GroupOf(basis.checks, node), DefaultInt(basis.traffic.count, 1), items[k], r);
    }
  }

  /** The status of a run whose results have been collected. */
  predicate HasResults(st: Status) {
    st.phase == Succeeded || st.results != []
  }

  /** Conservation: in every state of every run, a status with results counts every check exactly once of a list that an
      earlier pass built from the lab's spec and the cluster; its results show answers whose check identifiers are those
      of the list. */
  lemma Conservation(e: Env, states: seq<State>, steps: seq<Step>, i: nat)
    requires Collisionless(e) && IsRun(e, states, steps) && i < |states| && states[i].lab.Some?
    requires HasResults(states[i].lab.value.status)
    ensures
      var st, basis := states[i].lab.value.status, states[i].basis;
      var items := Bind(basis.readings, Items());
      && st.totalTests == st.succeeded + st.failed == |st.results| == |basis.checks| > 0
      && st.succeeded == Successes(st.results) && ShowsAll(st.results, items)
      && multiset(Bind(items, ResultId())) == multiset(Bind(basis.checks, CheckId()))
      && Drawn(e, states, steps, i)
  {
    assert |states| == |steps| + 1;
    hide Records, PodsHonest, Tracked, RefersToArtifacts, Sourced, IsRun, Bind, NodesOf, Successes, Drawn;
    Always(e, states, steps, i);
    ChecksAreDrawn(e, states, steps, i);
    var st, basis := states[i].lab.value.status, states[i].basis;
    EveryCheckOnce(e, states[i].store.created, st.observedGeneration, basis);
  }

  /** Safety: in every state of every run, a status Succeeded at generation g has only successes, as many as it has
      tests, and every one of them came from a pod owned by a job annotated with g and the hash of exactly its node's
      checks, whose name and address it carries; the checks are those that an earlier pass built at generation g. */
  lemma SucceededIsTrue(e: Env, states: seq<State>, steps: seq<Step>, i: nat)
    requires Collisionless(e) && IsRun(e, states, steps) && i < |states| && states[i].lab.Some?
    requires states[i].lab.value.status.phase == Succeeded
    ensures
      var st, basis := states[i].lab.value.status, states[i].basis;
      && st.failed == 0 && |st.results| == st.totalTests > 0
      && (forall r | r in st.results :: r.success)
      && ShowsAll(st.results, Bind(basis.readings, Items()))
      && Sourced(e, states[i].store.created, st.observedGeneration, basis)
      && (forall r | r in st.results :: HasSource(r, basis))
      && Drawn(e, states, steps, i)
  {
    assert |states| == |steps| + 1;
    hide Records, PodsHonest, Tracked, RefersToArtifacts, Sourced, IsRun, Bind, NodesOf, Successes, Drawn, HasSource;
    Always(e, states, steps, i);
    Conservation(e, states, steps, i);
    var st := states[i].lab.value.status;
    ResultsHaveSources(e, states[i].store.created, st.observedGeneration, states[i].basis, st.results);
    AllSucceed(st.results);
  }

  /** The reading is the report of a program that made this many attempts of the check, and every one got through. */
  ghost predicate Reached(reading: Reading, checks: seq<Check>, c: Check, count: int) {
    exists network: Network ::
      && GetsThrough(c, count, network)
      && reading.report == Stamped(ReportOf(c.sourceNode, checks, count, network), reading.pod)
  }

  lemma SuccessReaches(reading: Reading, node: string, checks: seq<Check>, count: int, k: nat)
    requires ReadOff(reading, node, checks, count) && count >= 1 && k < |checks| && checks[k].sourceNode == node
    requires |reading.report.results| == |checks| && reading.report.results[k].success
    ensures Reached(reading, checks, checks[k], count)
  {
    hide Stamp;
    var raw: Report :| Reported(raw, node, checks, count) && reading.report == Stamped(raw, reading.pod);
    var network: Network :| raw == ReportOf(node, checks, count, network);
    SuccessExactly(node, checks, count, network, k);
    StampKeeps(raw.results, reading.pod.namespace + "/" + reading.pod.name, reading.pod.ip, k);
    assert GetsThrough(checks[k], count, network);
  }

  lemma StampKeeps(results: seq<Result>, sourcePod: string, sourceIP: string, k: nat)
    requires k < |results|
    ensures Stamp(results, sourcePod, sourceIP)[k].success == results[k].success
  {
  }

  /** A report covers the check with as many attempts as the traffic settings ask for. */
  ghost predicate Covered(basis: Basis, c: Check) {
    exists j :: 0 <= j < |basis.readings|
                && Reached(basis.readings[j], GroupOf(basis.checks, c.sourceNode), c,
                           DefaultInt(basis.traffic.count, 1))
  }

  lemma CheckCovered(e: Env, created: map<nat, Job>, generation: int, basis: Basis, c: Check)
    requires Sourced(e, created, generation, basis) && c in basis.checks
    requires forall item | item in Bind(basis.readings, Items()) :: item.success
    ensures Covered(basis, c)
  {
    hide NodesOf, Reached, ReadOff, GroupOf, ChecksHash, AnswersAll, Bind, BudgetOf;
    var node, count := c.sourceNode, DefaultInt(basis.traffic.count, 1);
    var group := GroupOf(basis.checks, node);
    NodesOfMembers(basis.checks);
    assert node in NodesOf(basis.checks);
    var j :| 0 <= j < |NodesOf(basis.checks)| && NodesOf(basis.checks)[j] == node;
    var reading := basis.readings[j];
    assert FromJob(e, created, generation, basis, node, reading);
    ReadOffAnswers(reading, node, group, count);
    InOwnGroup(basis.checks, c);
    var k :| 0 <= k < |group| && group[k] == c;
    assert |reading.report.results| == |group| by { AnswersLength(reading.report, node, group); }
    BindContains(basis.readings, Items(), j, reading.report.results[k]);
    SuccessReaches(reading, node, group, count, k);
  }

  lemma AnswersLength(report: Report, node: string, checks: seq<Check>)
    requires AnswersAll(report, node, checks)
    ensures |report.results| == |checks|
  {
  }

  lemma InOwnGroup(checks: seq<Check>, c: Check)
    requires c in checks
    ensures c in GroupOf(checks, c.sourceNode)
  {
    var i :| 0 <= i < |checks| && checks[i] == c;
    BindContains(checks, KeepNode(c.sourceNode), i, c);
  }

  lemma ItemsSucceed(results: seq<StatusResult>, items: seq<Result>)
    requires ShowsAll(results, items) && forall r | r in results :: r.success
    ensures forall item | item in items :: item.success
  {
    forall item | item in items ensures item.success {
      var k :| 0 <= k < |items| && items[k] == item;
      assert Shows(results[k], items[k]) && results[k] in results;
    }
  }

  /** End to end: in every state of every run, a status Succeeded means that for every check that an earlier pass built
      from the lab's spec and the cluster a probe program ran on a job made for it, and every one of the attempts that
      the spec asked for got through. */
  lemma SucceededReachesAll(e: Env, states: seq<State>, steps: seq<Step>, i: nat)
    requires Collisionless(e) && IsRun(e, states, steps) && i < |states| && states[i].lab.Some?
    requires states[i].lab.value.status.phase == Succeeded
    ensures states[i].basis.checks != [] && Drawn(e, states, steps, i)
    ensures forall c | c in states[i].basis.checks :: Covered(states[i].basis, c)
  {
    assert |states| == |steps| + 1;
    hide Sourced, IsRun, Bind, NodesOf, Covered, Collisionless, Drawn, HasSource, ShowsAll, Reflects;
    SucceededIsTrue(e, states, steps, i);
    Conservation(e, states, steps, i);
    var st, basis := states[i].lab.value.status, states[i].basis;
    ItemsSucceed(st.results, Bind(basis.readings, Items()));
    forall c | c in basis.checks ensures Covered(basis, c) {
      CheckCovered(e, states[i].store.created, st.observedGeneration, basis, c);
    }
  }

  /** In every state of every run, a status Running carries nothing of an earlier run. */
  lemma RunningIsEmpty(e: Env, states: seq<State>, steps: seq<Step>, i: nat)
    requires Collisionless(e) && IsRun(e, states, steps) && i < |states| && states[i].lab.Some?
    requires states[i].lab.value.status.phase == Running
    ensures var st := states[i].lab.value.status;
            st.results == [] && st.nodeResults == [] && st.rawNames == [] && st.succeeded == 0 && st.failed == 0
  {
    hide Records, PodsHonest, Tracked, IsRun, Backed;
    Always(e, states, steps, i);
  }

  /** In every state of every run, a live job or a ConfigMap with the lab's label means that the lab is there with its
      finalizer; once the lab is gone, no such ConfigMap is left, and no such job that is not being deleted. */
  lemma ArtifactsBelongToTheLab(e: Env, states: seq<State>, steps: seq<Step>, i: nat)
    requires Collisionless(e) && IsRun(e, states, steps) && i < |states|
    ensures forall name :: LabelledLive(e, states[i].store.jobs, name) || Labelled(e, states[i].configMaps, name)
                           ==> states[i].lab.Some? && FINALIZER in states[i].lab.value.finalizers
  {
    hide Records, PodsHonest, StatusSound, IsRun, LabelledLive, Labelled;
    Always(e, states, steps, i);
  }

  /** In every state of every run, the snapshot ConfigMaps that the status of a lab refers to are there with the lab's
      label, except those that others have taken away since the status was written. */
  lemma StatusRefersToArtifacts(e: Env, states: seq<State>, steps: seq<Step>, i: nat)
    requires Collisionless(e) && IsRun(e, states, steps) && i < |states| && states[i].lab.Some?
             && !states[i].lab.value.deleting
    ensures var st := states[i].lab.value.status;
            && (forall name | name in st.rawNames && name !in states[i].removed ::
                Labelled(e, states[i].configMaps, name))
            && (forall r | r in st.nodeResults && r.snapshotRef != "" && r.snapshotRef !in states[i].removed ::
                  Labelled(e, states[i].configMaps, r.snapshotRef))
  {
    hide Records, PodsHonest, StatusSound, Tracked, IsRun, LabLabel;
    Always(e, states, steps, i);
    var st, names := states[i].lab.value.status, NamedBy(states[i].lab.value.status) - states[i].removed;
    assert forall name | name in st.rawNames && name !in states[i].removed :: name in names;
    assert forall r | r in st.nodeResults && r.snapshotRef != "" && r.snapshotRef !in states[i].removed ::
             r.snapshotRef in names;
  }
}
