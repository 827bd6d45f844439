/** What one pass of the controller writes into the status of a lab, and what a cleanup takes away
    (internal/controller/networkprobelab_controller.go, finalizers.go). */
module ProbeVerdict {
  import Text
  import opened Sorting
  import opened ProbeTypes
  import opened ProbeChecks
  import opened ProbeJobs
  import opened JobLaws
  import opened ProbeController
  import opened ProbeArtifacts
  import Sequences
  import ProbeRuns
  import ProbeSafety
  import Finalizers

  /** The lab is held by its finalizer and not being deleted, and its status can be written. */
  predicate Writable(w: World, s: State) {
    s.lab.Some? && !s.lab.value.deleting && FINALIZER in s.lab.value.finalizers && !w.statusFails
  }

  predicate HasTargets(w: World) {
    w.targets.Some? && w.services.Some? && w.targets.value != []
  }

  ghost function ChecksNow(e: Env, w: World, s: State): seq<Check>
    requires s.lab.Some? && HasTargets(w)
  {
    BuiltChecks(s.lab.value.spec.traffic, w.targets.value, w.services.value, e.id)
  }

  ghost function PassNow(e: Env, w: World, s: State): ProbeJobs.Pass
    requires s.lab.Some? && HasTargets(w)
  {
    ProbeJobs.Pass(s.lab.value.generation, s.lab.value.spec.traffic, ChecksNow(e, w, s), s.pods, w.faultyJobs)
  }

  /** For some source node a call fails, the current job has failed, or its report cannot be read. */
  ghost predicate SomeFails(e: Env, w: World, s: State)
    requires s.lab.Some? && HasTargets(w)
  {
    exists i :: 0 <= i < |NodesOf(ChecksNow(e, w, s))|
                && Fails(e, PassNow(e, w, s), s.store.jobs, NodesOf(ChecksNow(e, w, s))[i])
  }

  /** Some source node has no finished job of this generation and these checks. */
  ghost predicate SomeWaits(e: Env, w: World, s: State)
    requires s.lab.Some? && HasTargets(w)
  {
    Waiting(e, PassNow(e, w, s), s.store.jobs, NodesOf(ChecksNow(e, w, s)))
  }

  /** No snapshots can be had, or the call for one of the artifacts fails. */
  predicate ArtifactsFail(e: Env, spec: Spec, w: World) {
    w.snapshots.None? || ArtifactNames(e, spec, w) * w.faultyConfigMaps != {}
  }

  predicate AllSucceeded(results: seq<StatusResult>) {
    forall r | r in results :: r.success
  }

  /** Only the status of the lab is written. */
  predicate OnlyStatus(s: State, t: State) {
    s.lab.Some? && t.lab.Some? && t.lab.value == s.lab.value.(status := t.lab.value.status) && t.pods == s.pods
  }

  /** Without targets, services or checks the pass fails, at the generation of the lab, and touches nothing else. */
  lemma NothingToProbe(e: Env, w: World, s: State)
    requires Writable(w, s) && (!HasTargets(w) || ChecksNow(e, w, s) == [])
    ensures var t := Reconciled(e, w, s);
            && OnlyStatus(s, t) && t.store == s.store && t.configMaps == s.configMaps
            && t.lab.value.status == Status(s.lab.value.generation, Failed, 0, 0, 0, [], [], [])
  {
    hide PassOver, BuiltChecks, Complete;
  }

  lemma {:induction false} CountSuccesses(results: seq<StatusResult>)
    ensures Successes(results) == |results| <==> AllSucceeded(results)
  {
    if results != [] {
      var front, last := results[..|results| - 1], results[|results| - 1];
      assert results == front + [last];
      CountSuccesses(front);
    }
  }

  lemma CompleteVerdict(e: Env, lab: Lab, w: World, store: Store, configMaps: map<string, ConfigMap>,
          checks: seq<Check>, readings: seq<Reading>)
    requires checks != []
    ensures var o := Complete(e, lab.spec, w, store, configMaps, checks, readings);
            var st := StatusAfter(lab.generation, o.run, o.failed);
            && st.observedGeneration == lab.generation && st.totalTests == |checks|
            && (st.phase == Failed <==> ArtifactsFail(e, lab.spec, w) || !AllSucceeded(st.results))
            && (st.phase == Succeeded <==> !ArtifactsFail(e, lab.spec, w) && AllSucceeded(st.results))
            && (w.snapshots.Some? && !ArtifactsFail(e, lab.spec, w) ==>
                  o.run == Filled(e, lab.spec, w, |checks|, readings, w.snapshots.value))
  {
    hide WriteSnapshots, WriteReports, ResultsOf, Sort, ArtifactNames, MapAll, Adds, HasSnapshots, HasReports;
    CompleteWrites(e, lab.spec, w, store, configMaps, checks, readings);
    CompleteNotPending(e, lab.spec, w, store, configMaps, checks, readings);
    CountSuccesses(ResultsOf(e, w, readings));
  }

  /** The verdict of a pass with something to probe: Failed exactly if some node fails, or nothing waits and an artifact
      or a result has failed; Running exactly if no node fails and some node waits; Succeeded exactly otherwise. */
  lemma Verdict(e: Env, w: World, s: State)
    requires Collisionless(e) && ProbeRuns.Located(e, w) && UidsBelow(s.store)
    requires Writable(w, s) && HasTargets(w) && ChecksNow(e, w, s) != []
    ensures var t := Reconciled(e, w, s);
            && OnlyStatus(s, t)
            && var st, fails, waits := t.lab.value.status, SomeFails(e, w, s), SomeWaits(e, w, s);
            && st.observedGeneration == s.lab.value.generation && st.totalTests == |ChecksNow(e, w, s)|
            && (st.phase == Failed
                <==> fails || (!waits && (ArtifactsFail(e, s.lab.value.spec, w) || !AllSucceeded(st.results))))
            && (st.phase == Running <==> !fails && waits)
            && (st.phase == Succeeded
                <==> !fails && !waits && !ArtifactsFail(e, s.lab.value.spec, w) && AllSucceeded(st.results))
  {
    hide NodesOf, BuiltChecks, Visits, Complete, Fails, Waiting, OnePass, ArtifactsFail, AllSucceeded, Sort, OnNodes,
         UidsBelow, StoppedAt;
    var lab, checks, p := s.lab.value, ChecksNow(e, w, s), PassNow(e, w, s);
    ProbeSafety.BuiltOnNodes(e, lab.spec.traffic, w.targets.value, w.services.value);
    NodeNamesDiffer(e, checks);
    PassFailsExactly(e, p, s.store, NodesOf(checks));
    var after := PassOver(e, p, s.store);
    if !after.failed {
      OnePassDoes(e, p, s.store, NodesOf(checks));
      assert after.pending <==> SomeWaits(e, w, s) by {
        PendingWaits(e, p, s.store, NodesOf(checks));
      }
      if !after.pending {
        CompleteVerdict(e, lab, w, after.store, s.configMaps, checks, after.readings);
      }
    }
  }

  lemma PendingWaits(e: Env, p: ProbeJobs.Pass, store: Store, nodes: seq<string>)
    requires OnePass(e, p, nodes, store, Visits(e, p, store, nodes))
    ensures Visits(e, p, store, nodes).pending <==> Waiting(e, p, store.jobs, nodes)
  {
    hide OthersUntouched, Handled, Waiting, Visits;
  }

  /** A failed job is not overlooked: the next pass whose status is written is Failed, at the generation of the lab. */
  lemma FailedJobShows(e: Env, w: World, s: State, node: string)
    requires Collisionless(e) && ProbeRuns.Located(e, w) && UidsBelow(s.store)
    requires Writable(w, s) && HasTargets(w) && node in NodesOf(ChecksNow(e, w, s))
    requires var name := JobName(e, node);
             && name in s.store.jobs && !s.store.jobs[name].deleting
             && s.store.jobs[name].generation == s.lab.value.generation
             && s.store.jobs[name].hash == ChecksHash(e, GroupOf(ChecksNow(e, w, s), node))
             && s.store.jobs[name].succeeded <= 0 && s.store.jobs[name].failed > 0
    ensures var t := Reconciled(e, w, s);
            && t.lab.Some? && t.lab.value.status.phase == Failed
            && t.lab.value.status.observedGeneration == s.lab.value.generation
  {
    hide NodesOf, ChecksHash, GroupOf, JobName, Reconciled, BuiltChecks, UidsBelow;
    var nodes := NodesOf(ChecksNow(e, w, s));
    var i :| 0 <= i < |nodes| && nodes[i] == node;
    assert Fails(e, PassNow(e, w, s), s.store.jobs, nodes[i]);
    assert ChecksNow(e, w, s) != [] by { NodesOfMembers(ChecksNow(e, w, s)); }
    Verdict(e, w, s);
  }

  // ----- what is recorded -----

  /** A result about a service shows the pod behind it, if the probe saw no pod address and there is such a pod. */
  predicate ShowsTarget(w: World, r: StatusResult, item: Result) {
    var unknown := item.targetService != "" && item.targetIP == "";
    match if unknown then w.backend(item.targetService, item.sourceNode) else None
    case None => r.targetPod == item.targetPod && r.targetPodIP == item.targetIP && r.targetNode == item.targetNode
    case Some(pod) =>
      r.targetPod == pod.namespace + "/" + pod.name && r.targetPodIP == pod.ip && r.targetNode == pod.node
  }

  /** A result that no pod has been stamped on shows the job it comes from. */
  predicate ShowsSource(e: Env, r: StatusResult, item: Result) {
    r.sourcePod == if item.sourcePod == "" then "job/" + JobName(e, item.sourceNode) else item.sourcePod
  }

  ghost predicate RecordsAll(e: Env, w: World, results: seq<StatusResult>, items: seq<Result>) {
    && ProbeSafety.ShowsAll(results, items)
    && forall i | 0 <= i < |results| :: ShowsTarget(w, results[i], items[i]) && ShowsSource(e, results[i], items[i])
  }

  lemma {:induction false} ResultsRecord(e: Env, w: World, items: seq<Result>)
    ensures RecordsAll(e, w, Sequences.Bind(items, AsStatus(e, w)), items)
  {
    hide JobName;
    ProbeSafety.StatusShows(e, w, items);
    if items != [] {
      var last := |items| - 1;
      ResultsRecord(e, w, items[..last]);
      assert Sequences.Bind(items, AsStatus(e, w))
          == Sequences.Bind(items[..last], AsStatus(e, w)) + [StatusOf(e, w, items[last])];
    }
  }

  function NodeNames(results: seq<NodeResult>): (r: seq<string>)
    ensures |r| == |results| && forall i | 0 <= i < |r| :: r[i] == results[i].node
  {
    seq(|results|, i requires 0 <= i < |results| => results[i].node)
  }

  /** One node result for every snapshot, in order of the nodes, with its reference if snapshots are retained; and then
      the names of the snapshots, sorted. */
  ghost predicate SnapshotsRecorded(e: Env, spec: Spec, nodes: seq<string>, st: Status) {
    && multiset(NodeNames(st.nodeResults)) == multiset(nodes) && Sorted(NodeNames(st.nodeResults), Text.StringLe)
    && (forall r | r in st.nodeResults :: r.snapshotRef == if spec.retainRaw then SnapshotName(e)(r.node) else "")
    && (if spec.retainRaw then multiset(st.rawNames) == multiset(MapAll(nodes, SnapshotName(e))) else st.rawNames == [])
    && Sorted(st.rawNames, Text.StringLe)
  }

  lemma {:induction false} NodeNamesPermuted(a: seq<NodeResult>, b: seq<NodeResult>)
    requires multiset(a) == multiset(b)
    ensures multiset(NodeNames(a)) == multiset(NodeNames(b))
  {
    NodeNamesBind(a);
    NodeNamesBind(b);
    Sequences.BindPermutation(a, b, OneName());
  }

  function OneName(): NodeResult -> seq<string> {
    (r: NodeResult) => [r.node]
  }

  lemma {:induction false} NodeNamesBind(results: seq<NodeResult>)
    ensures NodeNames(results) == Sequences.Bind(results, OneName())
  {
    if results != [] {
      NodeNamesBind(results[..|results| - 1]);
    }
  }

  lemma FilledRecords(e: Env, spec: Spec, w: World, total: int, readings: seq<Reading>, nodes: seq<string>,
          generation: int, failed: bool)
    ensures var st := StatusAfter(generation, Filled(e, spec, w, total, readings, nodes), failed);
            && RecordsAll(e, w, st.results, Sequences.Bind(readings, Items()))
            && st.succeeded == Successes(st.results) && st.failed == |st.results| - st.succeeded
            && SnapshotsRecorded(e, spec, nodes, st)
  {
    hide SnapshotName, Sequences.Bind, AsStatus, RecordsAll, Sort, Successes;
    ResultsRecord(e, w, Sequences.Bind(readings, Items()));
    var st := StatusAfter(generation, Filled(e, spec, w, total, readings, nodes), failed);
    var listed := MapAll(nodes, NodeResultFor(e, spec.retainRaw));
    NodeResultLePreorder();
    SortSorted(listed, NodeResultLe);
    SortContents(listed, NodeResultLe);
    SameMembers(st.nodeResults, listed);
    NodeNamesPermuted(st.nodeResults, listed);
    assert NodeNames(listed) == nodes;
    StringLePreorder();
    SortSorted(MapAll(nodes, SnapshotName(e)), Text.StringLe);
    SortContents(MapAll(nodes, SnapshotName(e)), Text.StringLe);
  }

  /** What a pass records when nothing fails or waits: the reports that it reads from the jobs, and the snapshots. */
  lemma ReportsRecorded(e: Env, w: World, s: State)
    requires Collisionless(e) && ProbeRuns.Located(e, w) && UidsBelow(s.store)
    requires Writable(w, s) && HasTargets(w) && ChecksNow(e, w, s) != []
    requires !SomeFails(e, w, s) && !SomeWaits(e, w, s) && !ArtifactsFail(e, s.lab.value.spec, w)
    ensures var t, nodes := Reconciled(e, w, s), NodesOf(ChecksNow(e, w, s));
            && t.lab.Some? && SnapshotsRecorded(e, s.lab.value.spec, w.snapshots.value, t.lab.value.status)
            && exists read, sorted :: ReadAll(e, PassNow(e, w, s), s.store.jobs, nodes, read)
                 && multiset(sorted) == multiset(read) && Sorted(sorted, ReportLe)
                 && RecordsAll(e, w, t.lab.value.status.results, Sequences.Bind(sorted, Items()))
  {
    hide NodesOf, BuiltChecks, Visits, Complete, Fails, Waiting, OthersUntouched, Handled, ArtifactNames, AllSucceeded,
         Sort, OnNodes, UidsBelow, StoppedAt, Filled, SnapshotsRecorded, RecordsAll, ReadFrom;
    var lab, checks, p := s.lab.value, ChecksNow(e, w, s), PassNow(e, w, s);
    ProbeSafety.BuiltOnNodes(e, lab.spec.traffic, w.targets.value, w.services.value);
    NodeNamesDiffer(e, checks);
    PassFailsExactly(e, p, s.store, NodesOf(checks));
    var visits := Visits(e, p, s.store, NodesOf(checks));
    OnePassDoes(e, p, s.store, NodesOf(checks));
    var read, sorted := visits.readings, Sort(visits.readings, ReportLe);
    ReportLePreorder();
    SortContents(read, ReportLe);
    SortSorted(read, ReportLe);
    CompleteVerdict(e, lab, w, visits.store, s.configMaps, checks, sorted);
    var o := Complete(e, lab.spec, w, visits.store, s.configMaps, checks, sorted);
    FilledRecords(e, lab.spec, w, |checks|, sorted, w.snapshots.value, lab.generation, o.failed);
    assert ReadAll(e, p, s.store.jobs, NodesOf(checks), read);
  }

  lemma ReportLePreorder()
    ensures Preorder(ReportLe)
  {
    forall a: Reading, b: Reading ensures ReportLe(a, b) || ReportLe(b, a) {
      Text.StrLeTotal(a.report.sourceNode, b.report.sourceNode);
    }
    forall a: Reading, b: Reading, c: Reading | ReportLe(a, b) && ReportLe(b, c) ensures ReportLe(a, c) {
      Text.StrLeTransitive(a.report.sourceNode, b.report.sourceNode, c.report.sourceNode);
    }
  }

  // ----- the finalizer -----

  /** A lab without the operator's finalizer gets it, at the end of its list, and nothing else happens in that pass. */
  lemma FinalizerFirst(e: Env, w: World, s: State)
    requires s.lab.Some? && !s.lab.value.deleting && FINALIZER !in s.lab.value.finalizers
    ensures var t := Reconciled(e, w, s);
            && OnlyFinalizers(s, t)
            && t.lab.value.finalizers == s.lab.value.finalizers + if w.updateFails then [] else [FINALIZER]
  {
  }

  predicate OnlyFinalizers(s: State, t: State) {
    && s.lab.Some? && t.lab.Some?
    && t == s.(lab := Some(s.lab.value.(finalizers := t.lab.value.finalizers)))
  }

  // ----- the cleanup -----

  /** No call of the cleanup fails. */
  predicate CleansUp(e: Env, w: World, s: State) {
    && !w.listJobsFails && LabelledJobs(e, s.store.jobs) * w.faultyJobs == {}
    && !w.listConfigMapsFails && LabelledConfigMaps(e, s.configMaps) * w.faultyConfigMaps == {}
  }

  /** Jobs may be marked as deleted if they have the lab's label, and only then. */
  predicate OnlyMarked(e: Env, before: map<string, Job>, after: map<string, Job>) {
    && after.Keys == before.Keys
    && forall name | name in before ::
         after[name] == before[name]
         || (before[name].labHash == LabLabel(e) && after[name] == before[name].(deleting := true))
  }

  /** ConfigMaps may be gone if they have the lab's label, and only then. */
  predicate OnlyTaken(e: Env, before: map<string, ConfigMap>, after: map<string, ConfigMap>) {
    && (forall name | name in after :: name in before && after[name] == before[name])
    && forall name | name in before && name !in after :: before[name].labHash == LabLabel(e)
  }

  lemma {:induction false} JobsMarked(e: Env, jobs: map<string, Job>, names: seq<string>, faulty: set<string>)
    requires forall name | name in names :: name in LabelledJobs(e, jobs)
    ensures var c := DeleteJobs(jobs, names, faulty);
            && OnlyMarked(e, jobs, c.objects)
            && (c.failed <==> exists name :: name in names && name in faulty)
            && (!c.failed ==> forall name | name in names :: name in c.objects && c.objects[name].deleting)
  {
    hide LabLabel;
    if names != [] {
      var front, last := names[..|names| - 1], names[|names| - 1];
      assert names == front + [last] && last in names && forall name | name in front :: name in names;
      JobsMarked(e, jobs, front, faulty);
    }
  }

  lemma {:induction false} ConfigMapsTaken(e: Env, configMaps: map<string, ConfigMap>, names: seq<string>,
          faulty: set<string>)
    requires forall name | name in names :: name in LabelledConfigMaps(e, configMaps)
    ensures var c := DeleteConfigMaps(configMaps, names, faulty);
            && OnlyTaken(e, configMaps, c.objects)
            && (c.failed <==> exists name :: name in names && name in faulty)
            && (!c.failed ==> forall name | name in names :: name !in c.objects)
  {
    hide LabLabel;
    if names != [] {
      var front, last := names[..|names| - 1], names[|names| - 1];
      assert names == front + [last] && last in names && forall name | name in front :: name in names;
      ConfigMapsTaken(e, configMaps, front, faulty);
    }
  }

  lemma Apart(a: set<string>, b: set<string>)
    ensures a * b == {} <==> !exists name :: name in a && name in b
  {
    assert forall name :: name in a * b <==> name in a && name in b;
  }

  lemma CleanJobsExactly(e: Env, w: World, jobs: map<string, Job>)
    ensures var c := CleanJobs(e, w, jobs);
            && OnlyMarked(e, jobs, c.objects)
            && (c.failed <==> w.listJobsFails || LabelledJobs(e, jobs) * w.faultyJobs != {})
            && (!c.failed ==> forall name | name in LabelledJobs(e, jobs) :: c.objects[name].deleting)
  {
    hide DeleteJobs, SortedSet, LabelledJobs;
    var names := LabelledJobs(e, jobs);
    SortedSetMembers(names, Text.StringLe);
    JobsMarked(e, jobs, SortedSet(names, Text.StringLe), w.faultyJobs);
    Apart(names, w.faultyJobs);
  }

  lemma CleanConfigMapsExactly(e: Env, w: World, configMaps: map<string, ConfigMap>)
    ensures var c := CleanConfigMaps(e, w, configMaps);
            && OnlyTaken(e, configMaps, c.objects)
            && (c.failed <==> w.listConfigMapsFails || LabelledConfigMaps(e, configMaps) * w.faultyConfigMaps != {})
            && (!c.failed ==> LabelledConfigMaps(e, c.objects) == {})
  {
    hide DeleteConfigMaps, SortedSet, LabLabel;
    var names := LabelledConfigMaps(e, configMaps);
    SortedSetMembers(names, Text.StringLe);
    ConfigMapsTaken(e, configMaps, SortedSet(names, Text.StringLe), w.faultyConfigMaps);
    Apart(names, w.faultyConfigMaps);
  }

  /** The finalizer is taken from the list of the lab; a lab that has no other one goes with it. */
  predicate OnlyFinalizerTaken(lab: Lab, left: Option<Lab>) {
    var others := Finalizers.Without(lab.finalizers, FINALIZER);
    && (left.None? <==> forall f | f in lab.finalizers :: f == FINALIZER)
    && (left.Some? ==> left.value == lab.(finalizers := others))
  }

  lemma TakenExactly(lab: Lab)
    requires lab.deleting
    ensures OnlyFinalizerTaken(lab, Stored(lab.(finalizers := Finalizers.Without(lab.finalizers, FINALIZER))))
  {
    var others := Finalizers.Without(lab.finalizers, FINALIZER);
    Finalizers.WithoutKeeps(lab.finalizers, FINALIZER);
    forall f | f in lab.finalizers && f != FINALIZER ensures others != [] {
      assert multiset(others)[f] == multiset(lab.finalizers)[f] > 0;
    }
    if others != [] {
      var f := others[0];
      assert multiset(others)[f] > 0;
      assert f != FINALIZER && f in lab.finalizers;
    }
  }

  /** Nothing without the lab's label is touched; ConfigMaps go only after all jobs; the finalizer goes, and only it,
      exactly if no call fails; and then every job with the label is marked and no ConfigMap with it is left. */
  lemma CleanupExactly(e: Env, w: World, s: State)
    requires s.lab.Some? && s.lab.value.deleting && FINALIZER in s.lab.value.finalizers
    ensures var t := Reconciled(e, w, s);
            && OnlyMarked(e, s.store.jobs, t.store.jobs) && t.store == s.store.(jobs := t.store.jobs)
            && OnlyTaken(e, s.configMaps, t.configMaps)
            && (t.configMaps != s.configMaps ==>
                  forall name | name in LabelledJobs(e, s.store.jobs) :: t.store.jobs[name].deleting)
            && (!CleansUp(e, w, s) || w.updateFails ==> t.lab == s.lab)
            && (CleansUp(e, w, s) && !w.updateFails ==> OnlyFinalizerTaken(s.lab.value, t.lab))
            && (CleansUp(e, w, s) ==>
                  && (forall name | name in LabelledJobs(e, s.store.jobs) :: t.store.jobs[name].deleting)
                  && LabelledConfigMaps(e, t.configMaps) == {})
  {
    hide CleanJobs, CleanConfigMaps, LabLabel, Finalizers.Without, OnlyMarked, OnlyTaken, LabelledJobs,
         LabelledConfigMaps, OnlyFinalizerTaken, Stored;
    CleanJobsExactly(e, w, s.store.jobs);
    CleanConfigMapsExactly(e, w, s.configMaps);
    TakenExactly(s.lab.value);
    assert OnlyTaken(e, s.configMaps, s.configMaps) by { NothingTaken(e, s.configMaps); }
  }

  lemma NothingTaken(e: Env, configMaps: map<string, ConfigMap>)
    ensures OnlyTaken(e, configMaps, configMaps)
  {
  }
}
