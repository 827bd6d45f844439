/** A probe run can always be completed: from any state in which nothing has gone wrong there is a run to Succeeded. */
module ProbeCompletion {
  import Sorting
  import Sequences
  import opened ProbeTypes
  import opened ProbeBinary
  import opened ProbeChecks
  import opened ProbeJobs
  import opened JobLaws
  import opened ProbeController
  import opened ProbeRuns
  import opened ProbeSafety
  import opened ProbeConvergence

  predicate AllSuccesses(reading: Reading) {
    forall r | r in reading.report.results :: r.success
  }

  /** Nothing has gone wrong for the node: its current job has not failed, and if it has finished, its report can be
      read and has only successes. */
  predicate Fine(e: Env, p: ProbeJobs.Pass, jobs: map<string, Job>, node: string) {
    && !Fails(e, p, jobs, node)
    && (Done(e, p, jobs, node) ==> AllSuccesses(ReadReport(p.pods, JobName(e, node), jobs[JobName(e, node)].uid).value))
  }

  function PassOf(g: Goal, pods: seq<ProbePod>): ProbeJobs.Pass {
    ProbeJobs.Pass(g.generation, g.spec.traffic, g.checks, pods, {})
  }

  ghost predicate Promising(e: Env, g: Goal, s: State) {
    forall i | 0 <= i < |NodesOf(g.checks)| :: Fine(e, PassOf(g, s.pods), s.store.jobs, NodesOf(g.checks)[i])
  }

  /** A pass in which nothing fails at all. */
  ghost predicate Faultless(e: Env, g: Goal, w: World) {
    Fair(e, g, w) && w.snapshots.Some? && w.faultyConfigMaps == {}
  }

  lemma PromisingHealthy(e: Env, g: Goal, s: State)
    requires Promising(e, g, s)
    ensures Healthy(e, g, s)
  {
    hide NodesOf, Fails, Done, ReadReport;
    forall i | 0 <= i < |NodesOf(g.checks)| ensures !Fails(e, PassOf(g, s.pods), s.store.jobs, NodesOf(g.checks)[i]) {
      assert Fine(e, PassOf(g, s.pods), s.store.jobs, NodesOf(g.checks)[i]);
    }
  }

  // ----- one move -----

  lemma FineUntouched(e: Env, p: ProbeJobs.Pass, a: map<string, Job>, b: map<string, Job>, node: string)
    requires SameJob(a, b, JobName(e, node)) && Fine(e, p, a, node)
    ensures Fine(e, p, b, node)
  {
    hide JobName, ReadReport, Current, AllSuccesses;
  }

  lemma FineHandled(e: Env, p: ProbeJobs.Pass, before: Store, after: Store, node: string)
    requires Handled(e, p, before, after, node) && Fine(e, p, before.jobs, node) && p.faulty == {}
    ensures Fine(e, p, after.jobs, node)
  {
    hide JobName, ReadReport, GroupOf, ChecksHash, AllSuccesses;
  }

  /** A change of one job leaves the other nodes as they are. */
  lemma OthersFine(e: Env, g: Goal, s: State, t: State, i: nat)
    requires Collisionless(e) && OnNodes(e, g.checks) && Promising(e, g, s) && i < |NodesOf(g.checks)|
             && t.pods == s.pods
    requires forall name | name != JobName(e, NodesOf(g.checks)[i]) :: SameJob(s.store.jobs, t.store.jobs, name)
    requires Fine(e, PassOf(g, t.pods), t.store.jobs, NodesOf(g.checks)[i])
    ensures Promising(e, g, t)
  {
    hide NodesOf, Fine, JobName, SameJob;
    var nodes := NodesOf(g.checks);
    NodeNamesDiffer(e, g.checks);
    forall j | 0 <= j < |nodes| ensures Fine(e, PassOf(g, t.pods), t.store.jobs, nodes[j]) {
      if j != i {
        assert JobName(e, nodes[j]) != JobName(e, nodes[i]);
        FineUntouched(e, PassOf(g, s.pods), s.store.jobs, t.store.jobs, nodes[j]);
      }
    }
  }

  lemma PassKeepsPromise(e: Env, g: Goal, w: World, s: State)
    requires Collisionless(e) && Inv(e, s) && Steady(e, g, s) && Promising(e, g, s) && Faultless(e, g, w)
    ensures Promising(e, g, Reconciled(e, w, s))
  {
    hide NodesOf, Inv, Fine, PassOver, BuiltChecks, Complete, Legible, Handled, Located;
    var nodes, t := NodesOf(g.checks), Reconciled(e, w, s);
    InvBelow(e, s);
    SteadyPods(e, g, w, s);
    StoreAfterPass(e, g, w, s);
    forall i | 0 <= i < |nodes| ensures Fine(e, PassOf(g, t.pods), t.store.jobs, nodes[i]) {
      if t.store == s.store {
        assert Fine(e, PassOf(g, s.pods), s.store.jobs, nodes[i]);
      } else {
        PassEffect(e, PassOf(g, s.pods), s.store, i);
        if Handled(e, PassOf(g, s.pods), s.store, t.store, nodes[i]) {
          FineHandled(e, PassOf(g, s.pods), s.store, t.store, nodes[i]);
        } else {
          FineUntouched(e, PassOf(g, s.pods), s.store.jobs, t.store.jobs, nodes[i]);
        }
      }
    }
  }

  lemma SteadyPods(e: Env, g: Goal, w: World, s: State)
    requires Steady(e, g, s)
    ensures Reconciled(e, w, s).pods == s.pods
  {
    hide RunOf;
  }

  const ANSWERS: Network := (c: Check, n: nat) => Attempt.Ok(0.0)

  /** The pod of a job whose every attempt got through. */
  function GoodPod(name: string, job: Job): ProbePod {
    ProbePod("", "", name, [OwnerRef("Job", job.uid)], "",
             [ContainerStatus("probe",
                              Some(Readable(ReportOf(job.sourceNode, job.payload, job.budget.count, ANSWERS))))])
  }

  lemma GoodPodReads(name: string, job: Job, pods: seq<ProbePod>)
    ensures var reading := ReadReport([GoodPod(name, job)] + pods, name, job.uid);
            reading.Some? && AllSuccesses(reading.value)
  {
    var pod, all := GoodPod(name, job), [GoodPod(name, job)] + pods;
    assert all[0] == pod && pod.owners[0] == OwnerRef("Job", job.uid);
    var raw := ReportOf(job.sourceNode, job.payload, job.budget.count, ANSWERS);
    assert ReadReport(all, name, job.uid) == Some(Reading(job.uid, pod, Stamped(raw, pod)));
    forall r | r in Stamped(raw, pod).results ensures r.success {
      var k :| 0 <= k < |raw.results| && Stamped(raw, pod).results[k] == r;
      SuccessExactly(job.sourceNode, job.payload, job.budget.count, ANSWERS, k);
      assert GetsThrough(job.payload[k], if job.budget.count <= 0 then 1 else job.budget.count, ANSWERS);
    }
  }

  lemma OtherReads(pod: ProbePod, pods: seq<ProbePod>, name: string, uid: nat)
    requires pod.jobName != name
    ensures ReadReport([pod] + pods, name, uid) == ReadReport(pods, name, uid)
  {
    assert ([pod] + pods)[1..] == pods;
  }

  lemma GoodPodHonest(e: Env, s: State, node: string)
    requires Records(e, s.store) && PodsHonest(s.pods, s.store) && node in e.nodes && JobName(e, node) in s.store.jobs
    ensures PodsHonest([GoodPod(JobName(e, node), s.store.jobs[JobName(e, node)])] + s.pods, s.store)
  {
    hide JobName, Sane, ReportOf;
    var job := s.store.jobs[JobName(e, node)];
    assert Recorded(s.store, JobName(e, node), node);
    var pod := GoodPod(JobName(e, node), job);
    forall p, uid | p in [pod] + s.pods && OwnedByJob(p, uid) ensures HonestPod(p, uid, s.store) {
      if p == pod {
        assert uid == job.uid;
        assert Reported(ReportOf(job.sourceNode, job.payload, job.budget.count, ANSWERS), job.sourceNode, job.payload,
                        job.budget.count);
        assert ProbeMessage(pod.statuses) == pod.statuses[0].terminated;
      }
    }
  }

  // ----- moves and runs -----

  lemma FineOtherPods(e: Env, p: ProbeJobs.Pass, q: ProbeJobs.Pass, jobs: map<string, Job>, node: string)
    requires p == q.(pods := p.pods) && Fine(e, p, jobs, node)
    requires Done(e, p, jobs, node) ==>
               ReadReport(p.pods, JobName(e, node), jobs[JobName(e, node)].uid)
               == ReadReport(q.pods, JobName(e, node), jobs[JobName(e, node)].uid)
    ensures Fine(e, q, jobs, node)
  {
    hide JobName, ReadReport, GroupOf, ChecksHash, AllSuccesses;
  }

  lemma PodAdded(e: Env, g: Goal, s: State, i: nat)
    requires Collisionless(e) && OnNodes(e, g.checks) && Promising(e, g, s) && i < |NodesOf(g.checks)|
    requires JobName(e, NodesOf(g.checks)[i]) in s.store.jobs
             && !Done(e, GoalPass(g), s.store.jobs, NodesOf(g.checks)[i])
    ensures var name := JobName(e, NodesOf(g.checks)[i]);
            Promising(e, g, s.(pods := [GoodPod(name, s.store.jobs[name])] + s.pods))
  {
    hide NodesOf, Fine, JobName, GoodPod, ReadReport, Done;
    var nodes := NodesOf(g.checks);
    var name := JobName(e, nodes[i]);
    var pod := GoodPod(name, s.store.jobs[name]);
    NodeNamesDiffer(e, g.checks);
    assert pod.jobName == name by { GoodPodName(name, s.store.jobs[name]); }
    forall j | 0 <= j < |nodes| ensures Fine(e, PassOf(g, [pod] + s.pods), s.store.jobs, nodes[j]) {
      if j == i {
        DoneIgnores(e, GoalPass(g), PassOf(g, s.pods), s.store.jobs, nodes[i]);
      } else {
        assert JobName(e, nodes[j]) != name;
        if JobName(e, nodes[j]) in s.store.jobs {
          OtherReads(pod, s.pods, JobName(e, nodes[j]), s.store.jobs[JobName(e, nodes[j])].uid);
        } else {
          AbsentNotDone(e, PassOf(g, s.pods), s.store.jobs, nodes[j]);
        }
      }
      FineOtherPods(e, PassOf(g, s.pods), PassOf(g, [pod] + s.pods), s.store.jobs, nodes[j]);
    }
  }

  lemma GoodPodName(name: string, job: Job)
    ensures GoodPod(name, job).jobName == name
  {
  }

  lemma AbsentNotDone(e: Env, p: ProbeJobs.Pass, jobs: map<string, Job>, node: string)
    requires JobName(e, node) !in jobs
    ensures !Done(e, p, jobs, node)
  {
  }

  lemma DoneIgnores(e: Env, p: ProbeJobs.Pass, q: ProbeJobs.Pass, jobs: map<string, Job>, node: string)
    requires p.generation == q.generation && p.checks == q.checks
    ensures Done(e, p, jobs, node) <==> Done(e, q, jobs, node)
    ensures Live(e, p, jobs, node) <==> Live(e, q, jobs, node)
  {
    hide JobName, GroupOf, ChecksHash;
  }

  /** A run of quiet steps from `s` that comes closer to the end and keeps the promise. */
  ghost predicate Advances(e: Env, g: Goal, s: State, states: seq<State>, steps: seq<Step>) {
    && QuietRun(e, g, states, steps) && states[0] == s
    && Promising(e, g, states[|steps|]) && Distance(e, g, states[|steps|]) < Distance(e, g, s)
  }

  lemma QuietCons(e: Env, g: Goal, s: State, step: Step, states: seq<State>, steps: seq<Step>)
    requires Inv(e, s) && Steady(e, g, s) && QuietRun(e, g, states, steps)
    requires Next(e, s, step, states[0]) && Quiet(e, g, s, step)
    ensures QuietRun(e, g, [s] + states, [step] + steps)
  {
    hide Next, Quiet, Inv, Steady;
    var a, b := [s] + states, [step] + steps;
    forall i | 0 <= i < |b| ensures Next(e, a[i], b[i], a[i + 1]) && Quiet(e, g, a[i], b[i]) {
      if i > 0 {
        assert a[i] == states[i - 1] && b[i] == steps[i - 1] && a[i + 1] == states[i];
      }
    }
  }

  lemma OneStep(e: Env, g: Goal, s: State, step: Step, t: State)
    requires Collisionless(e) && Inv(e, s) && Steady(e, g, s) && Next(e, s, step, t) && Quiet(e, g, s, step)
    requires Productive(e, g, s, step, t) && Promising(e, g, t)
    ensures Advances(e, g, s, [s, t], [step])
  {
    hide Next, Quiet, Inv, Steady, Productive, Promising, Distance;
    DistanceFalls(e, g, s, step, t);
  }

  lemma DeletionMove(e: Env, g: Goal, s: State, i: nat) returns (states: seq<State>, steps: seq<Step>)
    requires Collisionless(e) && Inv(e, s) && Steady(e, g, s) && Promising(e, g, s) && i < |NodesOf(g.checks)|
    requires var name := JobName(e, NodesOf(g.checks)[i]); name in s.store.jobs && s.store.jobs[name].deleting
    ensures Advances(e, g, s, states, steps)
  {
    hide NodesOf, Inv, Promising, Fine, JobName, Reconciled, Foreign, PodsHonest, Distance, QuietRun;
    var node := NodesOf(g.checks)[i];
    var name := JobName(e, node);
    var t := s.(store := s.store.(jobs := s.store.jobs - {name}));
    assert ActsOn(e, g, s, DeletionTakesEffect(name), t, node);
    AbsentFine(e, PassOf(g, t.pods), t.store.jobs, node);
    OthersFine(e, g, s, t, i);
    OneStep(e, g, s, DeletionTakesEffect(name), t);
    states, steps := [s, t], [DeletionTakesEffect(name)];
  }

  lemma AbsentFine(e: Env, p: ProbeJobs.Pass, jobs: map<string, Job>, node: string)
    requires JobName(e, node) !in jobs && p.faulty == {}
    ensures Fine(e, p, jobs, node)
  {
  }

  lemma PassMove(e: Env, g: Goal, w: World, s: State, i: nat) returns (states: seq<State>, steps: seq<Step>)
    requires Collisionless(e) && Inv(e, s) && Steady(e, g, s) && Promising(e, g, s) && Faultless(e, g, w)
        && i < |NodesOf(g.checks)|
    requires var node := NodesOf(g.checks)[i];
             Absent(e, s.store.jobs, node) || Stale(e, GoalPass(g), s.store.jobs, node)
    ensures Advances(e, g, s, states, steps)
  {
    hide NodesOf, Inv, Promising, JobName, Reconciled, Foreign, PodsHonest, Distance, Absent, Stale, SameJob,
            BuiltChecks, Healthy, QuietRun, Steady;
    var t := Reconciled(e, w, s);
    PromisingHealthy(e, g, s);
    PassMoves(e, g, w, s, i);
    assert ActsOn(e, g, s, ControllerPass(w), t, NodesOf(g.checks)[i]);
    PassKeepsPromise(e, g, w, s);
    OneStep(e, g, s, ControllerPass(w), t);
    states, steps := [s, t], [ControllerPass(w)];
  }

  lemma FinishedFine(e: Env, g: Goal, pods: seq<ProbePod>, jobs: map<string, Job>, node: string)
    requires Live(e, GoalPass(g), jobs, node)
    requires var reading := ReadReport(pods, JobName(e, node), jobs[JobName(e, node)].uid);
             reading.Some? && AllSuccesses(reading.value)
    ensures Fine(e, PassOf(g, pods), jobs[JobName(e, node) := jobs[JobName(e, node)].(succeeded := 1, failed := 0)],
                 node)
  {
    hide JobName, ReadReport, GroupOf, ChecksHash, AllSuccesses;
  }

  /** The pod reports, then the job finishes. */
  lemma FinishMove(e: Env, g: Goal, s: State, i: nat) returns (states: seq<State>, steps: seq<Step>)
    requires Collisionless(e) && Inv(e, s) && Steady(e, g, s) && Promising(e, g, s) && i < |NodesOf(g.checks)|
    requires Live(e, GoalPass(g), s.store.jobs, NodesOf(g.checks)[i])
        && !Done(e, GoalPass(g), s.store.jobs, NodesOf(g.checks)[i])
    ensures Advances(e, g, s, states, steps)
  {
    hide NodesOf, Records, Tracked, StatusSound, Promising, Fine, JobName, Reconciled, Foreign, PodsHonest, Distance,
            GoodPod, ReadReport, AllSuccesses, Current, QuietRun;
    var node := NodesOf(g.checks)[i];
    NodeNamesDiffer(e, g.checks);
    var name := JobName(e, node);
    var pod := GoodPod(name, s.store.jobs[name]);
    var m := s.(pods := [pod] + s.pods);
    GoodPodHonest(e, s, node);
    PodAdded(e, g, s, i);
    StepKeeps(e, s, PodsChange([pod] + s.pods), m);
    DistanceFalls(e, g, s, PodsChange([pod] + s.pods), m);
    var t := m.(store := m.store.(jobs := m.store.jobs[name := m.store.jobs[name].(succeeded := 1, failed := 0)]));
    GoodPodReads(name, s.store.jobs[name], s.pods);
    FinishedFine(e, g, m.pods, m.store.jobs, node);
    OthersFine(e, g, m, t, i);
    assert ActsOn(e, g, m, JobReports(name, 1, 0), t, node);
    OneStep(e, g, m, JobReports(name, 1, 0), t);
    QuietCons(e, g, s, PodsChange([pod] + s.pods), [m, t], [JobReports(name, 1, 0)]);
    states, steps := [s] + [m, t], [PodsChange([pod] + s.pods)] + [JobReports(name, 1, 0)];
  }

  /** Away from the end there is always a way to come closer without anything going wrong. */
  lemma CanAdvance(e: Env, g: Goal, w: World, s: State) returns (states: seq<State>, steps: seq<Step>)
    requires Collisionless(e) && Inv(e, s) && Steady(e, g, s) && Promising(e, g, s) && Faultless(e, g, w)
        && Distance(e, g, s) > 0
    ensures Advances(e, g, s, states, steps)
  {
    hide NodesOf, Inv, Promising, Steady, Faultless, Measure, JobName, Done, Absent, Stale, Live, Advances;
    var nodes := NodesOf(g.checks);
    MeasureZero(e, g, s.store.jobs, nodes);
    var i :| 0 <= i < |nodes| && !Done(e, GoalPass(g), s.store.jobs, nodes[i]);
    Situations(e, GoalPass(g), s.store.jobs, nodes[i]);
    if JobName(e, nodes[i]) in s.store.jobs && s.store.jobs[JobName(e, nodes[i])].deleting {
      states, steps := DeletionMove(e, g, s, i);
    } else if Live(e, GoalPass(g), s.store.jobs, nodes[i]) {
      states, steps := FinishMove(e, g, s, i);
    } else {
      states, steps := PassMove(e, g, w, s, i);
    }
  }

  lemma QuietConcat(e: Env, g: Goal, a: seq<State>, b: seq<Step>, c: seq<State>, d: seq<Step>)
    requires QuietRun(e, g, a, b) && QuietRun(e, g, c, d) && a[|b|] == c[0]
    ensures QuietRun(e, g, a + c[1..], b + d)
  {
    hide Next, Quiet, Inv, Steady;
    var states, steps := a + c[1..], b + d;
    forall i | 0 <= i < |steps|
      ensures Next(e, states[i], steps[i], states[i + 1]) && Quiet(e, g, states[i], steps[i])
    {
      if i < |b| {
        assert states[i] == a[i] && steps[i] == b[i] && states[i + 1] == a[i + 1];
      } else {
        var k := i - |b|;
        assert states[i] == c[k] && steps[i] == d[k] && states[i + 1] == c[k + 1];
      }
    }
  }

  // ----- the last pass -----

  lemma {:induction false} CountAll(results: seq<StatusResult>)
    requires forall r | r in results :: r.success
    ensures Successes(results) == |results|
  {
    if results != [] {
      var front := results[..|results| - 1];
      assert results == front + [results[|results| - 1]];
      CountAll(front);
    }
  }

  lemma ResultsSucceed(e: Env, w: World, readings: seq<Reading>)
    requires forall reading | reading in readings :: AllSuccesses(reading)
    ensures Successes(ResultsOf(e, w, readings)) == |ResultsOf(e, w, readings)|
  {
    hide Sequences.Bind, StatusOf;
    var items := Sequences.Bind(readings, Items());
    forall r | r in ResultsOf(e, w, readings) ensures r.success {
      Sequences.BindMember(items, AsStatus(e, w), r);
      var item :| item in items && r in AsStatus(e, w)(item);
      Sequences.BindMember(readings, Items(), item);
      StatusSuccess(e, w, item);
    }
    CountAll(ResultsOf(e, w, readings));
  }

  lemma StatusSuccess(e: Env, w: World, item: Result)
    ensures StatusOf(e, w, item).success == item.success
  {
    hide JobName;
  }

  lemma {:induction false} WritesSucceed(e: Env, w: World, configMaps: map<string, ConfigMap>, nodes: seq<string>)
    requires w.faultyConfigMaps == {}
    ensures !WriteSnapshots(e, w, configMaps, nodes).failed
  {
    if nodes != [] {
      WritesSucceed(e, w, configMaps, nodes[..|nodes| - 1]);
    }
  }

  lemma CompleteSucceeds(e: Env, lab: Lab, w: World, store: Store, configMaps: map<string, ConfigMap>,
          checks: seq<Check>, readings: seq<Reading>)
    requires w.snapshots.Some? && w.faultyConfigMaps == {}
        && forall reading | reading in readings :: AllSuccesses(reading)
    ensures var o := Complete(e, lab.spec, w, store, configMaps, checks, readings);
            var st := StatusAfter(lab.generation, o.run, o.failed);
            st.phase == Succeeded && st.observedGeneration == lab.generation
  {
    hide WriteSnapshots, ResultsOf, Sorting.Sort, SnapshotName, Put, AllSuccesses;
    WritesSucceed(e, w, configMaps, w.snapshots.value);
    ResultsSucceed(e, w, readings);
  }

  lemma ReadingsFine(e: Env, g: Goal, s: State)
    requires Collisionless(e) && OnNodes(e, g.checks) && UidsBelow(s.store) && Promising(e, g, s)
        && Distance(e, g, s) == 0
    ensures var after := PassOver(e, PassOf(g, s.pods), s.store);
            !after.failed && !after.pending && forall reading | reading in after.readings :: AllSuccesses(reading)
  {
    hide NodesOf, OthersUntouched, Handled, Visits, Waiting, Sorting.Sort, Fails, Measure, JobName, ReadReport,
         AllSuccesses, Done, Healthy;
    var nodes, p := NodesOf(g.checks), PassOf(g, s.pods);
    PromisingHealthy(e, g, s);
    HealthyPass(e, g, s);
    NodeNamesDiffer(e, g.checks);
    var visits := Visits(e, p, s.store, nodes);
    OnePassDoes(e, p, s.store, nodes);
    forall reading | reading in visits.readings ensures AllSuccesses(reading) {
      var i :| 0 <= i < |visits.readings| && visits.readings[i] == reading;
      assert ReadFrom(e, p, s.store.jobs, nodes[i], reading) && Fine(e, p, s.store.jobs, nodes[i]);
    }
    Sorting.SortContents(visits.readings, ReportLe);
    Sorting.SameMembers(visits.readings, Sorting.Sort(visits.readings, ReportLe));
  }

  /** The status is Succeeded, at the generation of the lab. */
  predicate Finished(g: Goal, s: State) {
    s.lab.Some? && s.lab.value.status.phase == Succeeded && s.lab.value.status.observedGeneration == g.generation
  }

  lemma LastPass(e: Env, g: Goal, w: World, s: State)
    requires Collisionless(e) && Inv(e, s) && Steady(e, g, s) && Promising(e, g, s) && Faultless(e, g, w)
        && Distance(e, g, s) == 0
    ensures Finished(g, Reconciled(e, w, s))
  {
    hide PassOver, BuiltChecks, Complete, Promising, Distance, Inv, Legible, Located, StatusAfter, AllSuccesses,
         OnNodes;
    InvBelow(e, s);
    ReadingsFine(e, g, s);
    var after := PassOver(e, PassOf(g, s.pods), s.store);
    CompleteSucceeds(e, s.lab.value, w, after.store, s.configMaps, g.checks, after.readings);
  }

  /** A quiet run from `s` whose last state is Succeeded. */
  ghost predicate Arrives(e: Env, g: Goal, s: State, states: seq<State>, steps: seq<Step>) {
    && QuietRun(e, g, states, steps) && states[0] == s
    && Finished(g, states[|steps|])
  }

  lemma LastRun(e: Env, g: Goal, w: World, s: State)
    requires Collisionless(e) && Inv(e, s) && Steady(e, g, s) && Promising(e, g, s) && Faultless(e, g, w)
        && Distance(e, g, s) == 0
    ensures Arrives(e, g, s, [s, Reconciled(e, w, s)], [ControllerPass(w)])
  {
    hide Next, Quiet, Inv, Steady, Promising, Distance, Reconciled, Faultless;
    LastPass(e, g, w, s);
    FaultlessStep(e, g, w, s);
  }

  lemma ArrivesLater(e: Env, g: Goal, s: State, a: seq<State>, b: seq<Step>, c: seq<State>, d: seq<Step>)
    requires QuietRun(e, g, a, b) && a[0] == s && c != [] && Arrives(e, g, a[|b|], c, d)
    ensures Arrives(e, g, s, a + c[1..], b + d)
  {
    hide Next, Quiet, Inv, Steady;
    QuietConcat(e, g, a, b, c, d);
  }

  /** From every state in which nothing has gone wrong, a quiet run leads to Succeeded. */
  lemma {:induction false} CanSucceed(e: Env, g: Goal, w: World, s: State)
          returns (states: seq<State>, steps: seq<Step>)
    requires Collisionless(e) && Inv(e, s) && Steady(e, g, s) && Promising(e, g, s) && Faultless(e, g, w)
    ensures states != [] && Arrives(e, g, s, states, steps)
    decreases Distance(e, g, s)
  {
    hide Collisionless, Inv, Steady, Promising, Faultless, Distance, Reconciled, Arrives, Next, Quiet;
    if Distance(e, g, s) == 0 {
      states, steps := [s, Reconciled(e, w, s)], [ControllerPass(w)];
      LastRun(e, g, w, s);
    } else {
      var a, b := CanAdvance(e, g, w, s);
      QuietInv(e, g, a, b);
      var c, d := CanSucceed(e, g, w, a[|b|]);
      ArrivesLater(e, g, s, a, b, c, d);
      states, steps := a + c[1..], b + d;
    }
  }

  lemma FaultlessStep(e: Env, g: Goal, w: World, s: State)
    requires Faultless(e, g, w)
    ensures Next(e, s, ControllerPass(w), Reconciled(e, w, s)) && Quiet(e, g, s, ControllerPass(w))
  {
    hide Reconciled, BuiltChecks, Legible, Located;
  }

  // ----- from the beginning -----

  /** A cluster that does its part for a lab: something to check, and no call fails. */
  ghost predicate Serves(e: Env, lab: Lab, w: World) {
    && Legible(w) && Located(e, w) && w.targets.Some? && w.services.Some? && w.targets.value != []
    && BuiltChecks(lab.spec.traffic, w.targets.value, w.services.value, e.id) != []
    && w.snapshots.Some? && w.faultyJobs == {} && w.faultyConfigMaps == {} && !w.updateFails && !w.statusFails
  }

  ghost function GoalOf(e: Env, lab: Lab, w: World): Goal
    requires w.targets.Some? && w.services.Some?
  {
    Goal(lab.generation, lab.spec, BuiltChecks(lab.spec.traffic, w.targets.value, w.services.value, e.id))
  }

  lemma ServesFaultless(e: Env, lab: Lab, w: World)
    requires Serves(e, lab, w)
    ensures Faultless(e, GoalOf(e, lab, w), w) && OnNodes(e, GoalOf(e, lab, w).checks)
  {
    hide BuiltChecks, Legible, OnNodes;
    BuiltOnNodes(e, lab.spec.traffic, w.targets.value, w.services.value);
  }

  /** Without jobs nothing has gone wrong. */
  lemma NoJobsPromising(e: Env, g: Goal, s: State)
    requires OnNodes(e, g.checks) && forall node | node in e.nodes :: JobName(e, node) !in s.store.jobs
    ensures Promising(e, g, s)
  {
    hide NodesOf, JobName, Fine;
    var nodes := NodesOf(g.checks);
    NodesOfMembers(g.checks);
    forall i | 0 <= i < |nodes| ensures Fine(e, PassOf(g, s.pods), s.store.jobs, nodes[i]) {
      assert nodes[i] in nodes;
      AbsentFine(e, PassOf(g, s.pods), s.store.jobs, nodes[i]);
    }
  }

  /** The lab is created, and gets its finalizer unless it has it. */
  lemma Beginning(e: Env, lab: Lab, w: World, s: State) returns (states: seq<State>, steps: seq<Step>)
    requires Initial(e, s) && !lab.deleting && lab.status == FRESH && Serves(e, lab, w)
    ensures IsRun(e, states, steps) && states[0] == s
    ensures var t := states[|steps|]; Steady(e, GoalOf(e, lab, w), t) && Promising(e, GoalOf(e, lab, w), t)
  {
    hide BuiltChecks, Legible, OnNodes, Promising, Probed, Foreign, PodsHonest, JobName, LabelledLive, Labelled;
    var created := s.(lab := Some(lab), basis := NO_BASIS);
    assert Next(e, s, CreateLab(lab), created);
    ServesFaultless(e, lab, w);
    if FINALIZER in lab.finalizers {
      states, steps := [s, created], [CreateLab(lab)];
    } else {
      var held := Reconciled(e, w, created);
      assert Next(e, created, ControllerPass(w), held);
      states, steps := [s, created, held], [CreateLab(lab), ControllerPass(w)];
    }
    NoJobsPromising(e, GoalOf(e, lab, w), states[|steps|]);
  }

  lemma RunContinues(e: Env, g: Goal, a: seq<State>, b: seq<Step>, c: seq<State>, d: seq<Step>)
    requires IsRun(e, a, b) && QuietRun(e, g, c, d) && a[|b|] == c[0]
    ensures IsRun(e, a + c[1..], b + d) && (a + c[1..])[0] == a[0] && (a + c[1..])[|b + d|] == c[|d|]
  {
    hide Next, Quiet, Inv, Steady, Initial;
    var states, steps := a + c[1..], b + d;
    forall i | 0 <= i < |steps| ensures Next(e, states[i], steps[i], states[i + 1]) {
      if i < |b| {
        assert states[i] == a[i] && steps[i] == b[i] && states[i + 1] == a[i + 1];
      } else {
        var k := i - |b|;
        assert states[i] == c[k] && steps[i] == d[k] && states[i + 1] == c[k + 1];
      }
    }
  }

  /** From every initial state, for every new lab with something to check, there is a run to Succeeded in which the lab
      keeps its generation and its spec. */
  lemma NewLabSucceeds(e: Env, lab: Lab, w: World, s: State) returns (states: seq<State>, steps: seq<Step>)
    requires Collisionless(e) && Initial(e, s) && !lab.deleting && lab.status == FRESH && Serves(e, lab, w)
    ensures IsRun(e, states, steps) && states[0] == s
    ensures var last := states[|steps|].lab;
            && last.Some? && last.value.generation == lab.generation && last.value.spec == lab.spec
            && last.value.status.phase == Succeeded && last.value.status.observedGeneration == lab.generation
  {
    hide Collisionless, Inv, Promising, Faultless, Initial, Next, Quiet, OnNodes, BuiltChecks, Legible, Located;
    var g := GoalOf(e, lab, w);
    var a, b := Beginning(e, lab, w, s);
    Always(e, a, b, |b|);
    ServesFaultless(e, lab, w);
    var c, d := CanSucceed(e, g, w, a[|b|]);
    QuietInv(e, g, c, d);
    RunContinues(e, g, a, b, c, d);
    states, steps := a + c[1..], b + d;
  }
}
