/** With the lab and its check list fixed, every run of the probe protocol gets to the end: a measure over the jobs
    never increases and drops with every step that does something. */
module ProbeConvergence {
  import Sorting
  import opened ProbeTypes
  import opened ProbeChecks
  import opened ProbeJobs
  import opened JobLaws
  import opened ProbeController
  import ProbeArtifacts
  import opened ProbeRuns
  import opened ProbeSafety

  /** What stays fixed: the generation and the spec of the lab, and the check list. */
  datatype Goal = Goal(generation: int, spec: Spec, checks: seq<Check>)

  function GoalPass(g: Goal): ProbeJobs.Pass {
    ProbeJobs.Pass(g.generation, g.spec.traffic, g.checks, [], {})
  }

  /** How far the job of a node is from its end. */
  function StepsLeft(e: Env, g: Goal, jobs: map<string, Job>, node: string): nat {
    var name := JobName(e, node);
    if name !in jobs then 2
    else if jobs[name].deleting then 3
    else if !Current(e, GoalPass(g), node, jobs[name]) then 4
    else if jobs[name].succeeded > 0 then 0
    else 1
  }

  function Measure(e: Env, g: Goal, jobs: map<string, Job>, nodes: seq<string>): nat {
    if nodes == [] then 0 else Measure(e, g, jobs, nodes[..|nodes| - 1]) + StepsLeft(e, g, jobs, nodes[|nodes| - 1])
  }

  ghost function Distance(e: Env, g: Goal, s: State): nat {
    Measure(e, g, s.store.jobs, NodesOf(g.checks))
  }

  lemma {:induction false} MeasureBound(e: Env, g: Goal, jobs: map<string, Job>, nodes: seq<string>)
    ensures Measure(e, g, jobs, nodes) <= 4 * |nodes|
  {
    hide JobName, Current;
    if nodes != [] {
      MeasureBound(e, g, jobs, nodes[..|nodes| - 1]);
    }
  }

  ghost predicate NoneRises(e: Env, g: Goal, a: map<string, Job>, b: map<string, Job>, nodes: seq<string>) {
    forall i | 0 <= i < |nodes| :: StepsLeft(e, g, b, nodes[i]) <= StepsLeft(e, g, a, nodes[i])
  }

  ghost predicate OneFalls(e: Env, g: Goal, a: map<string, Job>, b: map<string, Job>, nodes: seq<string>) {
    exists i :: 0 <= i < |nodes| && StepsLeft(e, g, b, nodes[i]) < StepsLeft(e, g, a, nodes[i])
  }

  lemma {:induction false} MeasureFalls(e: Env, g: Goal, a: map<string, Job>, b: map<string, Job>, nodes: seq<string>)
    requires NoneRises(e, g, a, b, nodes)
    ensures Measure(e, g, b, nodes) <= Measure(e, g, a, nodes)
    ensures OneFalls(e, g, a, b, nodes) ==> Measure(e, g, b, nodes) < Measure(e, g, a, nodes)
  {
    hide StepsLeft;
    if nodes != [] {
      var last := |nodes| - 1;
      assert forall i | 0 <= i < last :: nodes[..last][i] == nodes[i];
      MeasureFalls(e, g, a, b, nodes[..last]);
      if OneFalls(e, g, a, b, nodes) && StepsLeft(e, g, b, nodes[last]) == StepsLeft(e, g, a, nodes[last]) {
        var i :| 0 <= i < |nodes| && StepsLeft(e, g, b, nodes[i]) < StepsLeft(e, g, a, nodes[i]);
        assert nodes[..last][i] == nodes[i];
        assert OneFalls(e, g, a, b, nodes[..last]);
      }
    }
  }

  lemma {:induction false} MeasureZero(e: Env, g: Goal, jobs: map<string, Job>, nodes: seq<string>)
    ensures Measure(e, g, jobs, nodes) == 0 <==> !Waiting(e, GoalPass(g), jobs, nodes)
  {
    hide JobName, Current;
    if nodes != [] {
      var last := |nodes| - 1;
      assert nodes == nodes[..last] + [nodes[last]];
      MeasureZero(e, g, jobs, nodes[..last]);
      OneMoreWaits(e, GoalPass(g), jobs, nodes[..last], nodes[last]);
    }
  }

  // ----- the steps of a quiet run -----

  ghost predicate Steady(e: Env, g: Goal, s: State) {
    && s.lab.Some? && !s.lab.value.deleting && FINALIZER in s.lab.value.finalizers
    && s.lab.value.generation == g.generation && s.lab.value.spec == g.spec && OnNodes(e, g.checks)
  }

  /** If the targets can be listed, they give the fixed check list. */
  ghost predicate SameChecks(e: Env, g: Goal, w: World) {
    w.targets.Some? && w.services.Some? && w.targets.value != [] ==>
      BuiltChecks(g.spec.traffic, w.targets.value, w.services.value, e.id) == g.checks
  }

  /** Everything but edits of the lab, expiry of jobs and failure of jobs. API calls may fail. */
  ghost predicate Quiet(e: Env, g: Goal, s: State, step: Step) {
    match step
    case ControllerPass(w) => SameChecks(e, g, w)
    case JobReports(name, succeeded, failed) => name in s.store.jobs && failed <= 0
      && (s.store.jobs[name].succeeded > 0 ==> succeeded > 0)
    case DeletionTakesEffect(_) => true
    case PodsChange(_) => true
    case OthersAct => true
    case _ => false
  }

  ghost predicate QuietRun(e: Env, g: Goal, states: seq<State>, steps: seq<Step>) {
    && |states| == |steps| + 1 && Inv(e, states[0]) && Steady(e, g, states[0])
    && forall i | 0 <= i < |steps| :: Next(e, states[i], steps[i], states[i + 1]) && Quiet(e, g, states[i], steps[i])
  }

  /** A step that does something for the job of a node: a pass that creates or deletes one, a deletion that takes
      effect, or a current job that finishes. */
  ghost predicate Productive(e: Env, g: Goal, s: State, step: Step, t: State) {
    exists i :: 0 <= i < |NodesOf(g.checks)| && ActsOn(e, g, s, step, t, NodesOf(g.checks)[i])
  }

  predicate ActsOn(e: Env, g: Goal, s: State, step: Step, t: State, node: string) {
    var name := JobName(e, node);
    match step
    case ControllerPass(_) => !SameJob(s.store.jobs, t.store.jobs, name)
    case JobReports(reported, succeeded, _) =>
      reported == name && succeeded > 0 && Live(e, GoalPass(g), s.store.jobs, node)
        && !Done(e, GoalPass(g), s.store.jobs, node)
    case DeletionTakesEffect(gone) => gone == name
    case _ => false
  }

  // ----- a pass, failing or not -----

  /** Whatever happens in a pass, the job of every node is handled as in a pass without errors, or left alone. */
  lemma PassEffect(e: Env, p: ProbeJobs.Pass, store: Store, i: nat)
    requires Collisionless(e) && OnNodes(e, p.checks) && UidsBelow(store) && i < |NodesOf(p.checks)|
    ensures var node, after := NodesOf(p.checks)[i], PassOver(e, p, store).store;
            Handled(e, p, store, after, node) || SameJob(store.jobs, after.jobs, JobName(e, node))
  {
    hide Handled, OthersUntouched, Visits, NodesOf, Fails, Waiting, JobName, SameJob;
    var nodes := NodesOf(p.checks);
    NodeNamesDiffer(e, p.checks);
    PassFailsExactly(e, p, store, nodes);
    if Visits(e, p, store, nodes).failed {
      var k: nat :| StoppedAt(e, p, store, nodes, k);
      if i < k {
        assert Handled(e, p, store, Visits(e, p, store, nodes[..k]).store, nodes[..k][i]);
      } else {
        LeftAlone(e, nodes, k, i, store, Visits(e, p, store, nodes).store);
      }
    } else {
      OnePassDoes(e, p, store, nodes);
    }
  }

  lemma LeftAlone(e: Env, nodes: seq<string>, k: nat, i: nat, before: Store, after: Store)
    requires k <= i < |nodes| && NamesDiffer(e, nodes) && OthersUntouched(e, nodes[..k], before, after)
    ensures SameJob(before.jobs, after.jobs, JobName(e, nodes[i]))
  {
    hide JobName, SameJob;
    forall j | 0 <= j < k ensures JobName(e, nodes[..k][j]) != JobName(e, nodes[i]) {
      assert JobName(e, nodes[j]) != JobName(e, nodes[i]);
    }
  }

  lemma RankAfter(e: Env, g: Goal, p: ProbeJobs.Pass, before: Store, after: Store, node: string)
    requires p.generation == g.generation && p.checks == g.checks
    requires Handled(e, p, before, after, node) || SameJob(before.jobs, after.jobs, JobName(e, node))
    ensures StepsLeft(e, g, after.jobs, node) <= StepsLeft(e, g, before.jobs, node)
    ensures !SameJob(before.jobs, after.jobs, JobName(e, node)) ==>
              StepsLeft(e, g, after.jobs, node) < StepsLeft(e, g, before.jobs, node)
  {
    hide JobName, GroupOf, ChecksHash;
  }

  /** The job of this generation and these checks is never deleted by a pass. */
  lemma CurrentJobSurvives(e: Env, p: ProbeJobs.Pass, store: Store, i: nat)
    requires Collisionless(e) && OnNodes(e, p.checks) && UidsBelow(store) && i < |NodesOf(p.checks)|
        && Live(e, p, store.jobs, NodesOf(p.checks)[i])
    ensures SameJob(store.jobs, PassOver(e, p, store).store.jobs, JobName(e, NodesOf(p.checks)[i]))
  {
    hide JobName, NodesOf, PassOver, Current;
    PassEffect(e, p, store, i);
  }

  lemma StoreAfterPass(e: Env, g: Goal, w: World, s: State)
    requires Steady(e, g, s) && SameChecks(e, g, w)
    ensures var after := Reconciled(e, w, s).store;
            || after == s.store
            || after == PassOver(e, ProbeJobs.Pass(g.generation, g.spec.traffic, g.checks, s.pods, w.faultyJobs),
                                 s.store).store
    ensures Steady(e, g, Reconciled(e, w, s))
  {
    hide PassOver, BuiltChecks, WriteSnapshots, WriteReports, Filled, StatusAfter;
  }

  lemma SteadyNodes(e: Env, g: Goal, s: State)
    requires Steady(e, g, s)
    ensures OnNodes(e, g.checks)
  {
  }

  // ----- no step goes back -----

  lemma PassFalls(e: Env, g: Goal, w: World, s: State)
    requires Collisionless(e) && UidsBelow(s.store) && Steady(e, g, s) && SameChecks(e, g, w)
    ensures var t := Reconciled(e, w, s);
            && NoneRises(e, g, s.store.jobs, t.store.jobs, NodesOf(g.checks))
            && (Productive(e, g, s, ControllerPass(w), t) ==>
                OneFalls(e, g, s.store.jobs, t.store.jobs, NodesOf(g.checks)))
  {
    hide Reconciled, PassOver, NodesOf, Handled, StepsLeft, UidsBelow, Steady, SameChecks, JobName, SameJob;
    var nodes, t := NodesOf(g.checks), Reconciled(e, w, s);
    var p := ProbeJobs.Pass(g.generation, g.spec.traffic, g.checks, s.pods, w.faultyJobs);
    StoreAfterPass(e, g, w, s);
    assert OnNodes(e, g.checks) by { SteadyNodes(e, g, s); }
    forall i | 0 <= i < |nodes|
      ensures StepsLeft(e, g, t.store.jobs, nodes[i]) <= StepsLeft(e, g, s.store.jobs, nodes[i])
      ensures !SameJob(s.store.jobs, t.store.jobs, JobName(e, nodes[i])) ==>
                StepsLeft(e, g, t.store.jobs, nodes[i]) < StepsLeft(e, g, s.store.jobs, nodes[i])
    {
      if t.store == s.store {
        Unmoved(s.store.jobs, JobName(e, nodes[i]));
      } else {
        PassEffect(e, p, s.store, i);
        RankAfter(e, g, p, s.store, t.store, nodes[i]);
      }
    }
  }

  lemma Unmoved(jobs: map<string, Job>, name: string)
    ensures SameJob(jobs, jobs, name)
  {
  }

  lemma OtherStepFalls(e: Env, g: Goal, s: State, step: Step, t: State, node: string)
    requires Next(e, s, step, t) && Quiet(e, g, s, step) && !step.ControllerPass? && node in e.nodes
    ensures StepsLeft(e, g, t.store.jobs, node) <= StepsLeft(e, g, s.store.jobs, node)
    ensures ActsOn(e, g, s, step, t, node) ==> StepsLeft(e, g, t.store.jobs, node) < StepsLeft(e, g, s.store.jobs, node)
  {
    hide JobName, GroupOf, ChecksHash, Reconciled, PodsHonest, LabelledLive, Labelled;
    if step.OthersAct? {
      assert SameJob(s.store.jobs, t.store.jobs, JobName(e, node));
    }
  }

  /** No step of a quiet run moves away from the end, and every productive step moves towards it. */
  lemma DistanceFalls(e: Env, g: Goal, s: State, step: Step, t: State)
    requires Collisionless(e) && Inv(e, s) && Steady(e, g, s) && Next(e, s, step, t) && Quiet(e, g, s, step)
    ensures Distance(e, g, t) <= Distance(e, g, s)
    ensures Productive(e, g, s, step, t) ==> Distance(e, g, t) < Distance(e, g, s)
    ensures Steady(e, g, t)
  {
    hide Reconciled, Measure, NodesOf, StepsLeft, Inv, ActsOn, Foreign, PodsHonest;
    var nodes := NodesOf(g.checks);
    if step.ControllerPass? {
      assert UidsBelow(s.store) by { InvBelow(e, s); }
      PassFalls(e, g, step.world, s);
      StoreAfterPass(e, g, step.world, s);
    } else {
      SteadyElsewhere(e, g, s, step, t);
      NodeNamesDiffer(e, g.checks);
      forall i | 0 <= i < |nodes|
        ensures StepsLeft(e, g, t.store.jobs, nodes[i]) <= StepsLeft(e, g, s.store.jobs, nodes[i])
        ensures ActsOn(e, g, s, step, t, nodes[i]) ==>
                  StepsLeft(e, g, t.store.jobs, nodes[i]) < StepsLeft(e, g, s.store.jobs, nodes[i])
      {
        OtherStepFalls(e, g, s, step, t, nodes[i]);
      }
    }
    MeasureFalls(e, g, s.store.jobs, t.store.jobs, nodes);
  }

  lemma SteadyElsewhere(e: Env, g: Goal, s: State, step: Step, t: State)
    requires Steady(e, g, s) && Next(e, s, step, t) && Quiet(e, g, s, step) && !step.ControllerPass?
    ensures t.lab == s.lab
  {
    hide Reconciled, PodsHonest;
  }

  lemma InvBelow(e: Env, s: State)
    requires Inv(e, s)
    ensures UidsBelow(s.store)
  {
  }

  // ----- runs -----

  ghost function ProductiveSteps(e: Env, g: Goal, states: seq<State>, steps: seq<Step>): nat
    requires |states| == |steps| + 1
  {
    if steps == [] then 0
    else
      var n := |steps| - 1;
      ProductiveSteps(e, g, states[..n + 1], steps[..n])
        + if Productive(e, g, states[n], steps[n], states[n + 1]) then 1 else 0
  }

  lemma QuietPrefix(e: Env, g: Goal, states: seq<State>, steps: seq<Step>)
    requires QuietRun(e, g, states, steps) && steps != []
    ensures QuietRun(e, g, states[..|steps|], steps[..|steps| - 1])
  {
    hide Next, Inv, Steady, Quiet;
    var a, b := states[..|steps|], steps[..|steps| - 1];
    forall i | 0 <= i < |b| ensures Next(e, a[i], b[i], a[i + 1]) && Quiet(e, g, a[i], b[i]) {
      assert Next(e, states[i], steps[i], states[i + 1]) && Quiet(e, g, states[i], steps[i]);
    }
  }

  lemma {:induction false} QuietInv(e: Env, g: Goal, states: seq<State>, steps: seq<Step>)
    requires Collisionless(e) && QuietRun(e, g, states, steps)
    ensures Inv(e, states[|steps|]) && Steady(e, g, states[|steps|])
    ensures Distance(e, g, states[|steps|]) + ProductiveSteps(e, g, states, steps) <= Distance(e, g, states[0])
  {
    hide Next, Inv, Steady, Quiet, Distance, Productive;
    if steps != [] {
      var n := |steps| - 1;
      QuietPrefix(e, g, states, steps);
      QuietInv(e, g, states[..n + 1], steps[..n]);
      assert states[..n + 1][n] == states[n];
      StepKeeps(e, states[n], steps[n], states[n + 1]);
      DistanceFalls(e, g, states[n], steps[n], states[n + 1]);
    }
  }

  /** Convergence: from any reachable state, a run in which the lab and its checks stay fixed, no job expires and no job
      fails has at most four productive steps per node. */
  lemma Convergence(e: Env, g: Goal, states: seq<State>, steps: seq<Step>)
    requires Collisionless(e) && QuietRun(e, g, states, steps)
    ensures ProductiveSteps(e, g, states, steps) <= 4 * |NodesOf(g.checks)|
    ensures ProductiveSteps(e, g, states, steps) <= Distance(e, g, states[0]) - Distance(e, g, states[|steps|])
  {
    hide Next, Quiet, Inv, Steady, ProductiveSteps, NodesOf, Measure;
    QuietInv(e, g, states, steps);
    MeasureBound(e, g, states[0].store.jobs, NodesOf(g.checks));
  }

  // ----- at the end -----

  /** Nothing fails and the targets give the fixed check list. */
  ghost predicate Fair(e: Env, g: Goal, w: World) {
    && Legible(w) && Located(e, w) && w.targets.Some? && w.services.Some? && w.targets.value != []
    && BuiltChecks(g.spec.traffic, w.targets.value, w.services.value, e.id) == g.checks != []
    && w.faultyJobs == {} && !w.statusFails
  }

  /** No current job has failed, and every finished one has a readable report. */
  ghost predicate Healthy(e: Env, g: Goal, s: State) {
    forall i | 0 <= i < |NodesOf(g.checks)| ::
      !Fails(e, ProbeJobs.Pass(g.generation, g.spec.traffic, g.checks, s.pods, {}), s.store.jobs, NodesOf(g.checks)[i])
  }

  lemma WaitingIgnores(e: Env, p: ProbeJobs.Pass, q: ProbeJobs.Pass, jobs: map<string, Job>, nodes: seq<string>)
    requires p.generation == q.generation && p.checks == q.checks
    ensures Waiting(e, p, jobs, nodes) <==> Waiting(e, q, jobs, nodes)
  {
    hide JobName, GroupOf, ChecksHash;
    assert forall node :: Done(e, p, jobs, node) <==> Done(e, q, jobs, node);
  }

  lemma HealthyPass(e: Env, g: Goal, s: State)
    requires Collisionless(e) && OnNodes(e, g.checks) && UidsBelow(s.store) && Healthy(e, g, s)
    ensures var after := PassOver(e, ProbeJobs.Pass(g.generation, g.spec.traffic, g.checks, s.pods, {}), s.store);
            !after.failed && (after.pending <==> Distance(e, g, s) > 0)
  {
    hide NodesOf, Fails, OthersUntouched, Handled, Visits, ReadAll, Waiting, Sorting.Sort;
    var nodes, p := NodesOf(g.checks), ProbeJobs.Pass(g.generation, g.spec.traffic, g.checks, s.pods, {});
    NodeNamesDiffer(e, g.checks);
    PassFailsExactly(e, p, s.store, nodes);
    OnePassDoes(e, p, s.store, nodes);
    MeasureZero(e, g, s.store.jobs, nodes);
    WaitingIgnores(e, p, GoalPass(g), s.store.jobs, nodes);
  }

  /** In a healthy state a pass without failing calls shows a status other than Running exactly if the distance is zero:
      the run has reached its end. */
  lemma SettledExactlyAtZero(e: Env, g: Goal, w: World, s: State)
    requires Collisionless(e) && Inv(e, s) && Steady(e, g, s) && Healthy(e, g, s) && Fair(e, g, w)
    ensures var t := Reconciled(e, w, s);
            t.lab.Some? && (t.lab.value.status.phase == Running <==> Distance(e, g, s) > 0)
  {
    hide PassOver, BuiltChecks, Complete, Healthy, Distance, Inv, Legible;
    InvBelow(e, s);
    HealthyPass(e, g, s);
    var after := PassOver(e, ProbeJobs.Pass(g.generation, g.spec.traffic, g.checks, s.pods, {}), s.store);
    if !after.pending {
      ProbeArtifacts.CompleteNotPending(e, g.spec, w, after.store, s.configMaps, g.checks, after.readings);
    }
  }

  lemma DeletionPossible(e: Env, g: Goal, s: State, node: string) returns (step: Step, t: State)
    requires JobName(e, node) in s.store.jobs && s.store.jobs[JobName(e, node)].deleting
    ensures Next(e, s, step, t) && Quiet(e, g, s, step) && ActsOn(e, g, s, step, t, node)
  {
    hide JobName, Reconciled, Foreign, PodsHonest;
    step := DeletionTakesEffect(JobName(e, node));
    t := s.(store := s.store.(jobs := s.store.jobs - {JobName(e, node)}));
  }

  lemma FinishPossible(e: Env, g: Goal, s: State, node: string) returns (step: Step, t: State)
    requires Live(e, GoalPass(g), s.store.jobs, node) && !Done(e, GoalPass(g), s.store.jobs, node)
    ensures Next(e, s, step, t) && Quiet(e, g, s, step) && ActsOn(e, g, s, step, t, node)
  {
    hide JobName, Reconciled, Foreign, PodsHonest, Current;
    var name := JobName(e, node);
    step := JobReports(name, 1, 0);
    t := s.(store := s.store.(jobs := s.store.jobs[name := s.store.jobs[name].(succeeded := 1, failed := 0)]));
  }

  lemma Situations(e: Env, p: ProbeJobs.Pass, jobs: map<string, Job>, node: string)
    ensures || Absent(e, jobs, node) || Stale(e, p, jobs, node) || Live(e, p, jobs, node)
            || (JobName(e, node) in jobs && jobs[JobName(e, node)].deleting)
  {
  }

  /** Until then something can be done: in a healthy state away from the end, a productive step is possible. */
  lemma ProgressPossible(e: Env, g: Goal, w: World, s: State) returns (step: Step, t: State)
    requires Collisionless(e) && Inv(e, s) && Steady(e, g, s) && Healthy(e, g, s) && Fair(e, g, w)
        && Distance(e, g, s) > 0
    ensures Next(e, s, step, t) && Quiet(e, g, s, step) && Productive(e, g, s, step, t)
  {
    hide Reconciled, NodesOf, Inv, Healthy, Foreign, PodsHonest, Fails, Measure, JobName, Done, Absent, Stale, Live,
            SameJob, Steady, Legible, BuiltChecks;
    var nodes := NodesOf(g.checks);
    MeasureZero(e, g, s.store.jobs, nodes);
    var i :| 0 <= i < |nodes| && !Done(e, GoalPass(g), s.store.jobs, nodes[i]);
    Situations(e, GoalPass(g), s.store.jobs, nodes[i]);
    if JobName(e, nodes[i]) in s.store.jobs && s.store.jobs[JobName(e, nodes[i])].deleting {
      step, t := DeletionPossible(e, g, s, nodes[i]);
    } else if Live(e, GoalPass(g), s.store.jobs, nodes[i]) {
      step, t := FinishPossible(e, g, s, nodes[i]);
    } else {
      step, t := ControllerPass(w), Reconciled(e, w, s);
      PassMoves(e, g, w, s, i);
    }
    assert ActsOn(e, g, s, step, t, nodes[i]);
  }

  lemma PassMoves(e: Env, g: Goal, w: World, s: State, i: nat)
    requires Collisionless(e) && Inv(e, s) && Steady(e, g, s) && Healthy(e, g, s) && Fair(e, g, w)
        && i < |NodesOf(g.checks)|
    requires var node := NodesOf(g.checks)[i];
             Absent(e, s.store.jobs, node) || Stale(e, GoalPass(g), s.store.jobs, node)
    ensures !SameJob(s.store.jobs, Reconciled(e, w, s).store.jobs, JobName(e, NodesOf(g.checks)[i]))
  {
    hide NodesOf, Inv, Sorting.Sort, BuiltChecks, Complete, Visits, OthersUntouched, Waiting, ReadAll, JobName, Fails,
            ChecksHash, GroupOf, Legible;
    var nodes, p := NodesOf(g.checks), ProbeJobs.Pass(g.generation, g.spec.traffic, g.checks, s.pods, {});
    InvBelow(e, s);
    NodeNamesDiffer(e, g.checks);
    PassFailsExactly(e, p, s.store, nodes);
    OnePassDoes(e, p, s.store, nodes);
    var after := PassOver(e, p, s.store);
    assert Handled(e, p, s.store, after.store, nodes[i]);
    ProbeArtifacts.CompleteNotPending(e, g.spec, w, after.store, s.configMaps, g.checks, after.readings);
    assert Reconciled(e, w, s).store == after.store;
  }
}
