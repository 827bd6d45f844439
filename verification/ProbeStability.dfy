/** Once a run is at its end, the controller leaves everything as it is: a pass repeated in the same world changes
    neither jobs nor artifacts nor status (internal/controller/networkprobelab_controller.go). */
module ProbeStability {
  import Sorting
  import opened ProbeTypes
  import ProbeChecks
  import opened ProbeJobs
  import opened JobLaws
  import opened ProbeController
  import ProbeArtifacts
  import ProbeRuns
  import ProbeSafety
  import opened ProbeConvergence

  /** A pass over finished jobs whose reports can be read changes no job. */
  lemma {:induction false} FinishedVisits(e: Env, p: ProbeJobs.Pass, store: Store, nodes: seq<string>)
    requires forall i | 0 <= i < |nodes| :: Done(e, p, store.jobs, nodes[i]) && !Fails(e, p, store.jobs, nodes[i])
    ensures Visits(e, p, store, nodes).store == store
  {
    hide JobName, Current, ReadReport, NewJob;
    if nodes != [] {
      var front, last := nodes[..|nodes| - 1], nodes[|nodes| - 1];
      assert nodes == front + [last];
      FinishedVisits(e, p, store, front);
      assert Done(e, p, store.jobs, nodes[|front|]) && !Fails(e, p, store.jobs, nodes[|front|]);
    }
  }

  lemma FinishedPass(e: Env, g: Goal, s: State)
    requires Healthy(e, g, s) && Distance(e, g, s) == 0
    ensures PassOver(e, ProbeJobs.Pass(g.generation, g.spec.traffic, g.checks, s.pods, {}), s.store).store == s.store
  {
    hide NodesOf, Fails, Done, Measure, Visits, Sorting.Sort;
    var nodes, p := NodesOf(g.checks), ProbeJobs.Pass(g.generation, g.spec.traffic, g.checks, s.pods, {});
    MeasureZero(e, g, s.store.jobs, nodes);
    WaitingIgnores(e, p, GoalPass(g), s.store.jobs, nodes);
    FinishedVisits(e, p, s.store, nodes);
  }

  /** What a pass at the end does: it leaves the jobs alone and completes the run. */
  lemma PassAtEnd(e: Env, g: Goal, w: World, s: State)
    requires Collisionless(e) && UidsBelow(s.store) && Steady(e, g, s) && Healthy(e, g, s) && Fair(e, g, w)
             && Distance(e, g, s) == 0
    ensures var after := PassOver(e, ProbeJobs.Pass(g.generation, g.spec.traffic, g.checks, s.pods, {}), s.store);
            RunOf(e, s.lab.value, w, s) == Complete(e, g.spec, w, s.store, s.configMaps, g.checks, after.readings)
  {
    hide PassOver, ProbeChecks.BuiltChecks, Complete, Healthy, Distance, Legible, ProbeRuns.Located;
    HealthyPass(e, g, s);
    FinishedPass(e, g, s);
  }

  lemma EndStays(e: Env, g: Goal, s: State, t: State)
    requires t.store == s.store && t.pods == s.pods && Healthy(e, g, s) && Distance(e, g, s) == 0
    ensures Healthy(e, g, t) && Distance(e, g, t) == 0
  {
    hide Fails, NodesOf, Measure;
  }

  /** In a healthy state at distance 0, a fair pass changes no job, and repeating it changes nothing at all. */
  lemma SecondPassChangesNothing(e: Env, g: Goal, w: World, s: State)
    requires Collisionless(e) && ProbeSafety.Inv(e, s) && Steady(e, g, s) && Healthy(e, g, s) && Fair(e, g, w)
             && Distance(e, g, s) == 0
    ensures var t := Reconciled(e, w, s);
            t.store == s.store && Reconciled(e, w, t) == t
  {
    hide ProbeSafety.Inv, PassOver, ProbeChecks.BuiltChecks, RunOf, Complete, Healthy, Distance, Legible,
         ProbeRuns.Located, StatusAfter, UidsBelow, OnNodes;
    InvBelow(e, s);
    var p := ProbeJobs.Pass(g.generation, g.spec.traffic, g.checks, s.pods, {});
    var readings := PassOver(e, p, s.store).readings;
    PassAtEnd(e, g, w, s);
    ProbeArtifacts.CompleteNotPending(e, g.spec, w, s.store, s.configMaps, g.checks, readings);
    var o, t := RunOf(e, s.lab.value, w, s), Reconciled(e, w, s);
    assert t == s.(store := s.store, configMaps := o.configMaps, basis := o.basis, removed := {},
                   lab := Some(s.lab.value.(status := StatusAfter(g.generation, o.run, o.failed))));
    EndStays(e, g, s, t);
    PassAtEnd(e, g, w, t);
    ProbeArtifacts.CompleteAgain(e, g.spec, w, s.store, s.configMaps, g.checks, readings);
    assert RunOf(e, t.lab.value, w, t) == o;
  }
}
