/** What Succeeded means for the targets of a lab, end to end: from the listed pods and services to the network. */
module ProbeReach {
  import opened ProbeTypes
  import opened ProbeJobs
  import opened ProbeController
  import opened ProbeRuns
  import opened ProbeSafety
  import CheckMeaning
  import JobLaws

  /** For every wanted check a probe program ran on its node, and all the configured attempts got through. */
  ghost predicate TargetsReached(basis: Basis, w: World) {
    && w.targets.Some? && w.services.Some?
    && forall c | CheckMeaning.Wanted(c, basis.traffic, w.targets.value, w.services.value) ::
         exists d :: d in basis.checks && CheckMeaning.SameButId(c, d) && Covered(basis, d)
  }

  /** In every state of every run, Succeeded at a generation means that an earlier pass at this generation, with the
      lab's traffic settings, listed pods and services for which everything wanted was reached. */
  lemma SucceededReachesTargets(e: Env, states: seq<State>, steps: seq<Step>, i: nat)
    requires JobLaws.Collisionless(e) && IsRun(e, states, steps) && i < |states| && states[i].lab.Some?
    requires states[i].lab.value.status.phase == Succeeded
    ensures exists k: nat :: k < i && k < |steps| && steps[k].ControllerPass? && states[k].lab.Some?
                             && states[k].lab.value.generation == states[i].lab.value.status.observedGeneration
                             && states[k].lab.value.spec.traffic == states[i].basis.traffic
                             && TargetsReached(states[i].basis, steps[k].world)
  {
    assert |states| == |steps| + 1;
    SucceededReachesAll(e, states, steps, i);
    hide IsRun, Covered, CheckMeaning.Wanted, CheckMeaning.SameButId;
    var basis := states[i].basis;
    var k: nat :| k < i && DrawnAt(e, states, steps, k, states[i]);
    var w := steps[k].world;
    forall c | CheckMeaning.Wanted(c, basis.traffic, w.targets.value, w.services.value)
      ensures exists d :: d in basis.checks && CheckMeaning.SameButId(c, d) && Covered(basis, d)
    {
      CheckMeaning.WantedChecksAreListed(basis.traffic, w.targets.value, w.services.value, e.id, c);
    }
  }
}
