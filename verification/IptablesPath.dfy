/** What a trace guarantees: its steps are grounded in the dump, the service steps are linked by jump rules, nothing
    repeats along the joined path, and filtering the dump on the node does not change the path. */
module IptablesPath {
  import opened AgentFilter
  import opened IptablesRules
  import opened IptablesTrace

  // ----- the joined path (runNetworkProbe and toAPITraceSteps) -----

  datatype PathStep = PathStep(order: nat, node: string, step: Step)

  function Placed(node: string, steps: seq<Step>, start: nat): (path: seq<PathStep>)
    ensures |path| == |steps|
    ensures forall i | 0 <= i < |path| :: path[i] == PathStep(start + i, node, steps[i])
  {
    seq(|steps|, i requires 0 <= i < |steps| => PathStep(start + i, node, steps[i]))
  }

  method ToAPITraceSteps(node: string, steps: seq<Step>, startOrder: nat) returns (out: seq<PathStep>)
    ensures out == Placed(node, steps, startOrder)
  {
    out := [];
    for i := 0 to |steps|
      invariant |out| == i
      invariant forall k | 0 <= k < i :: out[k] == PathStep(startOrder + k, node, steps[k])
    {
      out := out + [PathStep(startOrder + i, node, steps[i])];
    }
  }

  method JoinPath(sourceNode: string, source: seq<Step>, targetNode: string, target: seq<Step>)
    returns (path: seq<PathStep>)
    ensures path == Placed(sourceNode, source, 1) + Placed(targetNode, target, |source| + 1)
  {
    path := ToAPITraceSteps(sourceNode, source, 1);
    var rest := ToAPITraceSteps(targetNode, target, |path| + 1);
    path := path + rest;
  }

  // ----- soundness of traces -----

  ghost predicate NoRepeats(steps: seq<Step>) {
    forall i, j | 0 <= i < j < |steps| :: !SamePlace(steps[i], steps[j])
  }

  ghost predicate AllAtStages(steps: seq<Step>, stages: set<Stage>) {
    forall i | 0 <= i < |steps| :: steps[i].stage in stages && steps[i].chain != ""
  }

  /** A rule of the nat chain `from` jumps to `to`. */
  ghost predicate JumpsTo(rules: Rules, from: string, to: string) {
    exists line :: line in Look(rules, "nat", from) && JumpTarget(line) == to
  }

  /** A fixed chain that a trace looks for, and the tables it looks in, in this order. */
  datatype Hook = Hook(tables: seq<string>, chain: string)

  /** One side of a flow: its hooks, and the interface of its workload with the chain that dispatches on it. */
  datatype Side = Side(stage: Stage, hooks: seq<Hook>, dispatch: string, direction: string, iface: string)

  function SourceSide(routes: seq<string>, traffic: Traffic): Side {
    Side(SourceEgress,
         [Hook(["raw", "mangle", "nat"], "cali-PREROUTING"), Hook(["filter"], "cali-FORWARD"),
          Hook(["filter"], "cali-from-wl-dispatch"), Hook(["filter"], "KUBE-FORWARD"),
          Hook(["mangle", "nat"], "cali-POSTROUTING")],
         "cali-from-wl-dispatch", "-i", WorkloadInterface(routes, traffic.sourceIP))
  }

  function TargetSide(routes: seq<string>, traffic: Traffic): Side {
    Side(TargetIngress,
         [Hook(["raw", "mangle", "nat"], "cali-PREROUTING"), Hook(["filter"], "cali-FORWARD"),
          Hook(["filter"], "cali-to-wl-dispatch"), Hook(["filter"], "KUBE-FORWARD")],
         "cali-to-wl-dispatch", "-o", WorkloadInterface(routes, traffic.targetIP))
  }

  predicate FirstDeclares(rules: Rules, tables: seq<string>, k: nat, chain: string)
    requires k < |tables|
  {
    Declared(rules, tables[k], chain) && forall j | 0 <= j < k :: !Declared(rules, tables[j], chain)
  }

  /** The step stands at the hook, in the first of the hook's tables that declares its chain. */
  ghost predicate AtHook(rules: Rules, side: Side, h: Hook, step: Step) {
    && step.stage == side.stage && step.chain == h.chain
    && exists k: nat :: k < |h.tables| && step.table == h.tables[k] && FirstDeclares(rules, h.tables, k, h.chain)
  }

  /** The chain that the side's dispatch rules name for its interface. */
  function PolicyChain(rules: Rules, side: Side): string {
    if side.iface == "" then "" else DispatchTarget(Look(rules, "filter", side.dispatch), side.direction, side.iface)
  }

  ghost predicate IsHookStep(rules: Rules, side: Side, step: Step) {
    step.action == "" && exists h :: h in side.hooks && AtHook(rules, side, h, step)
  }

  ghost predicate IsPolicyStep(rules: Rules, side: Side, step: Step) {
    && step.stage == side.stage && step.table == "filter" && step.chain == PolicyChain(rules, side)
    && step.action == "policy for " + side.iface
  }

  /** The step stands on the dump: a service step is the declared entry chain or the target of a nat rule, any other
      step is a declared hook of its side or the policy chain of its workload's interface. */
  ghost predicate Grounded(rules: Rules, side: Side, step: Step) {
    if step.stage == ServiceDNAT then
      step.table == "nat" && (step.chain == "KUBE-SERVICES" ==> Declared(rules, "nat", "KUBE-SERVICES"))
      && (step.chain != "KUBE-SERVICES" ==> exists from :: JumpsTo(rules, from, step.chain))
    else IsHookStep(rules, side, step) || IsPolicyStep(rules, side, step)
  }

  /** Service steps that follow each other are linked by a jump rule. */
  ghost predicate Linked(rules: Rules, steps: seq<Step>) {
    forall i | 0 <= i < |steps| - 1 && steps[i].stage == ServiceDNAT && steps[i + 1].stage == ServiceDNAT ::
      JumpsTo(rules, steps[i].chain, steps[i + 1].chain)
  }

  ghost predicate Sound(rules: Rules, side: Side, steps: seq<Step>, stages: set<Stage>) {
    && NoRepeats(steps) && AllAtStages(steps, stages) && Linked(rules, steps)
    && forall i | 0 <= i < |steps| :: Grounded(rules, side, steps[i])
  }

  predicate HookDeclared(rules: Rules, h: Hook) {
    exists k | 0 <= k < |h.tables| :: Declared(rules, h.tables[k], h.chain)
  }

  ghost predicate HookReached(rules: Rules, side: Side, h: Hook, steps: seq<Step>) {
    exists i :: 0 <= i < |steps| && AtHook(rules, side, h, steps[i])
  }

  ghost predicate PolicyReached(rules: Rules, side: Side, steps: seq<Step>) {
    exists i :: 0 <= i < |steps| && steps[i].stage == side.stage && steps[i].table == "filter"
      && steps[i].chain == PolicyChain(rules, side)
  }

  /** Nothing is missing: a hook is reached if and only if one of its tables declares its chain, and the policy chain is
      reached if there is one. */
  ghost predicate NothingMissing(rules: Rules, side: Side, steps: seq<Step>) {
    && (forall h | h in side.hooks :: HookReached(rules, side, h, steps) <==> HookDeclared(rules, h))
    && (PolicyChain(rules, side) != "" ==> PolicyReached(rules, side, steps))
  }

  lemma AppendedSound(rules: Rules, side: Side, steps: seq<Step>, step: Step, stages: set<Stage>)
    requires Sound(rules, side, steps, stages) && step.stage in stages
    requires step.stage != ServiceDNAT
    requires step.chain != "" ==> Grounded(rules, side, step)
    ensures Sound(rules, side, Appended(steps, step), stages)
  {
    hide Grounded, JumpsTo;
    var out := Appended(steps, step);
    forall i | 0 <= i < |out| - 1 && out[i].stage == ServiceDNAT && out[i + 1].stage == ServiceDNAT
      ensures JumpsTo(rules, out[i].chain, out[i + 1].chain)
    {
      assert i + 1 < |steps|;
    }
  }

  /** Looking in the tables from the k-th on, none of those before declaring the chain. */
  lemma {:induction false} HookSoundFrom(rules: Rules, side: Side, steps: seq<Step>, h: Hook, k: nat, purpose: Purpose,
          stages: set<Stage>)
    requires Sound(rules, side, steps, stages) && side.stage in stages && side.stage != ServiceDNAT
    requires h in side.hooks && h.chain != "" && k <= |h.tables|
    requires forall j | 0 <= j < k :: !Declared(rules, h.tables[j], h.chain)
    ensures var out := WithHook(steps, rules, side.stage, h.tables[k..], h.chain, purpose);
            && Sound(rules, side, out, stages) && steps <= out
            && (HookDeclared(rules, h) ==> HookReached(rules, side, h, out))
    decreases |h.tables| - k
  {
    hide Sound, Declared;
    if k < |h.tables| {
      if Declared(rules, h.tables[k], h.chain) {
        var step := Step(side.stage, h.tables[k], h.chain, "", purpose);
        assert FirstDeclares(rules, h.tables, k, h.chain);
        assert AtHook(rules, side, h, step);
        AppendedSound(rules, side, steps, step, stages);
        AppendedReaches(steps, step);
        var out := Appended(steps, step);
        var i :| 0 <= i < |out| && SamePlace(out[i], step);
        assert AtHook(rules, side, h, out[i]);
      } else {
        assert h.tables[k..][1..] == h.tables[k + 1..];
        HookSoundFrom(rules, side, steps, h, k + 1, purpose, stages);
      }
    }
  }

  lemma AppendedReaches(steps: seq<Step>, step: Step)
    requires step.chain != ""
    ensures exists i :: 0 <= i < |Appended(steps, step)| && SamePlace(Appended(steps, step)[i], step)
    ensures steps <= Appended(steps, step)
  {
    var out := Appended(steps, step);
    if out == steps + [step] {
      assert SamePlace(out[|steps|], step);
    }
  }

  lemma HookSound(rules: Rules, side: Side, steps: seq<Step>, h: Hook, purpose: Purpose, stages: set<Stage>)
    requires Sound(rules, side, steps, stages) && side.stage in stages && side.stage != ServiceDNAT
    requires h in side.hooks && h.chain != ""
    ensures var out := WithHook(steps, rules, side.stage, h.tables, h.chain, purpose);
            && Sound(rules, side, out, stages) && steps <= out
            && (HookDeclared(rules, h) ==> HookReached(rules, side, h, out))
  {
    hide Sound, HookDeclared, HookReached, WithHook;
    assert h.tables[0..] == h.tables;
    HookSoundFrom(rules, side, steps, h, 0, purpose, stages);
  }

  /** What was reached stays reached. */
  lemma ReachedLater(rules: Rules, side: Side, h: Hook, steps: seq<Step>, out: seq<Step>)
    requires HookReached(rules, side, h, steps) && steps <= out
    ensures HookReached(rules, side, h, out)
  {
    hide AtHook;
    var i :| 0 <= i < |steps| && AtHook(rules, side, h, steps[i]);
    assert out[i] == steps[i];
  }

  lemma PolicyReachedLater(rules: Rules, side: Side, steps: seq<Step>, out: seq<Step>)
    requires PolicyReached(rules, side, steps) && steps <= out
    ensures PolicyReached(rules, side, out)
  {
    hide PolicyChain;
    var i :| 0 <= i < |steps| && steps[i].stage == side.stage && steps[i].table == "filter"
      && steps[i].chain == PolicyChain(rules, side);
    assert out[i] == steps[i];
  }

  /** Only a declared hook is reached. */
  lemma ReachedDeclared(rules: Rules, side: Side, h: Hook, steps: seq<Step>)
    requires HookReached(rules, side, h, steps)
    ensures HookDeclared(rules, h)
  {
  }

  /** The dispatch target is the jump target of the first rule for the interface. */
  lemma {:induction false} DispatchTargetRule(lines: seq<string>, direction: string, iface: string)
    requires DispatchTarget(lines, direction, iface) != ""
    ensures exists k :: 0 <= k < |lines| && Dispatches(lines[k], direction, iface)
                        && JumpTarget(lines[k]) == DispatchTarget(lines, direction, iface)
                        && forall j | 0 <= j < k :: !Dispatches(lines[j], direction, iface)
  {
    hide Dispatches, JumpTarget;
    if !Dispatches(lines[0], direction, iface) {
      DispatchTargetRule(lines[1..], direction, iface);
      var k :| 0 <= k < |lines[1..]| && Dispatches(lines[1..][k], direction, iface)
               && JumpTarget(lines[1..][k]) == DispatchTarget(lines, direction, iface)
               && forall j | 0 <= j < k :: !Dispatches(lines[1..][j], direction, iface);
      assert lines[k + 1] == lines[1..][k];
      assert forall j | 0 < j < k + 1 :: lines[j] == lines[1..][j - 1];
    }
  }

  lemma EndpointSound(rules: Rules, side: Side, steps: seq<Step>, stages: set<Stage>)
    requires Sound(rules, side, steps, stages) && side.stage in stages && side.stage != ServiceDNAT
    ensures var out := WithEndpoint(steps, rules, side.stage, side.dispatch, side.direction, side.iface);
            && Sound(rules, side, out, stages) && steps <= out
            && (PolicyChain(rules, side) != "" ==> PolicyReached(rules, side, out))
  {
    hide Sound, DispatchTarget, Look, ChainPurpose;
    if side.iface != "" {
      var target := PolicyChain(rules, side);
      var step := Step(side.stage, "filter", target, "policy for " + side.iface, ChainPurpose(target));
      assert IsPolicyStep(rules, side, step);
      AppendedSound(rules, side, steps, step, stages);
      if target != "" {
        AppendedReaches(steps, step);
      }
    }
  }

  lemma ServiceChainJump(rules: Rules, traffic: Traffic)
    requires ServiceChain(rules, traffic) != ""
    ensures Declared(rules, "nat", "KUBE-SERVICES")
    ensures JumpsTo(rules, "KUBE-SERVICES", ServiceChain(rules, traffic))
  {
    var entries := Look(rules, "nat", "KUBE-SERVICES");
    assert entries[FirstService(entries, traffic)] in entries;
  }

  lemma EndpointChainJump(rules: Rules, from: string, ip: string)
    requires EndpointChain(rules, Look(rules, "nat", from), ip) != ""
    ensures JumpsTo(rules, from, EndpointChain(rules, Look(rules, "nat", from), ip))
  {
    var lines := Look(rules, "nat", from);
    var n := if FirstNaming(lines, ip) < |lines| then FirstNaming(lines, ip) else FirstRewriting(rules, lines, ip);
    assert lines[n] in lines && JumpTarget(lines[n]) == EndpointChain(rules, lines, ip);
  }

  lemma RelabelSound(rules: Rules, side: Side, steps: seq<Step>, k: nat, action: string)
    requires Sound(rules, side, steps, {ServiceDNAT}) && k < |steps|
    ensures Sound(rules, side, steps[k := steps[k].(action := action)], {ServiceDNAT})
  {
    hide JumpsTo, Declared;
    var out := steps[k := steps[k].(action := action)];
    assert forall i | 0 <= i < |steps| :: SamePlace(out[i], steps[i]);
    forall i | 0 <= i < |out| ensures Grounded(rules, side, out[i]) {
      assert Grounded(rules, side, steps[i]) && steps[i].stage == ServiceDNAT;
    }
  }

  lemma LinkedStepSound(rules: Rules, side: Side, steps: seq<Step>, step: Step)
    requires Sound(rules, side, steps, {ServiceDNAT}) && steps != []
    requires step.stage == ServiceDNAT && step.table == "nat" && step.chain != ""
    requires JumpsTo(rules, steps[|steps| - 1].chain, step.chain)
    requires steps[0].chain == "KUBE-SERVICES"
    ensures Sound(rules, side, Appended(steps, step), {ServiceDNAT})
  {
    hide JumpsTo, Declared;
    assert Grounded(rules, side, steps[0]);
    assert Grounded(rules, side, step);
    var out := Appended(steps, step);
    forall i | 0 <= i < |out| - 1 ensures JumpsTo(rules, out[i].chain, out[i + 1].chain) {
      if i + 1 < |steps| {
        assert steps[i].stage == ServiceDNAT && steps[i + 1].stage == ServiceDNAT;
      }
    }
  }

  lemma ServiceStepsSound(rules: Rules, side: Side, traffic: Traffic)
    ensures Sound(rules, side, ServiceSteps(rules, traffic), {ServiceDNAT})
  {
    hide JumpsTo, Look, Declared, DnatAction, ChainPurpose, ServiceChain, EndpointChain;
    var service := ServiceChain(rules, traffic);
    if service != "" {
      ServiceChainJump(rules, traffic);
      var entryStep := Step(ServiceDNAT, "nat", "KUBE-SERVICES", "jump " + service, ChainPurpose("KUBE-SERVICES"));
      var serviceStep := Step(ServiceDNAT, "nat", service, "", ChainPurpose(service));
      assert Sound(rules, side, [entryStep], {ServiceDNAT});
      LinkedStepSound(rules, side, [entryStep], serviceStep);
      var steps := Appended([entryStep], serviceStep);
      var last := |steps| - 1;
      assert steps[last].chain == service;
      var endpoint := EndpointChain(rules, Look(rules, "nat", service), traffic.targetIP);
      if endpoint != "" {
        EndpointChainJump(rules, service, traffic.targetIP);
        RelabelSound(rules, side, steps, last, "select " + endpoint);
        LinkedStepSound(rules, side, steps[last := steps[last].(action := "select " + endpoint)],
                        Step(ServiceDNAT, "nat", endpoint, DnatAction(Look(rules, "nat", endpoint)),
                             ChainPurpose(endpoint)));
      }
    }
  }

  lemma ServiceStepsAdded(rules: Rules, side: Side, steps: seq<Step>, traffic: Traffic)
    requires Sound(rules, side, steps, {SourceEgress})
    ensures Sound(rules, side, steps + ServiceSteps(rules, traffic), {SourceEgress, ServiceDNAT})
  {
    hide ServiceSteps, Grounded, JumpsTo;
    ServiceStepsSound(rules, side, traffic);
    var service := ServiceSteps(rules, traffic);
    var out := steps + service;
    forall i | 0 <= i < |out| - 1 && out[i].stage == ServiceDNAT && out[i + 1].stage == ServiceDNAT
      ensures JumpsTo(rules, out[i].chain, out[i + 1].chain)
    {
      assert i >= |steps|;
      var k := i - |steps|;
      assert service[k] == out[i] && service[k + 1] == out[i + 1];
    }
  }

  /** More stages may be allowed. */
  lemma WiderStages(rules: Rules, side: Side, steps: seq<Step>, stages: set<Stage>, more: set<Stage>)
    requires Sound(rules, side, steps, stages) && stages <= more
    ensures Sound(rules, side, steps, more)
  {
    hide Grounded, Linked;
  }

  lemma NothingSound(rules: Rules, side: Side, stages: set<Stage>)
    ensures Sound(rules, side, [], stages)
  {
  }

  /** Every step of a source trace is a declared hook in the first of its tables that declares it, the policy chain of
      the source workload's interface, or a service step; service steps are linked by jump rules; nothing repeats; and
      no declared hook and no policy chain is missing. */
  lemma SourceTraceSound(rules: Rules, routes: seq<string>, traffic: Traffic)
    ensures var steps := SourceSteps(rules, routes, traffic);
            && Sound(rules, SourceSide(routes, traffic), steps, {SourceEgress, ServiceDNAT})
            && NothingMissing(rules, SourceSide(routes, traffic), steps)
  {
    hide Sound, HookReached, PolicyReached, HookDeclared, PolicyChain, WithHook, WithEndpoint, ChainPurpose,
         WorkloadInterface, ServiceSteps;
    var side, stages := SourceSide(routes, traffic), {SourceEgress, ServiceDNAT};
    var h := side.hooks;
    NothingSound(rules, side, {SourceEgress});
    HookSound(rules, side, [], h[0], PreRoutingOut, {SourceEgress});
    var s0 := WithHook([], rules, SourceEgress, h[0].tables, h[0].chain, PreRoutingOut);
    ServiceStepsAdded(rules, side, s0, traffic);
    WiderStages(rules, side, s0, {SourceEgress}, stages);
    var s1 := if traffic.serviceIP != "" then s0 + ServiceSteps(rules, traffic) else s0;
    HookSound(rules, side, s1, h[1], ChainPurpose("cali-FORWARD"), stages);
    var s2 := WithHook(s1, rules, SourceEgress, h[1].tables, h[1].chain, ChainPurpose("cali-FORWARD"));
    HookSound(rules, side, s2, h[2], ChainPurpose("cali-from-wl-dispatch"), stages);
    var s3 := WithHook(s2, rules, SourceEgress, h[2].tables, h[2].chain, ChainPurpose("cali-from-wl-dispatch"));
    EndpointSound(rules, side, s3, stages);
    var s4 := WithEndpoint(s3, rules, SourceEgress, side.dispatch, side.direction, side.iface);
    HookSound(rules, side, s4, h[3], ChainPurpose("KUBE-FORWARD"), stages);
    var s5 := WithHook(s4, rules, SourceEgress, h[3].tables, h[3].chain, ChainPurpose("KUBE-FORWARD"));
    HookSound(rules, side, s5, h[4], PostRouting, stages);
    var out := WithHook(s5, rules, SourceEgress, h[4].tables, h[4].chain, PostRouting);
    assert out == SourceSteps(rules, routes, traffic);
    AllReached(rules, side, [s0, s2, s3, s5, out], s4, out);
  }

  /** If the i-th hook is reached by then and nothing is dropped later, the whole trace is complete. */
  lemma AllReached(rules: Rules, side: Side, stops: seq<seq<Step>>, policy: seq<Step>, out: seq<Step>)
    requires |stops| == |side.hooks| && policy <= out
    requires forall i | 0 <= i < |stops| ::
               stops[i] <= out && (HookDeclared(rules, side.hooks[i]) ==>
                                   HookReached(rules, side, side.hooks[i], stops[i]))
    requires PolicyChain(rules, side) != "" ==> PolicyReached(rules, side, policy)
    ensures NothingMissing(rules, side, out)
  {
    hide HookReached, PolicyReached, HookDeclared, PolicyChain;
    forall h | h in side.hooks ensures HookReached(rules, side, h, out) <==> HookDeclared(rules, h) {
      var i :| 0 <= i < |side.hooks| && side.hooks[i] == h;
      if HookDeclared(rules, h) {
        ReachedLater(rules, side, h, stops[i], out);
      }
      if HookReached(rules, side, h, out) {
        ReachedDeclared(rules, side, h, out);
      }
    }
    if PolicyChain(rules, side) != "" {
      PolicyReachedLater(rules, side, policy, out);
    }
  }

  /** The same for a target trace. */
  lemma TargetTraceSound(rules: Rules, routes: seq<string>, traffic: Traffic)
    ensures var steps := TargetSteps(rules, routes, traffic);
            && Sound(rules, TargetSide(routes, traffic), steps, {TargetIngress})
            && NothingMissing(rules, TargetSide(routes, traffic), steps)
  {
    hide Sound, HookReached, PolicyReached, HookDeclared, PolicyChain, WithHook, WithEndpoint, ChainPurpose,
         WorkloadInterface;
    var side, stages := TargetSide(routes, traffic), {TargetIngress};
    var h := side.hooks;
    NothingSound(rules, side, stages);
    HookSound(rules, side, [], h[0], PreRoutingIn, stages);
    var s0 := WithHook([], rules, TargetIngress, h[0].tables, h[0].chain, PreRoutingIn);
    HookSound(rules, side, s0, h[1], ChainPurpose("cali-FORWARD"), stages);
    var s1 := WithHook(s0, rules, TargetIngress, h[1].tables, h[1].chain, ChainPurpose("cali-FORWARD"));
    HookSound(rules, side, s1, h[2], ChainPurpose("cali-to-wl-dispatch"), stages);
    var s2 := WithHook(s1, rules, TargetIngress, h[2].tables, h[2].chain, ChainPurpose("cali-to-wl-dispatch"));
    EndpointSound(rules, side, s2, stages);
    var s3 := WithEndpoint(s2, rules, TargetIngress, side.dispatch, side.direction, side.iface);
    HookSound(rules, side, s3, h[3], ChainPurpose("KUBE-FORWARD"), stages);
    var out := WithHook(s3, rules, TargetIngress, h[3].tables, h[3].chain, ChainPurpose("KUBE-FORWARD"));
    assert out == TargetSteps(rules, routes, traffic);
    AllReached(rules, side, [s0, s1, s2, out], s3, out);
  }

  /** The path has the source steps on the source node and then the target steps on the target node, numbered from 1. */
  predicate InTurn(path: seq<PathStep>, sourceNode: string, source: seq<Step>, targetNode: string, target: seq<Step>) {
    && |path| == |source| + |target|
    && (forall i | 0 <= i < |path| :: path[i].order == i + 1)
    && (forall i | 0 <= i < |source| :: path[i].node == sourceNode && path[i].step == source[i])
    && forall i | |source| <= i < |path| :: path[i].node == targetNode && path[i].step == target[i - |source|]
  }

  lemma PlacedInTurn(sourceNode: string, source: seq<Step>, targetNode: string, target: seq<Step>)
    ensures InTurn(Placed(sourceNode, source, 1) + Placed(targetNode, target, |source| + 1), sourceNode, source,
                   targetNode, target)
  {
  }

  lemma NothingTwice(path: seq<PathStep>, sourceNode: string, source: seq<Step>, targetNode: string, target: seq<Step>)
    requires InTurn(path, sourceNode, source, targetNode, target) && NoRepeats(source) && NoRepeats(target)
    requires AllAtStages(source, {SourceEgress, ServiceDNAT}) && AllAtStages(target, {TargetIngress})
    ensures forall i, j | 0 <= i < j < |path| :: !SamePlace(path[i].step, path[j].step)
  {
    forall i, j | 0 <= i < j < |path| ensures !SamePlace(path[i].step, path[j].step) {
      if j < |source| {
        assert !SamePlace(source[i], source[j]);
      } else if i >= |source| {
        assert !SamePlace(target[i - |source|], target[j - |source|]);
      }
    }
  }

  /** The joined path of a flow: both traces in turn, numbered from 1, and no stage, table and chain twice. */
  lemma JoinedPath(sourceNode: string, sourceRules: Rules, sourceRoutes: seq<string>,
                   targetNode: string, targetRules: Rules, targetRoutes: seq<string>, traffic: Traffic)
    ensures var source := SourceSteps(sourceRules, sourceRoutes, traffic);
            var target := TargetSteps(targetRules, targetRoutes, traffic);
            var path := Placed(sourceNode, source, 1) + Placed(targetNode, target, |source| + 1);
            && InTurn(path, sourceNode, source, targetNode, target)
            && forall i, j | 0 <= i < j < |path| :: !SamePlace(path[i].step, path[j].step)
  {
    hide SourceSteps, TargetSteps, Placed, InTurn, NoRepeats, AllAtStages, Linked, Grounded, NothingMissing;
    SourceTraceSound(sourceRules, sourceRoutes, traffic);
    TargetTraceSound(targetRules, targetRoutes, traffic);
    var source := SourceSteps(sourceRules, sourceRoutes, traffic);
    var target := TargetSteps(targetRules, targetRoutes, traffic);
    PlacedInTurn(sourceNode, source, targetNode, target);
    NothingTwice(Placed(sourceNode, source, 1) + Placed(targetNode, target, |source| + 1),
                 sourceNode, source, targetNode, target);
  }

  // ----- tracing a filtered dump -----

  const TARGET_HOOKS := {"cali-PREROUTING", "cali-FORWARD", "cali-to-wl-dispatch", "KUBE-FORWARD"}
  const SOURCE_HOOKS := {"cali-PREROUTING", "cali-FORWARD", "cali-from-wl-dispatch", "KUBE-FORWARD", "cali-POSTROUTING"}

  function ServiceReads(rules: Rules, traffic: Traffic): set<string> {
    var service := ServiceChain(rules, traffic);
    {"KUBE-SERVICES"}
    + if service == "" then {}
      else {service} + set line | line in Look(rules, "nat", service) && SelectsEndpoint(line) :: JumpTarget(line)
  }

  /** The chains a source trace looks at. */
  function SourceReads(rules: Rules, traffic: Traffic): set<string> {
    SOURCE_HOOKS + if traffic.serviceIP == "" then {} else ServiceReads(rules, traffic)
  }

  ghost predicate KeepsAll(chains: set<string>, allowlist: seq<string>, glob: Glob) {
    allowlist == [] || forall chain | chain in chains :: ChainAllowed(chain, allowlist, glob)
  }

  lemma LookRestricted(rules: Rules, table: string, chain: string, allowlist: seq<string>, glob: Glob)
    requires ChainAllowed(chain, allowlist, glob)
    ensures Declared(Restrict(rules, allowlist, glob), table, chain) == Declared(rules, table, chain)
    ensures Look(Restrict(rules, allowlist, glob), table, chain) == Look(rules, table, chain)
  {
  }

  lemma {:induction false} FirstRewritingRestricted(rules: Rules, lines: seq<string>, ip: string,
          allowlist: seq<string>, glob: Glob)
    requires forall line | line in lines && SelectsEndpoint(line) :: ChainAllowed(JumpTarget(line), allowlist, glob)
    ensures FirstRewriting(Restrict(rules, allowlist, glob), lines, ip) == FirstRewriting(rules, lines, ip)
  {
    if lines != [] {
      assert lines[0] in lines;
      if SelectsEndpoint(lines[0]) {
        LookRestricted(rules, "nat", JumpTarget(lines[0]), allowlist, glob);
      }
      FirstRewritingRestricted(rules, lines[1..], ip, allowlist, glob);
    }
  }

  lemma ServiceChainRestricted(rules: Rules, traffic: Traffic, allowlist: seq<string>, glob: Glob)
    requires ChainAllowed("KUBE-SERVICES", allowlist, glob)
    ensures ServiceChain(Restrict(rules, allowlist, glob), traffic) == ServiceChain(rules, traffic)
  {
    hide ChainAllowed, Look, Restrict, JumpTarget;
    LookRestricted(rules, "nat", "KUBE-SERVICES", allowlist, glob);
  }

  lemma EndpointChainRestricted(rules: Rules, lines: seq<string>, ip: string, allowlist: seq<string>, glob: Glob)
    requires forall line | line in lines && SelectsEndpoint(line) :: ChainAllowed(JumpTarget(line), allowlist, glob)
    ensures EndpointChain(Restrict(rules, allowlist, glob), lines, ip) == EndpointChain(rules, lines, ip)
    ensures EndpointChain(rules, lines, ip) != "" ==> ChainAllowed(EndpointChain(rules, lines, ip), allowlist, glob)
  {
    hide ChainAllowed, Look, Restrict, JumpTarget, EndpointRewritesTo;
    FirstRewritingRestricted(rules, lines, ip, allowlist, glob);
    if EndpointChain(rules, lines, ip) != "" {
      var n := if FirstNaming(lines, ip) < |lines| then FirstNaming(lines, ip) else FirstRewriting(rules, lines, ip);
      assert lines[n] in lines && SelectsEndpoint(lines[n]);
    }
  }

  lemma ServiceStepsRestricted(rules: Rules, traffic: Traffic, allowlist: seq<string>, glob: Glob)
    requires forall chain | chain in ServiceReads(rules, traffic) :: ChainAllowed(chain, allowlist, glob)
    ensures ServiceSteps(Restrict(rules, allowlist, glob), traffic) == ServiceSteps(rules, traffic)
  {
    hide ChainAllowed, Look, Restrict, JumpTarget, ServiceChain, EndpointChain, DnatAction, ChainPurpose;
    ServiceChainRestricted(rules, traffic, allowlist, glob);
    var service := ServiceChain(rules, traffic);
    if service != "" {
      LookRestricted(rules, "nat", service, allowlist, glob);
      var lines := Look(rules, "nat", service);
      EndpointChainRestricted(rules, lines, traffic.targetIP, allowlist, glob);
      var endpoint := EndpointChain(rules, lines, traffic.targetIP);
      if endpoint != "" {
        LookRestricted(rules, "nat", endpoint, allowlist, glob);
      }
    }
  }

  lemma {:induction false} HookRestricted(rules: Rules, steps: seq<Step>, stage: Stage, tables: seq<string>,
          chain: string, purpose: Purpose, allowlist: seq<string>, glob: Glob)
    requires ChainAllowed(chain, allowlist, glob)
    ensures WithHook(steps, Restrict(rules, allowlist, glob), stage, tables, chain, purpose)
         == WithHook(steps, rules, stage, tables, chain, purpose)
  {
    if tables != [] {
      LookRestricted(rules, tables[0], chain, allowlist, glob);
      HookRestricted(rules, steps, stage, tables[1..], chain, purpose, allowlist, glob);
    }
  }

  lemma EndpointRestricted(rules: Rules, steps: seq<Step>, stage: Stage, dispatch: string, direction: string,
          iface: string, allowlist: seq<string>, glob: Glob)
    requires ChainAllowed(dispatch, allowlist, glob)
    ensures WithEndpoint(steps, Restrict(rules, allowlist, glob), stage, dispatch, direction, iface)
         == WithEndpoint(steps, rules, stage, dispatch, direction, iface)
  {
    LookRestricted(rules, "filter", dispatch, allowlist, glob);
  }

  lemma SourceStepsRestricted(rules: Rules, routes: seq<string>, traffic: Traffic, allowlist: seq<string>, glob: Glob)
    requires forall chain | chain in SourceReads(rules, traffic) :: ChainAllowed(chain, allowlist, glob)
    ensures SourceSteps(Restrict(rules, allowlist, glob), routes, traffic) == SourceSteps(rules, routes, traffic)
  {
    HookRestricted(rules, [], SourceEgress, ["raw", "mangle", "nat"], "cali-PREROUTING", PreRoutingOut, allowlist,
                   glob);
    var s0 := WithHook([], rules, SourceEgress, ["raw", "mangle", "nat"], "cali-PREROUTING", PreRoutingOut);
    if traffic.serviceIP != "" {
      ServiceStepsRestricted(rules, traffic, allowlist, glob);
    }
    var s1 := if traffic.serviceIP != "" then s0 + ServiceSteps(rules, traffic) else s0;
    HookRestricted(rules, s1, SourceEgress, ["filter"], "cali-FORWARD", ChainPurpose("cali-FORWARD"), allowlist, glob);
    var s2 := WithHook(s1, rules, SourceEgress, ["filter"], "cali-FORWARD", ChainPurpose("cali-FORWARD"));
    HookRestricted(rules, s2, SourceEgress, ["filter"], "cali-from-wl-dispatch", ChainPurpose("cali-from-wl-dispatch"),
                   allowlist, glob);
    var s3 := WithHook(s2, rules, SourceEgress, ["filter"], "cali-from-wl-dispatch",
                       ChainPurpose("cali-from-wl-dispatch"));
    var iface := WorkloadInterface(routes, traffic.sourceIP);
    EndpointRestricted(rules, s3, SourceEgress, "cali-from-wl-dispatch", "-i", iface, allowlist, glob);
    var s4 := WithEndpoint(s3, rules, SourceEgress, "cali-from-wl-dispatch", "-i", iface);
    HookRestricted(rules, s4, SourceEgress, ["filter"], "KUBE-FORWARD", ChainPurpose("KUBE-FORWARD"), allowlist, glob);
    var s5 := WithHook(s4, rules, SourceEgress, ["filter"], "KUBE-FORWARD", ChainPurpose("KUBE-FORWARD"));
    HookRestricted(rules, s5, SourceEgress, ["mangle", "nat"], "cali-POSTROUTING", PostRouting, allowlist, glob);
  }

  lemma TargetStepsRestricted(rules: Rules, routes: seq<string>, traffic: Traffic, allowlist: seq<string>, glob: Glob)
    requires forall chain | chain in TARGET_HOOKS :: ChainAllowed(chain, allowlist, glob)
    ensures TargetSteps(Restrict(rules, allowlist, glob), routes, traffic) == TargetSteps(rules, routes, traffic)
  {
    HookRestricted(rules, [], TargetIngress, ["raw", "mangle", "nat"], "cali-PREROUTING", PreRoutingIn, allowlist,
                   glob);
    var s0 := WithHook([], rules, TargetIngress, ["raw", "mangle", "nat"], "cali-PREROUTING", PreRoutingIn);
    HookRestricted(rules, s0, TargetIngress, ["filter"], "cali-FORWARD", ChainPurpose("cali-FORWARD"), allowlist, glob);
    var s1 := WithHook(s0, rules, TargetIngress, ["filter"], "cali-FORWARD", ChainPurpose("cali-FORWARD"));
    HookRestricted(rules, s1, TargetIngress, ["filter"], "cali-to-wl-dispatch", ChainPurpose("cali-to-wl-dispatch"),
                   allowlist, glob);
    var s2 := WithHook(s1, rules, TargetIngress, ["filter"], "cali-to-wl-dispatch",
                       ChainPurpose("cali-to-wl-dispatch"));
    var iface := WorkloadInterface(routes, traffic.targetIP);
    EndpointRestricted(rules, s2, TargetIngress, "cali-to-wl-dispatch", "-o", iface, allowlist, glob);
    var s3 := WithEndpoint(s2, rules, TargetIngress, "cali-to-wl-dispatch", "-o", iface);
    HookRestricted(rules, s3, TargetIngress, ["filter"], "KUBE-FORWARD", ChainPurpose("KUBE-FORWARD"), allowlist, glob);
  }

  /** When the allowlist keeps every chain the traces look at, filtering the dump on the node changes neither trace. */
  lemma FilteredTraces(lines: seq<string>, allowlist: seq<string>, glob: Glob, routes: seq<string>, traffic: Traffic)
    ensures KeepsAll(SourceReads(Parsed(lines), traffic), allowlist, glob) ==>
            SourceSteps(Parsed(Filtered(lines, allowlist, glob)), routes, traffic)
              == SourceSteps(Parsed(lines), routes, traffic)
    ensures KeepsAll(TARGET_HOOKS, allowlist, glob) ==>
            TargetSteps(Parsed(Filtered(lines, allowlist, glob)), routes, traffic)
              == TargetSteps(Parsed(lines), routes, traffic)
  {
    FilterThenParse(lines, allowlist, glob);
    if allowlist != [] {
      if KeepsAll(SourceReads(Parsed(lines), traffic), allowlist, glob) {
        SourceStepsRestricted(Parsed(lines), routes, traffic, allowlist, glob);
      }
      if KeepsAll(TARGET_HOOKS, allowlist, glob) {
        TargetStepsRestricted(Parsed(lines), routes, traffic, allowlist, glob);
      }
    }
  }
}
