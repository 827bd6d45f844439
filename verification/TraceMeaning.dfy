/** What a trace shows and in which order, stated from the rules and the routes (internal/analyzer/network.go). */
module TraceMeaning {
  import opened Text
  import opened IptablesRules
  import opened IptablesTrace
  import opened IptablesPath

  // ----- single lines -----

  /** The text occurs in the line. */
  ghost predicate Occurs(line: string, text: string) {
    exists before, after :: line == before + text + after
  }

  lemma ContainsExactly(line: string, text: string)
    ensures Contains(line, text) <==> Occurs(line, text)
  {
    if Contains(line, text) {
      var i: nat :| i <= |line| && OccursAt(line, text, i);
      assert line == line[..i] + text + line[i + |text|..];
    }
    if before, after :| line == before + text + after {
      assert OccursAt(line, text, |before|);
    }
  }

  predicate FlagAt(fields: seq<string>, flags: set<string>, i: int) {
    0 <= i < |fields| - 1 && fields[i] in flags
  }

  /** The field after the first of the flags that has one, or "" without such a flag. */
  ghost predicate Follows(fields: seq<string>, flags: set<string>, text: string) {
    if exists i :: FlagAt(fields, flags, i)
    then exists i :: FirstFlag(fields, flags, i) && text == fields[i + 1]
    else text == ""
  }

  predicate FirstFlag(fields: seq<string>, flags: set<string>, i: int) {
    FlagAt(fields, flags, i) && forall j | 0 <= j < i :: !FlagAt(fields, flags, j)
  }

  lemma {:induction false} FieldAfterExactly(fields: seq<string>, flags: set<string>)
    ensures Follows(fields, flags, FieldAfter(fields, flags))
  {
    if |fields| >= 2 {
      var rest := fields[1..];
      assert forall i :: FlagAt(rest, flags, i) ==> FlagAt(fields, flags, i + 1);
      assert forall i :: i > 0 && FlagAt(fields, flags, i) ==> FlagAt(rest, flags, i - 1);
      if fields[0] in flags {
        assert FirstFlag(fields, flags, 0);
      } else {
        FieldAfterExactly(rest, flags);
        if exists i :: FlagAt(rest, flags, i) {
          var i :| FirstFlag(rest, flags, i) && FieldAfter(rest, flags) == rest[i + 1];
          assert forall j | 0 <= j < i + 1 :: FlagAt(fields, flags, j) ==> j > 0 && FlagAt(rest, flags, j - 1);
          assert FirstFlag(fields, flags, i + 1) && rest[i + 1] == fields[i + 2];
        }
      }
    }
  }

  /** The chain a rule jumps to. */
  ghost predicate Jumps(line: string, target: string) {
    Follows(Fields(line), {"-j", "-g"}, target)
  }

  lemma JumpExactly(line: string)
    ensures Jumps(line, JumpTarget(line))
  {
    FieldAfterExactly(Fields(line), {"-j", "-g"});
  }

  // ----- the service of a flow -----

  /** The rule is for the flow's service: it has the service address, the port if there is one, and the protocol, where
      HTTP counts as TCP. */
  ghost predicate IsForService(line: string, traffic: Traffic) {
    var lower := ToLower(traffic.protocol);
    var protocol := if lower in {"http", "https"} then "tcp" else lower;
    && traffic.serviceIP != "" && Occurs(line, traffic.serviceIP)
    && (traffic.port > 0 ==> Occurs(line, "--dport " + Decimal(traffic.port)))
    && (protocol != "" ==> Occurs(ToLower(line), "-p " + protocol))
  }

  lemma ServiceRuleExactly(line: string, traffic: Traffic)
    ensures MatchesService(line, traffic) <==> IsForService(line, traffic)
  {
    hide ToLower, Contains, Occurs, Decimal;
    ContainsExactly(line, traffic.serviceIP);
    if traffic.port > 0 {
      ContainsExactly(line, "--dport " + Decimal(traffic.port));
    }
    ContainsExactly(ToLower(line), "-p " + IptablesProtocol(traffic.protocol));
  }

  /** The k-th rule is the first for the flow's service, and it jumps to the target. */
  ghost predicate Enters(entries: seq<string>, traffic: Traffic, k: nat, target: string) {
    && k < |entries| && IsForService(entries[k], traffic)
    && (forall j | 0 <= j < k :: !IsForService(entries[j], traffic))
    && Jumps(entries[k], target) && target != ""
  }

  lemma JumpsOnce(line: string, a: string, b: string)
    requires Jumps(line, a) && Jumps(line, b)
    ensures a == b
  {
    var fields, flags := Fields(line), {"-j", "-g"};
    if exists i :: FlagAt(fields, flags, i) {
      var i :| FirstFlag(fields, flags, i) && a == fields[i + 1];
      var k :| FirstFlag(fields, flags, k) && b == fields[k + 1];
      assert i == k;
    }
  }

  lemma EntersExactly(rules: Rules, traffic: Traffic, target: string)
    ensures ServiceChain(rules, traffic) == target != ""
            <==> exists k: nat :: Enters(Look(rules, "nat", "KUBE-SERVICES"), traffic, k, target)
  {
    hide JumpTarget, MatchesService, Jumps, IsForService;
    var entries := Look(rules, "nat", "KUBE-SERVICES");
    var first := FirstService(entries, traffic);
    forall j | 0 <= j < |entries| ensures MatchesService(entries[j], traffic) <==> IsForService(entries[j], traffic) {
      ServiceRuleExactly(entries[j], traffic);
    }
    if first < |entries| {
      JumpExactly(entries[first]);
      if ServiceChain(rules, traffic) == target != "" {
        assert Enters(entries, traffic, first, target);
      }
    }
    if k: nat :| Enters(entries, traffic, k, target) {
      assert k == first;
      JumpsOnce(entries[k], target, JumpTarget(entries[k]));
    }
  }

  // ----- the endpoint of a service -----

  ghost predicate SelectsBy(rules: Rules, line: string, ip: string, byName: bool, target: string) {
    && Jumps(line, target) && HasPrefix(target, "KUBE-SEP-") && ip != ""
    && if byName then Occurs(line, ip)
       else exists rule :: rule in Look(rules, "nat", target)
                           && (Occurs(rule, "--to-destination " + ip + ":")
                               || Occurs(rule, "--to-destination " + ip + " "))
  }

  ghost predicate FirstSelecting(rules: Rules, lines: seq<string>, ip: string, byName: bool, k: nat, target: string) {
    && k < |lines| && SelectsBy(rules, lines[k], ip, byName, target)
    && forall j, other | 0 <= j < k :: !SelectsBy(rules, lines[j], ip, byName, other)
  }

  ghost predicate SomeSelecting(rules: Rules, lines: seq<string>, ip: string, byName: bool) {
    exists k: nat, target :: FirstSelecting(rules, lines, ip, byName, k, target)
  }

  /** The endpoint chain of a flow: that of the first rule that names its target address; without any, that of the first
      rule whose chain rewrites to this address; without any, none. */
  ghost predicate ChosenEndpoint(rules: Rules, lines: seq<string>, ip: string, endpoint: string) {
    if SomeSelecting(rules, lines, ip, true) then exists k: nat :: FirstSelecting(rules, lines, ip, true, k, endpoint)
    else if SomeSelecting(rules, lines, ip, false) then exists k: nat ::
      FirstSelecting(rules, lines, ip, false, k, endpoint)
    else endpoint == ""
  }

  lemma RewritesExactly(line: string, ip: string)
    ensures RewritesTo(line, ip)
            <==> Occurs(line, "--to-destination " + ip + ":") || Occurs(line, "--to-destination " + ip + " ")
  {
    ContainsExactly(line, "--to-destination " + ip + ":");
    ContainsExactly(line, "--to-destination " + ip + " ");
  }

  lemma SelectsByExactly(rules: Rules, line: string, ip: string, target: string)
    ensures SelectsBy(rules, line, ip, true, target) <==> target == JumpTarget(line) && NamesTarget(line, ip)
    ensures SelectsBy(rules, line, ip, false, target) <==> target == JumpTarget(line) && JumpsToTarget(rules, line, ip)
  {
    hide JumpTarget, Contains, Occurs, Jumps, RewritesTo, Look;
    JumpExactly(line);
    if Jumps(line, target) {
      JumpsOnce(line, target, JumpTarget(line));
    }
    ContainsExactly(line, ip);
    var lines := Look(rules, "nat", target);
    forall i | 0 <= i < |lines|
      ensures RewritesTo(lines[i], ip)
              <==> Occurs(lines[i], "--to-destination " + ip + ":") || Occurs(lines[i], "--to-destination " + ip + " ")
    {
      RewritesExactly(lines[i], ip);
    }
  }

  lemma EndpointExactly(rules: Rules, lines: seq<string>, ip: string)
    ensures ChosenEndpoint(rules, lines, ip, EndpointChain(rules, lines, ip))
    ensures EndpointChain(rules, lines, ip) != "" ==> HasPrefix(EndpointChain(rules, lines, ip), "KUBE-SEP-")
  {
    hide JumpTarget, NamesTarget, JumpsToTarget, SelectsBy;
    var naming, rewriting := FirstNaming(lines, ip), FirstRewriting(rules, lines, ip);
    forall j, target | 0 <= j < |lines|
      ensures SelectsBy(rules, lines[j], ip, true, target)
              <==> target == JumpTarget(lines[j]) && NamesTarget(lines[j], ip)
      ensures SelectsBy(rules, lines[j], ip, false, target)
              <==> target == JumpTarget(lines[j]) && JumpsToTarget(rules, lines[j], ip)
    {
      SelectsByExactly(rules, lines[j], ip, target);
    }
    if naming < |lines| {
      assert FirstSelecting(rules, lines, ip, true, naming, JumpTarget(lines[naming]));
      NamedIsEndpoint(rules, lines[naming], ip);
    } else if rewriting < |lines| {
      assert FirstSelecting(rules, lines, ip, false, rewriting, JumpTarget(lines[rewriting]));
      NamedIsEndpoint(rules, lines[rewriting], ip);
    }
  }

  lemma NamedIsEndpoint(rules: Rules, line: string, ip: string)
    requires NamesTarget(line, ip) || JumpsToTarget(rules, line, ip)
    ensures HasPrefix(JumpTarget(line), "KUBE-SEP-")
  {
  }

  // ----- the rewrite of an endpoint -----

  predicate Rewrites(line: string) {
    exists i | 0 <= i < |Fields(line)| - 1 :: Fields(line)[i] == "--to-destination"
  }

  /** The destination that the first rewriting rule gives, or a general text without one. */
  ghost predicate RewriteText(lines: seq<string>, text: string) {
    if exists k :: 0 <= k < |lines| && Rewrites(lines[k])
    then exists k :: RewriteAt(lines, k, text)
    else text == "DNAT endpoint"
  }

  lemma RewritesFirst(line: string)
    ensures Rewrites(line) <==> |Fields(line)| > 0 && "--to-destination" in Fields(line)[..|Fields(line)| - 1]
    ensures Follows(Fields(line), {"--to-destination"}, FieldAfter(Fields(line), {"--to-destination"}))
  {
    hide Fields;
    FieldAfterExactly(Fields(line), {"--to-destination"});
  }

  ghost predicate RewriteAt(lines: seq<string>, k: int, text: string) {
    && 0 <= k < |lines| && Rewrites(lines[k]) && (forall j | 0 <= j < k :: !Rewrites(lines[j]))
    && exists to :: Follows(Fields(lines[k]), {"--to-destination"}, to) && text == "DNAT " + to
  }

  lemma {:induction false} DnatActionExactly(lines: seq<string>)
    ensures RewriteText(lines, DnatAction(lines))
  {
    hide Fields, Rewrites, Follows, FieldAfter;
    if lines != [] {
      RewritesFirst(lines[0]);
      if Rewrites(lines[0]) {
        assert RewriteAt(lines, 0, DnatAction(lines));
      } else {
        var rest := lines[1..];
        DnatActionExactly(rest);
        assert forall k | 0 <= k < |rest| :: rest[k] == lines[k + 1];
        assert forall k | 0 < k < |lines| :: lines[k] == rest[k - 1];
        if exists k :: 0 <= k < |rest| && Rewrites(rest[k]) {
          var k :| RewriteAt(rest, k, DnatAction(rest));
          assert RewriteAt(lines, k + 1, DnatAction(lines));
        }
      }
    }
  }

  // ----- the service steps -----

  function ServiceStep(chain: string, action: string): Step {
    Step(ServiceDNAT, "nat", chain, action, ChainPurpose(chain))
  }

  /** From KUBE-SERVICES into the target chain, and on to the endpoint if one is selected. */
  ghost predicate PathInto(rules: Rules, ip: string, target: string, steps: seq<Step>) {
    var lines := Look(rules, "nat", target);
    if ChosenEndpoint(rules, lines, ip, "") then
      && steps == [ServiceStep("KUBE-SERVICES", "jump " + target)]
                  + if target == "KUBE-SERVICES" then [] else [ServiceStep(target, "")]
    else exists endpoint, text ::
      && ChosenEndpoint(rules, lines, ip, endpoint) && RewriteText(Look(rules, "nat", endpoint), text)
      && steps == (if target == "KUBE-SERVICES" then [ServiceStep("KUBE-SERVICES", "select " + endpoint)]
                   else [ServiceStep("KUBE-SERVICES", "jump " + target), ServiceStep(target, "select " + endpoint)])
                  + if endpoint == target then [] else [ServiceStep(endpoint, text)]
  }

  /** The service steps of a flow: none without a rule for its service that jumps somewhere, else the path into the
      chain that the first such rule jumps to. */
  ghost predicate ServicePath(rules: Rules, traffic: Traffic, steps: seq<Step>) {
    var entries := Look(rules, "nat", "KUBE-SERVICES");
    if exists k: nat, target :: Enters(entries, traffic, k, target) then
      exists k: nat, target :: Enters(entries, traffic, k, target) && PathInto(rules, traffic.targetIP, target, steps)
    else steps == []
  }

  lemma EndpointOnce(rules: Rules, lines: seq<string>, ip: string, a: string)
    requires ChosenEndpoint(rules, lines, ip, a)
    ensures a == EndpointChain(rules, lines, ip)
  {
    hide JumpTarget, NamesTarget, JumpsToTarget, SelectsBy;
    EndpointExactly(rules, lines, ip);
    forall j, target | 0 <= j < |lines|
      ensures SelectsBy(rules, lines[j], ip, true, target) ==> target == JumpTarget(lines[j])
      ensures SelectsBy(rules, lines[j], ip, false, target) ==> target == JumpTarget(lines[j])
    {
      SelectsByExactly(rules, lines[j], ip, target);
    }
  }

  lemma ServiceStepsExactly(rules: Rules, traffic: Traffic)
    ensures ServicePath(rules, traffic, ServiceSteps(rules, traffic))
  {
    hide JumpTarget, Look, DnatAction, ChainPurpose, Enters, ChosenEndpoint, RewriteText, EndpointChain;
    var service, ip := ServiceChain(rules, traffic), traffic.targetIP;
    var entries := Look(rules, "nat", "KUBE-SERVICES");
    EntersExactly(rules, traffic, service);
    if service == "" {
      forall k: nat, target ensures !Enters(entries, traffic, k, target) {
        EntersExactly(rules, traffic, target);
        EntersSomewhere(entries, traffic, k, target);
      }
    } else {
      var k: nat :| Enters(entries, traffic, k, service);
      var lines := Look(rules, "nat", service);
      var endpoint := EndpointChain(rules, lines, ip);
      EndpointExactly(rules, lines, ip);
      DnatActionExactly(Look(rules, "nat", endpoint));
      if ChosenEndpoint(rules, lines, ip, "") {
        EndpointOnce(rules, lines, ip, "");
      }
      assert PathInto(rules, ip, service, ServiceSteps(rules, traffic)) by {
        StepsInto(rules, traffic, service, endpoint);
      }
    }
  }

  lemma EntersSomewhere(entries: seq<string>, traffic: Traffic, k: nat, target: string)
    ensures Enters(entries, traffic, k, target) ==> target != ""
  {
  }

  lemma StepsInto(rules: Rules, traffic: Traffic, service: string, endpoint: string)
    requires service == ServiceChain(rules, traffic) != ""
    requires endpoint == EndpointChain(rules, Look(rules, "nat", service), traffic.targetIP)
    requires ChosenEndpoint(rules, Look(rules, "nat", service), traffic.targetIP, endpoint)
    requires ChosenEndpoint(rules, Look(rules, "nat", service), traffic.targetIP, "") <==> endpoint == ""
    requires endpoint != "" ==> HasPrefix(endpoint, "KUBE-SEP-")
    requires RewriteText(Look(rules, "nat", endpoint), DnatAction(Look(rules, "nat", endpoint)))
    ensures PathInto(rules, traffic.targetIP, service, ServiceSteps(rules, traffic))
  {
    hide JumpTarget, Look, DnatAction, ChainPurpose, ChosenEndpoint, RewriteText, EndpointChain, ServiceChain;
    assert endpoint != "KUBE-SERVICES" by {
      assert "KUBE-SERVICES"[7] != "KUBE-SEP-"[7];
    }
    var entry, second := ServiceStep("KUBE-SERVICES", "jump " + service), ServiceStep(service, "");
    var steps := if service == "KUBE-SERVICES" then [entry] else [entry, second];
    assert [entry][0] == entry && (SamePlace(entry, second) <==> service == "KUBE-SERVICES");
    assert Appended([entry], second) == steps;
    if endpoint == "" {
      assert steps == [entry] + if service == "KUBE-SERVICES" then [] else [second];
    } else {
      var text, last := DnatAction(Look(rules, "nat", endpoint)), |steps| - 1;
      var selected := steps[last := steps[last].(action := "select " + endpoint)];
      var third := ServiceStep(endpoint, text);
      assert selected == if service == "KUBE-SERVICES" then [ServiceStep("KUBE-SERVICES", "select " + endpoint)]
                         else [entry, ServiceStep(service, "select " + endpoint)];
      assert SamePlace(selected[last], third) <==> endpoint == service;
      assert !SamePlace(selected[0], third) || last == 0;
      assert Appended(selected, third) == selected + if endpoint == service then [] else [third];
    }
  }

  // ----- interfaces and dispatch -----

  /** The route goes to exactly this address, and names an interface. */
  predicate RouteTo(route: string, ip: string) {
    var fields := Fields(route);
    && |fields| >= 3 && (fields[0] == ip + "/32" || (fields[0] == ip && TrimSuffix(ip, "/32") == ip))
    && exists i | 1 <= i < |fields| - 1 :: fields[i] == "dev"
  }

  /** The interface that the first such route names after "dev"; none without an address or such a route. */
  ghost predicate Interface(routes: seq<string>, ip: string, iface: string) {
    if ip != "" && exists k :: 0 <= k < |routes| && RouteTo(routes[k], ip) then exists k ::
      RouteAt(routes, ip, k, iface)
    else iface == ""
  }

  ghost predicate RouteAt(routes: seq<string>, ip: string, k: int, iface: string) {
    && 0 <= k < |routes| && RouteTo(routes[k], ip) && (forall j | 0 <= j < k :: !RouteTo(routes[j], ip))
    && Follows(Fields(routes[k])[1..], {"dev"}, iface)
  }

  lemma RouteToExactly(route: string, ip: string)
    ensures var fields := Fields(route);
            && (RouteTo(route, ip)
                <==> |fields| >= 3 && TrimSuffix(fields[0], "/32") == ip && "dev" in fields[1..|fields| - 1])
            && (|fields| >= 3 ==> Follows(fields[1..], {"dev"}, FieldAfter(fields[1..], {"dev"})))
  {
    hide Fields;
    var fields := Fields(route);
    if |fields| >= 3 {
      FieldAfterExactly(fields[1..], {"dev"});
      if fields[0] == ip + "/32" {
        assert fields[0][..|ip|] == ip;
      }
      if TrimSuffix(fields[0], "/32") == ip && fields[0] != ip {
        assert fields[0] == fields[0][..|ip|] + fields[0][|ip|..];
      }
      if i :| 1 <= i < |fields| - 1 && fields[i] == "dev" {
        assert fields[1..|fields| - 1][i - 1] == "dev";
      }
    }
  }

  lemma {:induction false} InterfaceExactly(routes: seq<string>, ip: string)
    ensures Interface(routes, ip, WorkloadInterface(routes, ip))
  {
    hide Fields, RouteTo, Follows, FieldAfter, TrimSuffix;
    if ip != "" && routes != [] {
      RouteToExactly(routes[0], ip);
      var rest := routes[1..];
      if RouteTo(routes[0], ip) {
        assert RouteAt(routes, ip, 0, WorkloadInterface(routes, ip));
      } else {
        InterfaceExactly(rest, ip);
        assert forall k | 0 <= k < |rest| :: rest[k] == routes[k + 1];
        assert forall k | 0 < k < |routes| :: routes[k] == rest[k - 1];
        if exists k :: 0 <= k < |rest| && RouteTo(rest[k], ip) {
          var k :| RouteAt(rest, ip, k, WorkloadInterface(rest, ip));
          assert RouteAt(routes, ip, k + 1, WorkloadInterface(routes, ip));
        }
      }
    }
  }

  /** The rule has the direction directly followed by the interface. */
  ghost predicate IsOn(line: string, direction: string, iface: string) {
    exists before: seq<string>, after :: Fields(line) == before + [direction, iface] + after
  }

  lemma IsOnExactly(line: string, direction: string, iface: string)
    ensures Dispatches(line, direction, iface) <==> IsOn(line, direction, iface)
  {
    hide Fields;
    var fields := Fields(line);
    if i :| 0 <= i < |fields| - 1 && fields[i] == direction && fields[i + 1] == iface {
      assert fields == fields[..i] + [direction, iface] + fields[i + 2..];
    }
    if before: seq<string>, after :| fields == before + [direction, iface] + after {
      assert fields[|before|] == direction && fields[|before| + 1] == iface;
    }
  }

  /** The jump target of the first rule for the interface in this direction; none without such a rule. */
  ghost predicate Dispatched(lines: seq<string>, direction: string, iface: string, target: string) {
    if exists k :: 0 <= k < |lines| && IsOn(lines[k], direction, iface)
    then exists k :: DispatchedAt(lines, direction, iface, k, target)
    else target == ""
  }

  ghost predicate DispatchedAt(lines: seq<string>, direction: string, iface: string, k: int, target: string) {
    && 0 <= k < |lines| && IsOn(lines[k], direction, iface)
    && (forall j | 0 <= j < k :: !IsOn(lines[j], direction, iface)) && Jumps(lines[k], target)
  }

  lemma {:induction false} DispatchExactly(lines: seq<string>, direction: string, iface: string)
    ensures Dispatched(lines, direction, iface, DispatchTarget(lines, direction, iface))
  {
    hide Dispatches, Jumps, JumpTarget, IsOn;
    if lines != [] {
      var rest := lines[1..];
      JumpExactly(lines[0]);
      IsOnExactly(lines[0], direction, iface);
      if Dispatches(lines[0], direction, iface) {
        assert DispatchedAt(lines, direction, iface, 0, DispatchTarget(lines, direction, iface));
      } else {
        DispatchExactly(rest, direction, iface);
        assert forall k | 0 <= k < |rest| :: rest[k] == lines[k + 1];
        assert forall k | 0 < k < |lines| :: lines[k] == rest[k - 1];
        if exists k :: 0 <= k < |rest| && IsOn(rest[k], direction, iface) {
          var k :| DispatchedAt(rest, direction, iface, k, DispatchTarget(rest, direction, iface));
          assert DispatchedAt(lines, direction, iface, k + 1, DispatchTarget(lines, direction, iface));
        }
      }
    }
  }

  // ----- the order of a trace -----

  /** What a trace may show at one place of the packet's way. */
  datatype Stop = Stop(chain: string, action: string, purpose: Purpose)

  /** The steps are some of the stops from `low` on and before `high`, in their order. */
  ghost predicate InOrder(steps: seq<Step>, stage: Stage, stops: seq<Stop>, low: nat, high: nat) {
    high <= |stops| && exists at :: PlacedAt(steps, stage, stops, low, high, at)
  }

  /** The i-th step is the stop number at[i]. */
  ghost predicate PlacedAt(steps: seq<Step>, stage: Stage, stops: seq<Stop>, low: nat, high: nat, at: seq<nat>)
    requires high <= |stops|
  {
    && |at| == |steps| && (forall i, j | 0 <= i < j < |at| :: at[i] < at[j])
    && forall i | 0 <= i < |at| :: low <= at[i] < high && ShowsStop(steps[i], stage, stops[at[i]])
  }

  predicate ShowsStop(step: Step, stage: Stage, stop: Stop) {
    step.stage == stage && step.chain == stop.chain && step.action == stop.action && step.purpose == stop.purpose
  }

  /** The way of a packet that leaves its workload. */
  function SourceStops(policy: string, iface: string): seq<Stop> {
    [Stop("cali-PREROUTING", "", PreRoutingOut), Stop("cali-FORWARD", "", CalicoForward),
     Stop("cali-from-wl-dispatch", "", FromWorkloadDispatch), Stop(policy, "policy for " + iface, ChainPurpose(policy)),
     Stop("KUBE-FORWARD", "", KubeForward), Stop("cali-POSTROUTING", "", PostRouting)]
  }

  /** The way of a packet that enters its workload. */
  function TargetStops(policy: string, iface: string): seq<Stop> {
    [Stop("cali-PREROUTING", "", PreRoutingIn), Stop("cali-FORWARD", "", CalicoForward),
     Stop("cali-to-wl-dispatch", "", ToWorkloadDispatch), Stop(policy, "policy for " + iface, ChainPurpose(policy)),
     Stop("KUBE-FORWARD", "", KubeForward)]
  }

  lemma NothingInOrder(stage: Stage, stops: seq<Stop>, low: nat, high: nat)
    requires high <= |stops|
    ensures InOrder([], stage, stops, low, high)
  {
    assert PlacedAt([], stage, stops, low, high, []);
  }

  lemma OneMoreInOrder(steps: seq<Step>, stage: Stage, stops: seq<Stop>, low: nat, high: nat, step: Step)
    requires InOrder(steps, stage, stops, low, high) && low <= high < |stops|
    ensures InOrder(steps, stage, stops, low, high + 1)
    ensures ShowsStop(step, stage, stops[high]) ==> InOrder(steps + [step], stage, stops, low, high + 1)
  {
    hide ShowsStop;
    var at: seq<nat> :| PlacedAt(steps, stage, stops, low, high, at);
    assert PlacedAt(steps, stage, stops, low, high + 1, at);
    if ShowsStop(step, stage, stops[high]) {
      PlacedMore(steps, stage, stops, low, high, at, step);
    }
  }

  lemma PlacedMore(steps: seq<Step>, stage: Stage, stops: seq<Stop>, low: nat, high: nat, at: seq<nat>, step: Step)
    requires low <= high < |stops| && PlacedAt(steps, stage, stops, low, high, at)
             && ShowsStop(step, stage, stops[high])
    ensures PlacedAt(steps + [step], stage, stops, low, high + 1, at + [high])
  {
    hide ShowsStop;
  }

  /** The steps before `cut` stay, and those after it go on through the stops. */
  ghost predicate Continues(steps: seq<Step>, cut: nat, stage: Stage, stops: seq<Stop>, low: nat, high: nat) {
    cut <= |steps| && InOrder(steps[cut..], stage, stops, low, high)
  }

  lemma AppendedContinues(steps: seq<Step>, cut: nat, stage: Stage, stops: seq<Stop>, low: nat, high: nat, step: Step)
    requires Continues(steps, cut, stage, stops, low, high) && low <= high < |stops|
    requires ShowsStop(step, stage, stops[high])
    ensures Continues(Appended(steps, step), cut, stage, stops, low, high + 1)
    ensures steps <= Appended(steps, step)
  {
    hide InOrder;
    OneMoreInOrder(steps[cut..], stage, stops, low, high, step);
    assert (steps + [step])[cut..] == steps[cut..] + [step];
  }

  lemma {:induction false} HookContinues(steps: seq<Step>, cut: nat, rules: Rules, stage: Stage, stops: seq<Stop>,
          low: nat, high: nat, tables: seq<string>)
    requires Continues(steps, cut, stage, stops, low, high) && low <= high < |stops| && stops[high].action == ""
    ensures var out := WithHook(steps, rules, stage, tables, stops[high].chain, stops[high].purpose);
            Continues(out, cut, stage, stops, low, high + 1) && steps <= out
  {
    hide InOrder, Declared;
    if tables == [] {
      OneMoreInOrder(steps[cut..], stage, stops, low, high, Step(stage, "", "", "", stops[high].purpose));
    } else if Declared(rules, tables[0], stops[high].chain) {
      AppendedContinues(steps, cut, stage, stops, low, high,
                        Step(stage, tables[0], stops[high].chain, "", stops[high].purpose));
    } else {
      HookContinues(steps, cut, rules, stage, stops, low, high, tables[1..]);
    }
  }

  lemma EndpointContinues(steps: seq<Step>, cut: nat, rules: Rules, side: Side, stops: seq<Stop>, low: nat, high: nat)
    requires Continues(steps, cut, side.stage, stops, low, high) && low <= high < |stops|
    requires stops[high]
          == Stop(PolicyChain(rules, side), "policy for " + side.iface, ChainPurpose(PolicyChain(rules, side)))
    ensures var out := WithEndpoint(steps, rules, side.stage, side.dispatch, side.direction, side.iface);
            Continues(out, cut, side.stage, stops, low, high + 1) && steps <= out
  {
    hide InOrder, DispatchTarget, ChainPurpose;
    var step := Step(side.stage, "filter", stops[high].chain, stops[high].action, stops[high].purpose);
    if side.iface == "" {
      OneMoreInOrder(steps[cut..], side.stage, stops, low, high, step);
    } else {
      AppendedContinues(steps, cut, side.stage, stops, low, high, step);
    }
  }

  lemma HookPurposes()
    ensures ChainPurpose("cali-FORWARD") == CalicoForward && ChainPurpose("KUBE-FORWARD") == KubeForward
    ensures ChainPurpose("cali-from-wl-dispatch") == FromWorkloadDispatch
    ensures ChainPurpose("cali-to-wl-dispatch") == ToWorkloadDispatch
  {
    hide ChainPurpose;
    HookNames();
    CalicoPurposes("cali-FORWARD");
    CalicoPurposes("cali-from-wl-dispatch");
    CalicoPurposes("cali-to-wl-dispatch");
    hide ToLower, ToUpper;
    assert !("cali-" <= "kube-forward") by {
      assert "kube-forward"[0] != 'c';
    }
    KubernetesPurposes("KUBE-FORWARD");
  }

  lemma HookNames()
    ensures ToLower("cali-FORWARD") == "cali-forward" && ToUpper("KUBE-FORWARD") == "KUBE-FORWARD"
    ensures ToLower("KUBE-FORWARD") == "kube-forward" && ToLower("cali-from-wl-dispatch") == "cali-from-wl-dispatch"
    ensures ToLower("cali-to-wl-dispatch") == "cali-to-wl-dispatch"
  {
  }

  /** A source trace shows, in this order: pre-routing; the service steps, which are none for a flow without a service
      address; and then, in the order of the packet's way, forwarding, dispatch, policy, Kubernetes forwarding,
      post-routing. */
  lemma SourceTraceOrder(rules: Rules, routes: seq<string>, traffic: Traffic)
    ensures var side, steps := SourceSide(routes, traffic), SourceSteps(rules, routes, traffic);
            var stops := SourceStops(PolicyChain(rules, side), side.iface);
            exists a: nat, b: nat ::
              && a <= b <= |steps| && InOrder(steps[..a], SourceEgress, stops, 0, 1)
              && (if traffic.serviceIP == "" then a == b else ServicePath(rules, traffic, steps[a..b]))
              && InOrder(steps[b..], SourceEgress, stops, 1, 6)
  {
    hide InOrder, WithHook, WithEndpoint, ChainPurpose, WorkloadInterface, ServiceSteps, PolicyChain, ServicePath;
    HookPurposes();
    ServiceStepsExactly(rules, traffic);
    var side, stage := SourceSide(routes, traffic), SourceEgress;
    var stops := SourceStops(PolicyChain(rules, side), side.iface);
    NothingInOrder(stage, stops, 0, 0);
    HookContinues([], 0, rules, stage, stops, 0, 0, ["raw", "mangle", "nat"]);
    var s0 := WithHook([], rules, stage, ["raw", "mangle", "nat"], "cali-PREROUTING", PreRoutingOut);
    assert s0[0..] == s0;
    var s1 := if traffic.serviceIP != "" then s0 + ServiceSteps(rules, traffic) else s0;
    var cut := |s1|;
    NothingInOrder(stage, stops, 1, 1);
    assert s1[cut..] == [];
    HookContinues(s1, cut, rules, stage, stops, 1, 1, ["filter"]);
    var s2 := WithHook(s1, rules, stage, ["filter"], "cali-FORWARD", CalicoForward);
    HookContinues(s2, cut, rules, stage, stops, 1, 2, ["filter"]);
    var s3 := WithHook(s2, rules, stage, ["filter"], "cali-from-wl-dispatch", FromWorkloadDispatch);
    EndpointContinues(s3, cut, rules, side, stops, 1, 3);
    var s4 := WithEndpoint(s3, rules, stage, side.dispatch, side.direction, side.iface);
    HookContinues(s4, cut, rules, stage, stops, 1, 4, ["filter"]);
    var s5 := WithHook(s4, rules, stage, ["filter"], "KUBE-FORWARD", KubeForward);
    HookContinues(s5, cut, rules, stage, stops, 1, 5, ["mangle", "nat"]);
    var steps := WithHook(s5, rules, stage, ["mangle", "nat"], "cali-POSTROUTING", PostRouting);
    assert steps == SourceSteps(rules, routes, traffic);
    assert s1 <= steps && steps[..|s0|] == s0 && steps[|s0|..cut] == s1[|s0|..];
    assert traffic.serviceIP != "" ==> s1[|s0|..] == ServiceSteps(rules, traffic);
  }

  /** The same for a target trace, which has no service steps. */
  lemma TargetTraceOrder(rules: Rules, routes: seq<string>, traffic: Traffic)
    ensures var side := TargetSide(routes, traffic);
            InOrder(TargetSteps(rules, routes, traffic), TargetIngress,
                    TargetStops(PolicyChain(rules, side), side.iface), 0, 5)
  {
    hide InOrder, WithHook, WithEndpoint, ChainPurpose, WorkloadInterface, PolicyChain;
    HookPurposes();
    var side, stage := TargetSide(routes, traffic), TargetIngress;
    var stops := TargetStops(PolicyChain(rules, side), side.iface);
    NothingInOrder(stage, stops, 0, 0);
    HookContinues([], 0, rules, stage, stops, 0, 0, ["raw", "mangle", "nat"]);
    var s0 := WithHook([], rules, stage, ["raw", "mangle", "nat"], "cali-PREROUTING", PreRoutingIn);
    HookContinues(s0, 0, rules, stage, stops, 0, 1, ["filter"]);
    var s1 := WithHook(s0, rules, stage, ["filter"], "cali-FORWARD", CalicoForward);
    HookContinues(s1, 0, rules, stage, stops, 0, 2, ["filter"]);
    var s2 := WithHook(s1, rules, stage, ["filter"], "cali-to-wl-dispatch", ToWorkloadDispatch);
    EndpointContinues(s2, 0, rules, side, stops, 0, 3);
    var s3 := WithEndpoint(s2, rules, stage, side.dispatch, side.direction, side.iface);
    HookContinues(s3, 0, rules, stage, stops, 0, 4, ["filter"]);
    var steps := WithHook(s3, rules, stage, ["filter"], "KUBE-FORWARD", KubeForward);
    assert steps[0..] == steps;
  }

  // ----- what chains are for -----

  const SERVICE_CHAINS :=
    {"KUBE-SERVICES", "KUBE-NODEPORTS", "KUBE-EXTERNAL-SERVICES", "KUBE-MARK-MASQ", "KUBE-POSTROUTING"}

  /** Chains of Calico and the forwarding chain of Kubernetes forward pod traffic; chains of services, of their
      endpoints and their external policies, and five fixed chains are for services; in whatever case. */
  lemma CategoryExactly(chain: string)
    ensures var lower, upper := ToLower(chain), ToUpper(chain);
            var pods := "cali-" <= lower || upper == "KUBE-FORWARD";
            var services := "KUBE-SVC-" <= upper || "KUBE-SEP-" <= upper || "KUBE-EXT-" <= upper
              || upper in SERVICE_CHAINS;
            ChainCategory(chain) == if pods then "pod-forward" else if services then "service" else ""
  {
    hide ToLower, ToUpper;
  }

  /** The purpose of a chain, by its name in lower case for Calico and in upper case for Kubernetes. */
  lemma CalicoPurposes(chain: string)
    ensures var lower, purpose := ToLower(chain), ChainPurpose(chain);
            && (lower == "cali-forward" ==> purpose == CalicoForward)
            && (lower == "cali-from-wl-dispatch" ==> purpose == FromWorkloadDispatch)
            && (lower == "cali-to-wl-dispatch" ==> purpose == ToWorkloadDispatch)
            && ("cali-fw-" <= lower ==> purpose == FromWorkload) && ("cali-tw-" <= lower ==> purpose == ToWorkload)
            && ("cali-pri-" <= lower || "cali-pro-" <= lower ==> purpose == Profile)
  {
    hide ToLower, ToUpper;
    var lower := ToLower(chain);
    if "cali-fw-" <= lower {
      assert lower[6] == 'w' && "cali-forward"[6] == 'o' && "cali-from-wl-dispatch"[6] == 'r' && lower[5] == 'f';
    }
    if "cali-tw-" <= lower {
      assert lower[6] == 'w' && "cali-to-wl-dispatch"[6] == 'o' && lower[5] == 't';
    }
    if "cali-pri-" <= lower || "cali-pro-" <= lower {
      assert lower[5] == 'p';
    }
  }

  const KUBE_PURPOSES: map<string, Purpose> := map[
    "KUBE-FORWARD" := KubeForward, "KUBE-SERVICES" := ServiceEntry, "KUBE-NODEPORTS" := NodePorts,
    "KUBE-EXTERNAL-SERVICES" := ExternalGuard, "KUBE-MARK-MASQ" := MarkMasquerade, "KUBE-POSTROUTING" := Masquerade]

  lemma KubernetesPurposes(chain: string)
    requires !("cali-" <= ToLower(chain))
    ensures var upper, purpose := ToUpper(chain), ChainPurpose(chain);
            && (upper in KUBE_PURPOSES ==> purpose == KUBE_PURPOSES[upper])
            && ("KUBE-SVC-" <= upper ==> purpose == PerService) && ("KUBE-SEP-" <= upper ==> purpose == PerEndpoint)
            && ("KUBE-EXT-" <= upper ==> purpose == ExternalPolicy)
            && (upper !in KUBE_PURPOSES && !("KUBE-SVC-" <= upper) && !("KUBE-SEP-" <= upper) && !("KUBE-EXT-" <= upper)
                ==> purpose == Captured)
  {
    hide ToLower, ToUpper;
    NotCalico(ToLower(chain));
    OneKind(ToUpper(chain));
  }

  lemma OneKind(upper: string)
    ensures "KUBE-SVC-" <= upper ==> !("KUBE-SEP-" <= upper) && !("KUBE-EXT-" <= upper) && upper !in KUBE_PURPOSES
    ensures "KUBE-SEP-" <= upper ==> !("KUBE-EXT-" <= upper) && upper !in KUBE_PURPOSES
    ensures "KUBE-EXT-" <= upper ==> upper !in KUBE_PURPOSES
  {
    if "KUBE-SVC-" <= upper {
      assert upper[6] == 'V' && upper[5] == 'S';
    } else if "KUBE-SEP-" <= upper {
      assert upper[7] == 'P' && upper[6] == 'E' && "KUBE-SERVICES"[7] == 'R';
    } else if "KUBE-EXT-" <= upper {
      assert upper[8] == '-' && "KUBE-EXTERNAL-SERVICES"[8] == 'E' && upper[5] == 'E';
    }
  }

  lemma NotCalico(lower: string)
    requires !("cali-" <= lower)
    ensures lower != "cali-forward" && lower != "cali-from-wl-dispatch" && lower != "cali-to-wl-dispatch"
    ensures !("cali-fw-" <= lower) && !("cali-tw-" <= lower) && !("cali-pri-" <= lower) && !("cali-pro-" <= lower)
  {
    assert "cali-fw-"[..5] == "cali-" && "cali-tw-"[..5] == "cali-" && "cali-pri-"[..5] == "cali-";
    assert "cali-pro-"[..5] == "cali-" && "cali-forward"[..5] == "cali-" && "cali-from-wl-dispatch"[..5] == "cali-";
    assert "cali-to-wl-dispatch"[..5] == "cali-";
  }
}
