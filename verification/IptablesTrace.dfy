/** Tracing one observed flow through the parsed chains of its source and target node
    (internal/analyzer/network.go). */
module IptablesTrace {
  import opened Text
  import Sorting
  import opened IptablesRules

  type int32 = n: int | -0x8000_0000 <= n < 0x8000_0000

  datatype Traffic = Traffic(protocol: string, sourceIP: string, targetIP: string, serviceIP: string, port: int32)

  datatype Stage = SourceEgress | ServiceDNAT | TargetIngress

  /** What a step is for; the wording shown to users is not modelled. */
  datatype Purpose =
    | PreRoutingOut | PreRoutingIn | PostRouting
    | CalicoForward | FromWorkloadDispatch | ToWorkloadDispatch | FromWorkload | ToWorkload | Profile
    | KubeForward | ServiceEntry | PerService | PerEndpoint | ExternalPolicy
    | NodePorts | ExternalGuard | MarkMasquerade | Masquerade | Captured

  datatype Step = Step(stage: Stage, table: string, chain: string, action: string, purpose: Purpose)

  // ----- chain names -----

  predicate IsPodForward(chain: string) {
    HasPrefix(ToLower(chain), "cali-") || ToUpper(chain) == "KUBE-FORWARD"
  }

  function ChainCategory(chain: string): string {
    var upper := ToUpper(chain);
    if IsPodForward(chain) then "pod-forward"
    else if HasPrefix(upper, "KUBE-SVC-") || HasPrefix(upper, "KUBE-SEP-")
      || HasPrefix(upper, "KUBE-EXT-") then "service"
    else if upper in {"KUBE-SERVICES", "KUBE-NODEPORTS", "KUBE-EXTERNAL-SERVICES", "KUBE-MARK-MASQ", "KUBE-POSTROUTING"}
    then "service"
    else ""
  }

  function ChainPurpose(chain: string): Purpose {
    var lower, upper := ToLower(chain), ToUpper(chain);
    if lower == "cali-forward" then CalicoForward
    else if lower == "cali-from-wl-dispatch" then FromWorkloadDispatch
    else if lower == "cali-to-wl-dispatch" then ToWorkloadDispatch
    else if HasPrefix(lower, "cali-fw-") then FromWorkload
    else if HasPrefix(lower, "cali-tw-") then ToWorkload
    else if HasPrefix(lower, "cali-pri-") || HasPrefix(lower, "cali-pro-") then Profile
    else if upper == "KUBE-FORWARD" then KubeForward
    else if upper == "KUBE-SERVICES" then ServiceEntry
    else if HasPrefix(upper, "KUBE-SVC-") then PerService
    else if HasPrefix(upper, "KUBE-SEP-") then PerEndpoint
    else if HasPrefix(upper, "KUBE-EXT-") then ExternalPolicy
    else if upper == "KUBE-NODEPORTS" then NodePorts
    else if upper == "KUBE-EXTERNAL-SERVICES" then ExternalGuard
    else if upper == "KUBE-MARK-MASQ" then MarkMasquerade
    else if upper == "KUBE-POSTROUTING" then Masquerade
    else Captured
  }

  // ----- reading single lines -----

  /** The field that follows the first occurrence of one of `flags`, or "". */
  function FieldAfter(fields: seq<string>, flags: set<string>): string {
    if |fields| < 2 then ""
    else if fields[0] in flags then fields[1]
    else FieldAfter(fields[1..], flags)
  }

  function JumpTarget(line: string): string {
    FieldAfter(Fields(line), {"-j", "-g"})
  }

  /** The line carries `direction` directly followed by `iface`. */
  predicate Dispatches(line: string, direction: string, iface: string) {
    var fields := Fields(line);
    exists i | 0 <= i < |fields| - 1 :: fields[i] == direction && fields[i + 1] == iface
  }

  /** The jump target of the first dispatching rule, or "". */
  function DispatchTarget(lines: seq<string>, direction: string, iface: string): string {
    if lines == [] then ""
    else if Dispatches(lines[0], direction, iface) then JumpTarget(lines[0])
    else DispatchTarget(lines[1..], direction, iface)
  }

  /** The interface named after "dev" on the first route to exactly `ip` that names one, or "". */
  function WorkloadInterface(routes: seq<string>, ip: string): string {
    if ip == "" || routes == [] then ""
    else
      var fields := Fields(routes[0]);
      if |fields| < 3 || TrimSuffix(fields[0], "/32") != ip || "dev" !in fields[1..|fields| - 1]
      then WorkloadInterface(routes[1..], ip)
      else FieldAfter(fields[1..], {"dev"})
  }

  /** 10 to the power `n`; 1 below 0, which makes it a bound no positive number stays under. */
  function PowerOfTen(n: int): nat {
    if n <= 0 then 1 else 10 * PowerOfTen(n - 1)
  }

  /** The digits still to be written, none unless the number is positive. */
  function Unwritten(rest: int): string {
    if rest > 0 then Decimal(rest) else ""
  }

  function LastDigit(n: nat): char {
    '0' + (n % 10) as char
  }

  function Followed(a: string, b: string): string {
    a + b
  }

  lemma WriteDigit(rest: nat, tail: string, longer: string, bound: int)
    requires 0 < rest < PowerOfTen(bound) && longer == [LastDigit(rest)] + tail
    ensures Followed(Unwritten(rest), tail) == Followed(Unwritten(rest / 10), longer)
  {
    var digit := [LastDigit(rest)];
    assert Decimal(rest) == Unwritten(rest / 10) + digit;
    Sorting.Associative(Unwritten(rest / 10), digit, tail);
  }

  lemma RoomLeft(rest: nat, bound: int)
    requires 0 < rest < PowerOfTen(bound)
    ensures 0 < bound && rest / 10 < PowerOfTen(bound - 1)
  {
  }

  lemma TenDigits(value: int32)
    ensures value < PowerOfTen(10)
  {
    assert PowerOfTen(5) == 100000;
  }

  lemma NumeralOf(value: int, text: string)
    ensures value > 0 ==> Followed(Unwritten(value), "") == Decimal(value)
    ensures value <= 0 ==> Followed(Unwritten(value), text) == text
  {
    assert Unwritten(value) + "" == Unwritten(value);
  }

  /** `int32String`: the numeral written backwards into an 11 byte buffer. */
  method Int32String(value: int32) returns (text: string)
    ensures value >= 0 ==> text == Decimal(value)
    ensures value < 0 ==> text == ""
  {
    if value == 0 {
      return "0";
    }
    hide Decimal, PowerOfTen, LastDigit, Unwritten, Followed;
    var digits := new char[11];
    var idx := digits.Length;
    var rest: int := value;
    TenDigits(value);
    assert digits[idx..] == "";
    while rest > 0
      invariant 1 <= idx <= 11 && rest < PowerOfTen(idx - 1)
      invariant Followed(Unwritten(value), "") == Followed(Unwritten(rest), digits[idx..])
    {
      ghost var tail := digits[idx..];
      RoomLeft(rest, idx - 1);
      idx := idx - 1;
      digits[idx] := LastDigit(rest);
      assert digits[idx..] == [digits[idx]] + tail;
      WriteDigit(rest, tail, digits[idx..], idx);
      rest := rest / 10;
    }
    text := digits[idx..];
    NumeralOf(value, text);
    NumeralOf(rest, text);
  }

  // ----- the service part of a trace -----

  /** `iptablesProtocol` */
  function IptablesProtocol(protocol: string): string {
    var lower := ToLower(protocol);
    if lower == "http" || lower == "https" then "tcp" else lower
  }

  /** A KUBE-SERVICES rule for the service address, port and protocol of the flow. */
  predicate MatchesService(line: string, traffic: Traffic) {
    var protocol := IptablesProtocol(traffic.protocol);
    && traffic.serviceIP != "" && Contains(line, traffic.serviceIP)
    && (traffic.port > 0 ==> Contains(line, "--dport " + Decimal(traffic.port)))
    && (protocol == "" || Contains(ToLower(line), "-p " + protocol))
  }

  predicate SelectsEndpoint(line: string) {
    HasPrefix(JumpTarget(line), "KUBE-SEP-")
  }

  predicate NamesTarget(line: string, ip: string) {
    SelectsEndpoint(line) && ip != "" && Contains(line, ip)
  }

  predicate RewritesTo(line: string, ip: string) {
    Contains(line, "--to-destination " + ip + ":") || Contains(line, "--to-destination " + ip + " ")
  }

  /** `endpointDNATMatches` */
  predicate EndpointRewritesTo(lines: seq<string>, ip: string) {
    ip != "" && exists i | 0 <= i < |lines| :: RewritesTo(lines[i], ip)
  }

  predicate JumpsToTarget(rules: Rules, line: string, ip: string) {
    SelectsEndpoint(line) && EndpointRewritesTo(Look(rules, "nat", JumpTarget(line)), ip)
  }

  /** The position of the first line that matches the flow's service, or `|lines|`. */
  function FirstService(lines: seq<string>, traffic: Traffic): (n: nat)
    ensures n <= |lines|
    ensures forall i | 0 <= i < n :: !MatchesService(lines[i], traffic)
    ensures n < |lines| ==> MatchesService(lines[n], traffic)
  {
    if lines == [] || MatchesService(lines[0], traffic) then 0 else 1 + FirstService(lines[1..], traffic)
  }

  function FirstNaming(lines: seq<string>, ip: string): (n: nat)
    ensures n <= |lines|
    ensures forall i | 0 <= i < n :: !NamesTarget(lines[i], ip)
    ensures n < |lines| ==> NamesTarget(lines[n], ip)
  {
    if lines == [] || NamesTarget(lines[0], ip) then 0 else 1 + FirstNaming(lines[1..], ip)
  }

  function FirstRewriting(rules: Rules, lines: seq<string>, ip: string): (n: nat)
    ensures n <= |lines|
    ensures forall i | 0 <= i < n :: !JumpsToTarget(rules, lines[i], ip)
    ensures n < |lines| ==> JumpsToTarget(rules, lines[n], ip)
  {
    if lines == [] || JumpsToTarget(rules, lines[0], ip) then 0 else 1 + FirstRewriting(rules, lines[1..], ip)
  }

  /** The endpoint chain: that of the first rule naming the target address, or else that of the first rule whose chain
      rewrites to it, or else none. */
  function EndpointChain(rules: Rules, lines: seq<string>, ip: string): string {
    var naming := FirstNaming(lines, ip);
    var rewriting := FirstRewriting(rules, lines, ip);
    if naming < |lines| then JumpTarget(lines[naming])
    else if rewriting < |lines| then JumpTarget(lines[rewriting])
    else ""
  }

  /** The chain the flow's service enters, or "". */
  function ServiceChain(rules: Rules, traffic: Traffic): string {
    var entries := Look(rules, "nat", "KUBE-SERVICES");
    var first := FirstService(entries, traffic);
    if first < |entries| then JumpTarget(entries[first]) else ""
  }

  /** `dnatAction` */
  function DnatAction(lines: seq<string>): string {
    if lines == [] then "DNAT endpoint"
    else
      var fields := Fields(lines[0]);
      if |fields| > 0 && "--to-destination" in fields[..|fields| - 1]
      then "DNAT " + FieldAfter(fields, {"--to-destination"})
      else DnatAction(lines[1..])
  }

  predicate SamePlace(a: Step, b: Step) {
    a.stage == b.stage && a.table == b.table && a.chain == b.chain
  }

  /** `appendTraceStep` on the value of the slice. */
  function Appended(steps: seq<Step>, step: Step): seq<Step> {
    if step.chain == "" || exists i | 0 <= i < |steps| :: SamePlace(steps[i], step) then steps else steps + [step]
  }

  /** The service steps of a trace: entry chain, service chain, endpoint chain, as far as they are found. */
  function ServiceSteps(rules: Rules, traffic: Traffic): seq<Step> {
    var service := ServiceChain(rules, traffic);
    if service == "" then []
    else
      var endpoint := EndpointChain(rules, Look(rules, "nat", service), traffic.targetIP);
      var entryStep := Step(ServiceDNAT, "nat", "KUBE-SERVICES", "jump " + service, ChainPurpose("KUBE-SERVICES"));
      var steps := Appended([entryStep], Step(ServiceDNAT, "nat", service, "", ChainPurpose(service)));
      if endpoint == "" then steps
      else
        var last := |steps| - 1;
        Appended(steps[last := steps[last].(action := "select " + endpoint)],
                 Step(ServiceDNAT, "nat", endpoint, DnatAction(Look(rules, "nat", endpoint)), ChainPurpose(endpoint)))
  }

  // ----- whole traces -----

  /** `appendExistingChain`: the step for the first of the tables that declares the chain. */
  function WithHook(steps: seq<Step>, rules: Rules, stage: Stage, tables: seq<string>, chain: string,
          purpose: Purpose): seq<Step> {
    if tables == [] then steps
    else if Declared(rules, tables[0], chain) then Appended(steps, Step(stage, tables[0], chain, "", purpose))
    else WithHook(steps, rules, stage, tables[1..], chain, purpose)
  }

  /** The step into the policy chain of the workload's interface. */
  function WithEndpoint(steps: seq<Step>, rules: Rules, stage: Stage, dispatch: string, direction: string,
          iface: string): seq<Step> {
    if iface == "" then steps
    else
      var target := DispatchTarget(Look(rules, "filter", dispatch), direction, iface);
      Appended(steps, Step(stage, "filter", target, "policy for " + iface, ChainPurpose(target)))
  }

  function SourceSteps(rules: Rules, routes: seq<string>, traffic: Traffic): seq<Step> {
    var stage := SourceEgress;
    var s0 := WithHook([], rules, stage, ["raw", "mangle", "nat"], "cali-PREROUTING", PreRoutingOut);
    var s1 := if traffic.serviceIP != "" then s0 + ServiceSteps(rules, traffic) else s0;
    var s2 := WithHook(s1, rules, stage, ["filter"], "cali-FORWARD", ChainPurpose("cali-FORWARD"));
    var s3 := WithHook(s2, rules, stage, ["filter"], "cali-from-wl-dispatch", ChainPurpose("cali-from-wl-dispatch"));
    var s4 := WithEndpoint(s3, rules, stage, "cali-from-wl-dispatch", "-i",
                           WorkloadInterface(routes, traffic.sourceIP));
    var s5 := WithHook(s4, rules, stage, ["filter"], "KUBE-FORWARD", ChainPurpose("KUBE-FORWARD"));
    WithHook(s5, rules, stage, ["mangle", "nat"], "cali-POSTROUTING", PostRouting)
  }

  function TargetSteps(rules: Rules, routes: seq<string>, traffic: Traffic): seq<Step> {
    var stage := TargetIngress;
    var s0 := WithHook([], rules, stage, ["raw", "mangle", "nat"], "cali-PREROUTING", PreRoutingIn);
    var s1 := WithHook(s0, rules, stage, ["filter"], "cali-FORWARD", ChainPurpose("cali-FORWARD"));
    var s2 := WithHook(s1, rules, stage, ["filter"], "cali-to-wl-dispatch", ChainPurpose("cali-to-wl-dispatch"));
    var s3 := WithEndpoint(s2, rules, stage, "cali-to-wl-dispatch", "-o", WorkloadInterface(routes, traffic.targetIP));
    WithHook(s3, rules, stage, ["filter"], "KUBE-FORWARD", ChainPurpose("KUBE-FORWARD"))
  }

  /** The slice of steps that the trace functions extend through a pointer. */
  class Trace {
    var steps: seq<Step>

    constructor ()
      ensures steps == []
    {
      steps := [];
    }

    method AppendStep(step: Step)
      modifies this
      ensures steps == Appended(old(steps), step)
    {
      if step.chain == "" {
        return;
      }
      for i := 0 to |steps|
        invariant steps == old(steps)
        invariant forall k | 0 <= k < i :: !SamePlace(steps[k], step)
      {
        if SamePlace(steps[i], step) {
          return;
        }
      }
      steps := steps + [step];
    }

    method AppendExistingChain(rules: Rules, stage: Stage, tables: seq<string>, chain: string, purpose: Purpose)
      modifies this
      ensures steps == WithHook(old(steps), rules, stage, tables, chain, purpose)
    {
      for i := 0 to |tables|
        invariant steps == old(steps)
        invariant WithHook(steps, rules, stage, tables, chain, purpose)
               == WithHook(steps, rules, stage, tables[i..], chain, purpose)
      {
        if Declared(rules, tables[i], chain) {
          AppendStep(Step(stage, tables[i], chain, "", purpose));
          return;
        }
        assert tables[i..][1..] == tables[i + 1..];
      }
    }

    method AppendEndpoint(rules: Rules, stage: Stage, dispatch: string, direction: string, iface: string)
      modifies this
      ensures steps == WithEndpoint(old(steps), rules, stage, dispatch, direction, iface)
    {
      if iface != "" {
        var target := DispatchTarget(Look(rules, "filter", dispatch), direction, iface);
        if target != "" {
          AppendStep(Step(stage, "filter", target, "policy for " + iface, ChainPurpose(target)));
        }
      }
    }
  }

  method FindServiceRule(lines: seq<string>, traffic: Traffic) returns (line: string)
    ensures var first := FirstService(lines, traffic);
            line == if first < |lines| then lines[first] else ""
  {
    for i := 0 to |lines|
      invariant forall k | 0 <= k < i :: !MatchesService(lines[k], traffic)
    {
      line := lines[i];
      if traffic.serviceIP == "" || !Contains(line, traffic.serviceIP) {
        continue;
      }
      var port := Int32String(traffic.port);
      if traffic.port > 0 && !Contains(line, "--dport " + port) {
        continue;
      }
      var protocol := IptablesProtocol(traffic.protocol);
      if protocol == "" || Contains(ToLower(line), "-p " + protocol) {
        return;
      }
    }
    return "";
  }

  /** The endpoint loop of `traceServiceDNAT`: a rule naming the address ends the search, a rule whose chain rewrites to
      it is only remembered. */
  method SelectEndpoint(rules: Rules, lines: seq<string>, ip: string) returns (endpoint: string)
    ensures endpoint == EndpointChain(rules, lines, ip)
  {
    hide JumpTarget, Contains, EndpointRewritesTo, Look;
    endpoint := "";
    for i := 0 to |lines|
      invariant forall k | 0 <= k < i :: !NamesTarget(lines[k], ip)
      invariant var first := FirstRewriting(rules, lines, ip);
                endpoint == if first < i then JumpTarget(lines[first]) else ""
    {
      var candidate := JumpTarget(lines[i]);
      if !HasPrefix(candidate, "KUBE-SEP-") {
        continue;
      }
      if ip != "" && Contains(lines[i], ip) {
        endpoint := candidate;
        break;
      }
      if endpoint == "" && EndpointRewritesTo(Look(rules, "nat", candidate), ip) {
        endpoint := candidate;
      }
    }
  }

  method TraceServiceDNAT(rules: Rules, traffic: Traffic) returns (steps: seq<Step>)
    ensures steps == ServiceSteps(rules, traffic)
  {
    var entryRule := FindServiceRule(Look(rules, "nat", "KUBE-SERVICES"), traffic);
    var service := JumpTarget(entryRule);
    if service == "" {
      return [];
    }
    var out := new Trace();
    out.steps := [Step(ServiceDNAT, "nat", "KUBE-SERVICES", "jump " + service, ChainPurpose("KUBE-SERVICES"))];
    out.AppendStep(Step(ServiceDNAT, "nat", service, "", ChainPurpose(service)));

    var endpoint := SelectEndpoint(rules, Look(rules, "nat", service), traffic.targetIP);
    if endpoint == "" {
      return out.steps;
    }
    var last := |out.steps| - 1;
    out.steps := out.steps[last := out.steps[last].(action := "select " + endpoint)];
    out.AppendStep(Step(ServiceDNAT, "nat", endpoint, DnatAction(Look(rules, "nat", endpoint)),
                        ChainPurpose(endpoint)));
    return out.steps;
  }

  method TraceSourceIptables(lines: seq<string>, routes: seq<string>, traffic: Traffic) returns (steps: seq<Step>)
    ensures steps == SourceSteps(Parsed(lines), routes, traffic)
  {
    var rules := ParseIptables(lines);
    var out := new Trace();
    out.AppendExistingChain(rules, SourceEgress, ["raw", "mangle", "nat"], "cali-PREROUTING", PreRoutingOut);
    if traffic.serviceIP != "" {
      var service := TraceServiceDNAT(rules, traffic);
      out.steps := out.steps + service;
    }
    out.AppendExistingChain(rules, SourceEgress, ["filter"], "cali-FORWARD", ChainPurpose("cali-FORWARD"));
    out.AppendExistingChain(rules, SourceEgress, ["filter"], "cali-from-wl-dispatch",
                            ChainPurpose("cali-from-wl-dispatch"));
    out.AppendEndpoint(rules, SourceEgress, "cali-from-wl-dispatch", "-i", WorkloadInterface(routes, traffic.sourceIP));
    out.AppendExistingChain(rules, SourceEgress, ["filter"], "KUBE-FORWARD", ChainPurpose("KUBE-FORWARD"));
    out.AppendExistingChain(rules, SourceEgress, ["mangle", "nat"], "cali-POSTROUTING", PostRouting);
    return out.steps;
  }

  method TraceTargetIptables(lines: seq<string>, routes: seq<string>, traffic: Traffic) returns (steps: seq<Step>)
    ensures steps == TargetSteps(Parsed(lines), routes, traffic)
  {
    var rules := ParseIptables(lines);
    var out := new Trace();
    out.AppendExistingChain(rules, TargetIngress, ["raw", "mangle", "nat"], "cali-PREROUTING", PreRoutingIn);
    out.AppendExistingChain(rules, TargetIngress, ["filter"], "cali-FORWARD", ChainPurpose("cali-FORWARD"));
    out.AppendExistingChain(rules, TargetIngress, ["filter"], "cali-to-wl-dispatch",
                            ChainPurpose("cali-to-wl-dispatch"));
    out.AppendEndpoint(rules, TargetIngress, "cali-to-wl-dispatch", "-o", WorkloadInterface(routes, traffic.targetIP));
    out.AppendExistingChain(rules, TargetIngress, ["filter"], "KUBE-FORWARD", ChainPurpose("KUBE-FORWARD"));
    return out.steps;
  }
}
