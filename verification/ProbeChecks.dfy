/** The check list (`buildProbeChecks` and its helpers, internal/controller/networkprobelab_controller.go): source nodes
    times targets times protocols times ports, sorted by an identifier derived from the content. */
module ProbeChecks {
  import opened Text
  import opened Sorting
  import opened Sequences
  import opened ProbeTypes

  datatype Pod = Pod(namespace: string, name: string, running: bool, node: string, ip: string, ports: seq<int>)

  datatype Service = Service(namespace: string, name: string, clusterIP: string, ports: seq<int>)

  datatype Traffic = Traffic(protocols: seq<string>, ports: seq<int>, crossNodeOnly: bool,
                             includePodIP: bool, includeServiceVIP: bool, includeDNS: bool,
                             count: int, timeoutSeconds: int)

  // ----- helpers of the check list -----

  predicate Runnable(pod: Pod, allowed: Option<set<string>>) {
    pod.running && pod.ip != "" && pod.node != "" && (allowed.Some? ==> pod.node in allowed.value)
  }

  predicate PodLe(a: Pod, b: Pod) {
    StrLe(a.namespace + "/" + a.name, b.namespace + "/" + b.name)
  }

  function KeepRunnable(allowed: Option<set<string>>): Pod -> seq<Pod> {
    (pod: Pod) => if Runnable(pod, allowed) then [pod] else []
  }

  lemma PodLePreorder()
    ensures Preorder(PodLe)
  {
    forall a: Pod, b: Pod ensures PodLe(a, b) || PodLe(b, a) {
      StrLeTotal(a.namespace + "/" + a.name, b.namespace + "/" + b.name);
    }
    forall a: Pod, b: Pod, c: Pod | PodLe(a, b) && PodLe(b, c) ensures PodLe(a, c) {
      StrLeTransitive(a.namespace + "/" + a.name, b.namespace + "/" + b.name, c.namespace + "/" + c.name);
    }
  }

  /** `filterRunnablePods` */
  method FilterRunnablePods(pods: seq<Pod>, allowed: Option<set<string>>) returns (out: seq<Pod>)
    ensures multiset(out) == multiset(Bind(pods, KeepRunnable(allowed)))
    ensures Sorted(out, PodLe)
  {
    out := [];
    for i := 0 to |pods|
      invariant out == Bind(pods[..i], KeepRunnable(allowed))
    {
      assert pods[..i + 1][..i] == pods[..i];
      if !pods[i].running || pods[i].ip == "" || pods[i].node == "" {
        continue;
      }
      if allowed.Some? && pods[i].node !in allowed.value {
        continue;
      }
      out := out + [pods[i]];
    }
    assert pods[..|pods|] == pods;
    PodLePreorder();
    out := SortSlice(out, PodLe);
  }

  predicate IntLe(a: int, b: int) { a <= b }

  lemma StringLePreorder()
    ensures Preorder(StringLe)
    ensures forall s: seq<string> :: Separates(StringLe, s)
  {
    forall a: string, b: string ensures StrLe(a, b) || StrLe(b, a) ensures StrLe(a, b) && StrLe(b, a) ==> a == b {
      StrLeTotal(a, b);
      if StrLe(a, b) && StrLe(b, a) {
        StrLeAntisymmetric(a, b);
      }
    }
    forall a: string, b: string, c: string | StrLe(a, b) && StrLe(b, c) ensures StrLe(a, c) {
      StrLeTransitive(a, b, c);
    }
  }

  lemma IntLePreorder()
    ensures Preorder(IntLe)
    ensures forall s: seq<int> :: Separates(IntLe, s)
  {
  }

  /** A set listed in increasing order. */
  ghost function SortedSet<T(!new)>(s: set<T>, le: (T, T) -> bool): seq<T> {
    Sort(Enumerate(s), le)
  }

  ghost function Enumerate<T(!new)>(s: set<T>): (q: seq<T>)
    ensures multiset(q) == multiset(s)
  {
    if s == {} then []
    else
      var x :| x in s;
      assert s == (s - {x}) + {x};
      Enumerate(s - {x}) + [x]
  }

  /** Collects the keys of a Go map and sorts them. */
  method ListSorted<T(!new)>(s: set<T>, le: (T, T) -> bool) returns (sorted: seq<T>)
    requires Preorder(le) && forall t: seq<T> :: Separates(le, t)
    ensures sorted == SortedSet(s, le)
  {
    var listed := RangeOver(s);
    sorted := SortSlice(listed, le);
    SortUnique(Enumerate(s), sorted, le);
  }

  lemma SortedSetMembers<T(!new)>(s: set<T>, le: (T, T) -> bool)
    ensures Distinct(SortedSet(s, le)) && |SortedSet(s, le)| == |s|
    ensures forall x :: x in SortedSet(s, le) <==> x in s
  {
    SortContents(Enumerate(s), le);
    Enumeration(SortedSet(s, le), s);
  }

  function Uppercased(protocols: seq<string>): (r: seq<string>)
    ensures |r| == |protocols|
  {
    seq(|protocols|, i requires 0 <= i < |protocols| => ToUpper(protocols[i]))
  }

  function Protocols(configured: seq<string>): seq<string> {
    if configured == [] then ["TCP"] else Sort(Uppercased(configured), StringLe)
  }

  method UppercaseAll(protocols: seq<string>) returns (out: seq<string>)
    ensures out == Uppercased(protocols)
  {
    hide ToUpper;
    out := protocols;
    for i := 0 to |out|
      invariant |out| == |protocols|
      invariant forall k | 0 <= k < i :: out[k] == ToUpper(protocols[k])
      invariant forall k | i <= k < |out| :: out[k] == protocols[k]
    {
      out := out[i := ToUpper(out[i])];
    }
  }

  method DefaultProtocols(configured: seq<string>) returns (out: seq<string>)
    ensures out == Protocols(configured)
  {
    hide Uppercased, StringLe;
    if |configured| == 0 {
      return ["TCP"];
    }
    var upper := UppercaseAll(configured);
    StringLePreorder();
    out := SortSlice(upper, StringLe);
    SortUnique(upper, out, StringLe);
  }

  /** The positive numbers of a list. */
  function Positive(ports: seq<int>): set<int> {
    set port | port in ports && port > 0
  }

  function ServicePorts(services: seq<Service>): set<int> {
    set svc, port | svc in services && port in svc.ports && port > 0 :: port
  }

  function PodPorts(pods: seq<Pod>): set<int> {
    set pod, port | pod in pods && port in pod.ports && port > 0 :: port
  }

  /** Configured ports, else service ports, else container ports, else 80. */
  function PortSet(configured: seq<int>, pods: seq<Pod>, services: seq<Service>): set<int> {
    if Positive(configured) != {} then Positive(configured)
    else if ServicePorts(services) != {} then ServicePorts(services)
    else if PodPorts(pods) != {} then PodPorts(pods)
    else {80}
  }

  method PositivePorts(ports: seq<int>, start: set<int>) returns (out: set<int>)
    ensures out == start + Positive(ports)
  {
    out := start;
    for i := 0 to |ports|
      invariant out == start + Positive(ports[..i])
    {
      assert ports[..i + 1] == ports[..i] + [ports[i]];
      if ports[i] > 0 {
        out := out + {ports[i]};
      }
    }
    assert ports[..|ports|] == ports;
  }

  method DefaultProbePorts(configured: seq<int>, pods: seq<Pod>, services: seq<Service>) returns (out: seq<int>)
    ensures out == SortedSet(PortSet(configured, pods, services), IntLe)
  {
    var ports := PositivePorts(configured, {});
    if ports == {} {
      for i := 0 to |services|
        invariant ports == ServicePorts(services[..i])
      {
        assert services[..i + 1] == services[..i] + [services[i]];
        ports := PositivePorts(services[i].ports, ports);
      }
      assert services[..|services|] == services;
      if ports == {} {
        for i := 0 to |pods|
          invariant ports == PodPorts(pods[..i])
        {
          assert pods[..i + 1] == pods[..i] + [pods[i]];
          ports := PositivePorts(pods[i].ports, ports);
        }
        assert pods[..|pods|] == pods;
      }
    }
    if ports == {} {
      ports := {80};
    }
    assert ports == PortSet(configured, pods, services);
    IntLePreorder();
    out := ListSorted(ports, IntLe);
  }

  function KeepPositive(): int -> seq<int> {
    (port: int) => if port > 0 then [port] else []
  }

  /** `serviceOrDefaultPorts` */
  function PortsOfService(svc: Service, fallback: seq<int>): seq<int> {
    if svc.ports == [] then fallback else Sort(Bind(svc.ports, KeepPositive()), IntLe)
  }

  method ServiceOrDefaultPorts(svc: Service, fallback: seq<int>) returns (ports: seq<int>)
    ensures ports == PortsOfService(svc, fallback)
  {
    if |svc.ports| == 0 {
      return fallback;
    }
    ports := [];
    for i := 0 to |svc.ports|
      invariant ports == Bind(svc.ports[..i], KeepPositive())
    {
      assert svc.ports[..i + 1][..i] == svc.ports[..i];
      if svc.ports[i] > 0 {
        ports := ports + [svc.ports[i]];
      }
    }
    assert svc.ports[..|svc.ports|] == svc.ports;
    IntLePreorder();
    var unsorted := ports;
    ports := SortSlice(unsorted, IntLe);
    SortUnique(unsorted, ports, IntLe);
  }

  function NodeSet(pods: seq<Pod>): set<string> {
    set pod | pod in pods && pod.node != "" :: pod.node
  }

  lemma NodeSetStep(pods: seq<Pod>, i: nat)
    requires i < |pods|
    ensures NodeSet(pods[..i + 1]) == NodeSet(pods[..i]) + if pods[i].node != "" then {pods[i].node} else {}
  {
    assert pods[..i + 1] == pods[..i] + [pods[i]];
  }

  /** `uniquePodNodes` */
  method UniquePodNodes(pods: seq<Pod>) returns (nodes: seq<string>)
    ensures nodes == SortedSet(NodeSet(pods), StringLe)
  {
    var seen := {};
    for i := 0 to |pods|
      invariant seen == NodeSet(pods[..i])
    {
      NodeSetStep(pods, i);
      if pods[i].node != "" {
        seen := seen + {pods[i].node};
      }
    }
    assert pods[..|pods|] == pods;
    StringLePreorder();
    nodes := ListSorted(seen, StringLe);
  }

  // ----- single checks -----

  /** What is probed from where. */
  datatype Probe =
    | PodIP(node: string, pod: Pod)
    | ServiceVIP(node: string, svc: Service)
    | DNS(node: string, svc: Service)

  /** The text that `checkID` digests: the parts with bars between them. */
  function Joined(parts: seq<string>): string {
    if parts == [] then ""
    else
      var before := Joined(parts[..|parts| - 1]);
      before + (if before != "" then "|" else "") + parts[|parts| - 1]
  }

  function KindOf(t: Probe): string {
    match t
    case PodIP(_, _) => "podIP"
    case ServiceVIP(_, _) => "serviceVIP"
    case DNS(_, _) => "dns"
  }

  function NamespaceOf(t: Probe): string {
    if t.PodIP? then t.pod.namespace else t.svc.namespace
  }

  function NameOf(t: Probe): string {
    if t.PodIP? then t.pod.name else t.svc.name
  }

  /** A port as text; ports are positive. */
  function PortText(port: int): string {
    if port < 0 then "-" + Decimal(-port) else Decimal(port)
  }

  function IdText(t: Probe, protocol: string, port: int): string {
    Joined([t.node, NamespaceOf(t), NameOf(t), protocol, PortText(port), KindOf(t)])
  }

  function MakeCheck(t: Probe, protocol: string, port: int, digest: Digest): Check {
    var id := digest(IdText(t, protocol, port));
    match t
    case PodIP(node, pod) =>
      Check(id, node, pod.namespace + "/" + pod.name, pod.node, "", protocol, pod.ip, port, "podIP", pod.ip, "")
    case ServiceVIP(node, svc) =>
      Check(id, node, "", "", svc.namespace + "/" + svc.name, protocol, svc.clusterIP, port, "serviceVIP", "",
            svc.clusterIP)
    case DNS(node, svc) =>
      Check(id, node, "", "", svc.namespace + "/" + svc.name, protocol, svc.name + "." + svc.namespace + ".svc", port,
            "dns", "", svc.clusterIP)
  }

  // ----- the list -----

  function PortChecks(t: Probe, protocol: string, digest: Digest): int -> seq<Check> {
    (port: int) => [MakeCheck(t, protocol, port, digest)]
  }

  function ProtocolChecks(t: Probe, ports: seq<int>, digest: Digest): string -> seq<Check> {
    (protocol: string) => Bind(ports, PortChecks(t, protocol, digest))
  }

  function PortsFor(t: Probe, ports: seq<int>): seq<int> {
    if t.PodIP? then ports else PortsOfService(t.svc, ports)
  }

  function ProbeGrid(protocols: seq<string>, ports: seq<int>, digest: Digest): Probe -> seq<Check> {
    (t: Probe) => Bind(protocols, ProtocolChecks(t, PortsFor(t, ports), digest))
  }

  function PodProbes(node: string, crossNodeOnly: bool): Pod -> seq<Probe> {
    (pod: Pod) => if crossNodeOnly && pod.node == node then [] else [PodIP(node, pod)]
  }

  function ServiceProbes(node: string, vip: bool, dns: bool): Service -> seq<Probe> {
    (svc: Service) =>
      (if vip && svc.clusterIP != "" && svc.clusterIP != "None" then [ServiceVIP(node, svc)] else [])
      + if dns then [DNS(node, svc)] else []
  }

  predicate WantsPodIP(traffic: Traffic) {
    traffic.includePodIP || (!traffic.includeServiceVIP && !traffic.includeDNS)
  }

  function NodeProbes(traffic: Traffic, pods: seq<Pod>, services: seq<Service>): string -> seq<Probe> {
    (node: string) =>
      (if WantsPodIP(traffic) then Bind(pods, PodProbes(node, traffic.crossNodeOnly)) else [])
      + Bind(services, ServiceProbes(node, traffic.includeServiceVIP, traffic.includeDNS))
  }

  ghost function SourceNodes(pods: seq<Pod>): seq<string> {
    SortedSet(NodeSet(pods), StringLe)
  }

  ghost function Probes(traffic: Traffic, pods: seq<Pod>, services: seq<Service>): seq<Probe> {
    Bind(SourceNodes(pods), NodeProbes(traffic, pods, services))
  }

  ghost function Ports(traffic: Traffic, pods: seq<Pod>, services: seq<Service>): seq<int> {
    SortedSet(PortSet(traffic.ports, pods, services), IntLe)
  }

  predicate IdLe(a: Check, b: Check) {
    StrLe(a.id, b.id)
  }

  /** The checks before they are sorted. */
  ghost function ListedChecks(traffic: Traffic, pods: seq<Pod>, services: seq<Service>, digest: Digest): seq<Check> {
    Bind(Probes(traffic, pods, services),
         ProbeGrid(Protocols(traffic.protocols), Ports(traffic, pods, services), digest))
  }

  /** The check list. */
  ghost function BuiltChecks(traffic: Traffic, pods: seq<Pod>, services: seq<Service>, digest: Digest): seq<Check> {
    Sort(ListedChecks(traffic, pods, services, digest), IdLe)
  }

  /** Equal identifiers mean equal checks. */
  ghost predicate IdsTell(checks: seq<Check>) {
    forall c, d | c in checks && d in checks && c.id == d.id :: c == d
  }

  lemma IdLePreorder()
    ensures Preorder(IdLe)
  {
    forall a: Check, b: Check ensures IdLe(a, b) || IdLe(b, a) {
      StrLeTotal(a.id, b.id);
    }
    forall a: Check, b: Check, c: Check | IdLe(a, b) && IdLe(b, c) ensures IdLe(a, c) {
      StrLeTransitive(a.id, b.id, c.id);
    }
  }

  lemma IdsSeparate(checks: seq<Check>)
    requires IdsTell(checks)
    ensures Separates(IdLe, checks)
  {
    forall c, d | c in checks && d in checks && IdLe(c, d) && IdLe(d, c) ensures c == d {
      StrLeAntisymmetric(c.id, d.id);
    }
  }

  /** The two inner loops: every protocol times every port. */
  method AppendGrid(checks: seq<Check>, t: Probe, protocols: seq<string>, ports: seq<int>, digest: Digest)
    returns (out: seq<Check>)
    ensures out == checks + Bind(protocols, ProtocolChecks(t, ports, digest))
  {
    hide Bind, MakeCheck, ProtocolChecks;
    out := checks;
    BindAll(protocols, ProtocolChecks(t, ports, digest));
    for i := 0 to |protocols|
      invariant out == checks + Bind(protocols[..i], ProtocolChecks(t, ports, digest))
    {
      BindTake(protocols, i, ProtocolChecks(t, ports, digest));
      ProtocolRow(t, protocols[i], ports, digest);
      var row := PortRow(t, protocols[i], ports, digest);
      Associative(checks, Bind(protocols[..i], ProtocolChecks(t, ports, digest)), row);
      out := out + row;
    }
  }

  lemma ProtocolRow(t: Probe, protocol: string, ports: seq<int>, digest: Digest)
    ensures ProtocolChecks(t, ports, digest)(protocol) == Bind(ports, PortChecks(t, protocol, digest))
  {
  }

  method PortRow(t: Probe, protocol: string, ports: seq<int>, digest: Digest) returns (row: seq<Check>)
    ensures row == Bind(ports, PortChecks(t, protocol, digest))
  {
    hide MakeCheck;
    row := [];
    for j := 0 to |ports|
      invariant row == Bind(ports[..j], PortChecks(t, protocol, digest))
    {
      BindTake(ports, j, PortChecks(t, protocol, digest));
      row := row + [MakeCheck(t, protocol, ports[j], digest)];
    }
    BindAll(ports, PortChecks(t, protocol, digest));
  }

  lemma GridAt(t: Probe, protocols: seq<string>, ports: seq<int>, digest: Digest)
    ensures ProbeGrid(protocols, ports, digest)(t) == Bind(protocols, ProtocolChecks(t, PortsFor(t, ports), digest))
  {
  }

  /** The loop over the pods. */
  method AppendPodChecks(checks: seq<Check>, node: string, pods: seq<Pod>, crossNodeOnly: bool,
          protocols: seq<string>, ports: seq<int>, digest: Digest)
    returns (out: seq<Check>)
    ensures out == checks + Bind(Bind(pods, PodProbes(node, crossNodeOnly)), ProbeGrid(protocols, ports, digest))
  {
    hide Bind, ProbeGrid, ProtocolChecks;
    ghost var grid, probes := ProbeGrid(protocols, ports, digest), PodProbes(node, crossNodeOnly);
    out := checks;
    BindAll(pods, probes);
    BindAll([], grid);
    for i := 0 to |pods|
      invariant out == checks + Bind(Bind(pods[..i], probes), grid)
    {
      BindTake(pods, i, probes);
      if crossNodeOnly && pods[i].node == node {
        assert Bind(pods[..i], probes) + [] == Bind(pods[..i], probes);
        continue;
      }
      var t := PodIP(node, pods[i]);
      GridAt(t, protocols, ports, digest);
      BindStep(Bind(pods[..i], probes), t, grid);
      Associative(checks, Bind(Bind(pods[..i], probes), grid), grid(t));
      out := AppendGrid(out, t, protocols, ports, digest);
    }
  }

  /** The loop over the services. */
  method AppendServiceChecks(checks: seq<Check>, node: string, services: seq<Service>, vip: bool, dns: bool,
          protocols: seq<string>, ports: seq<int>, digest: Digest)
    returns (out: seq<Check>)
    ensures out == checks + Bind(Bind(services, ServiceProbes(node, vip, dns)), ProbeGrid(protocols, ports, digest))
  {
    hide Bind, ProbeGrid, ProtocolChecks;
    ghost var grid, probes := ProbeGrid(protocols, ports, digest), ServiceProbes(node, vip, dns);
    out := checks;
    BindAll(services, probes);
    BindAll([], grid);
    for i := 0 to |services|
      invariant out == checks + Bind(Bind(services[..i], probes), grid)
    {
      BindTake(services, i, probes);
      var svc := services[i];
      ghost var before := Bind(services[..i], probes);
      ghost var added: seq<Probe> := [];
      assert before + added == before;
      if vip && svc.clusterIP != "" && svc.clusterIP != "None" {
        var t := ServiceVIP(node, svc);
        var servicePorts := ServiceOrDefaultPorts(svc, ports);
        GridAt(t, protocols, ports, digest);
        BindStep(before, t, grid);
        Associative(checks, Bind(before, grid), grid(t));
        out := AppendGrid(out, t, protocols, servicePorts, digest);
        added := [t];
      }
      assert out == checks + Bind(before + added, grid);
      if dns {
        var t := DNS(node, svc);
        var servicePorts := ServiceOrDefaultPorts(svc, ports);
        GridAt(t, protocols, ports, digest);
        BindStep(before + added, t, grid);
        Associative(checks, Bind(before + added, grid), grid(t));
        Associative(before, added, [t]);
        out := AppendGrid(out, t, protocols, servicePorts, digest);
        added := added + [t];
      }
      assert probes(svc) == added;
    }
  }

  /** `buildProbeChecks` before the sort. */
  method ListProbeChecks(traffic: Traffic, pods: seq<Pod>, services: seq<Service>,
          digest: Digest) returns (checks: seq<Check>)
    ensures checks == ListedChecks(traffic, pods, services, digest)
  {
    var protocols := DefaultProtocols(traffic.protocols);
    var ports := DefaultProbePorts(traffic.ports, pods, services);
    var nodes := UniquePodNodes(pods);
    var includePodIP := traffic.includePodIP;
    if !includePodIP && !traffic.includeServiceVIP && !traffic.includeDNS {
      includePodIP := true;
    }
    hide Bind, ProbeGrid, PodProbes, ServiceProbes;
    ghost var grid, nodeProbes := ProbeGrid(protocols, ports, digest), NodeProbes(traffic, pods, services);
    checks := [];
    BindAll(nodes, nodeProbes);
    BindAll([], grid);
    for i := 0 to |nodes|
      invariant checks == Bind(Bind(nodes[..i], nodeProbes), grid)
    {
      BindTake(nodes, i, nodeProbes);
      ghost var before := Bind(nodes[..i], nodeProbes);
      ghost var podProbes := if includePodIP then Bind(pods, PodProbes(nodes[i], traffic.crossNodeOnly)) else [];
      ghost var serviceProbes := Bind(services, ServiceProbes(nodes[i], traffic.includeServiceVIP, traffic.includeDNS));
      assert nodeProbes(nodes[i]) == podProbes + serviceProbes;
      BindConcat(before, nodeProbes(nodes[i]), grid);
      BindConcat(podProbes, serviceProbes, grid);
      Associative(Bind(before, grid), Bind(podProbes, grid), Bind(serviceProbes, grid));
      if includePodIP {
        checks := AppendPodChecks(checks, nodes[i], pods, traffic.crossNodeOnly, protocols, ports, digest);
      } else {
        assert checks + Bind(podProbes, grid) == checks;
      }
      checks := AppendServiceChecks(checks, nodes[i], services, traffic.includeServiceVIP, traffic.includeDNS,
                                    protocols, ports, digest);
    }
  }

  /** The list is sorted by identifier; when equal identifiers mean equal checks this fixes it completely, although the
      sort is not stable. */
  method BuildProbeChecks(traffic: Traffic, pods: seq<Pod>, services: seq<Service>,
          digest: Digest) returns (checks: seq<Check>)
    ensures Sorted(checks, IdLe) && multiset(checks) == multiset(ListedChecks(traffic, pods, services, digest))
    ensures IdsTell(ListedChecks(traffic, pods, services, digest)) ==>
              checks == BuiltChecks(traffic, pods, services, digest)
  {
    var listed := ListProbeChecks(traffic, pods, services, digest);
    IdLePreorder();
    checks := SortSlice(listed, IdLe);
    if IdsTell(listed) {
      IdsSeparate(listed);
      SortUnique(listed, checks, IdLe);
    }
  }
}
