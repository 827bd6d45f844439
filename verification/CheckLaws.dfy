/** What the check list depends on and how long it is (internal/controller/networkprobelab_controller.go). */
module CheckLaws {
  import opened Text
  import opened Sorting
  import opened Sequences
  import opened ProbeTypes
  import opened ProbeChecks

  // ----- the text behind an identifier can be read back -----

  predicate NoBar(s: string) {
    '|' !in s
  }

  /** The text before the first bar is determined. */
  lemma {:induction false} SplitFirst(a: string, x: string, b: string, y: string)
    requires NoBar(a) && NoBar(b) && a + "|" + x == b + "|" + y
    ensures a == b && x == y
  {
    var s, t := a + "|" + x, b + "|" + y;
    assert s[0] == (if a == [] then '|' else a[0]) && t[0] == (if b == [] then '|' else b[0]);
    assert s[1..] == (if a == [] then x else a[1..] + "|" + x);
    assert t[1..] == (if b == [] then y else b[1..] + "|" + y);
    if a != [] && b != [] {
      SplitFirst(a[1..], x, b[1..], y);
      assert a == [a[0]] + a[1..] && b == [b[0]] + b[1..];
    }
  }

  /** The text after the last bar is determined. */
  lemma {:induction false} SplitLast(x: string, a: string, y: string, b: string)
    requires NoBar(a) && NoBar(b) && x + "|" + a == y + "|" + b
    ensures a == b && x == y
  {
    var s, t := x + "|" + a, y + "|" + b;
    var last := |s| - 1;
    assert s[last] == (if a == [] then '|' else a[|a| - 1]) && t[last] == (if b == [] then '|' else b[|b| - 1]);
    assert s[..last] == (if a == [] then x else x + "|" + a[..|a| - 1]);
    assert t[..last] == (if b == [] then y else y + "|" + b[..|b| - 1]);
    if a != [] && b != [] {
      SplitLast(x, a[..|a| - 1], y, b[..|b| - 1]);
      assert a == a[..|a| - 1] + [a[|a| - 1]] && b == b[..|b| - 1] + [b[|b| - 1]];
    }
  }

  lemma {:induction false} DecimalHasNoBar(n: nat)
    ensures NoBar(Decimal(n))
  {
    if n >= 10 {
      DecimalHasNoBar(n / 10);
    }
  }

  lemma JoinedStep(before: seq<string>, part: string)
    ensures Joined(before + [part]) == Joined(before) + (if Joined(before) != "" then "|" else "") + part
  {
    assert (before + [part])[..|before|] == before;
  }

  function Bar(x: string, y: string): string {
    x + "|" + y
  }

  lemma BarAssociative(x: string, y: string, z: string)
    ensures Bar(Bar(x, y), z) == Bar(x, Bar(y, z))
  {
  }

  lemma JoinedBar(before: seq<string>, part: string)
    requires Joined(before) != ""
    ensures Joined(before + [part]) == Bar(Joined(before), part) != ""
  {
    JoinedStep(before, part);
  }

  lemma JoinedParts(a: string, b: string, c: string, d: string, e: string, f: string)
    requires a != ""
    ensures Joined([a, b, c, d, e, f]) == Bar(a, Bar(b, Bar(c, Bar(Bar(d, e), f))))
  {
    assert Joined([a]) == a by {
      assert [a][..0] == [];
    }
    hide Joined, Bar;
    var p2, p3, p4, p5 := [a] + [b], [a] + [b] + [c], [a] + [b] + [c] + [d], [a] + [b] + [c] + [d] + [e];
    assert p5 + [f] == [a, b, c, d, e, f];
    JoinedBar([a], b);
    JoinedBar(p2, c);
    BarAssociative(a, b, c);
    JoinedBar(p3, d);
    BarAssociative(a, Bar(b, c), d);
    BarAssociative(b, c, d);
    JoinedBar(p4, e);
    BarAssociative(a, Bar(b, Bar(c, d)), e);
    BarAssociative(b, Bar(c, d), e);
    BarAssociative(c, d, e);
    JoinedBar(p5, f);
    BarAssociative(a, Bar(b, Bar(c, Bar(d, e))), f);
    BarAssociative(b, Bar(c, Bar(d, e)), f);
    BarAssociative(c, Bar(d, e), f);
  }

  /** What is needed to read an identifier back: a node, and no bar in the node, the namespace and the name. A protocol
      may contain bars. */
  predicate PartsLegible(t: Probe) {
    t.node != "" && NoBar(t.node) && NoBar(NamespaceOf(t)) && NoBar(NameOf(t))
  }

  lemma KindsHaveNoBar(t: Probe)
    ensures NoBar(KindOf(t))
  {
    assert NoBar("podIP") && NoBar("serviceVIP") && NoBar("dns");
  }

  lemma IdTextParts(t: Probe, protocol: string, port: int)
    requires PartsLegible(t)
    ensures IdText(t, protocol, port)
         == t.node + "|" + (NamespaceOf(t) + "|"
                            + (NameOf(t) + "|" + (protocol + "|" + PortText(port) + "|" + KindOf(t))))
  {
    JoinedParts(t.node, NamespaceOf(t), NameOf(t), protocol, PortText(port), KindOf(t));
  }

  /** The text that `checkID` digests determines every part of it. */
  lemma IdTextTells(t: Probe, p: string, i: int, u: Probe, q: string, j: int)
    requires PartsLegible(t) && PartsLegible(u) && i > 0 && j > 0
    requires IdText(t, p, i) == IdText(u, q, j)
    ensures t.node == u.node && NamespaceOf(t) == NamespaceOf(u) && NameOf(t) == NameOf(u)
    ensures p == q && i == j && KindOf(t) == KindOf(u)
  {
    hide IdText, KindOf, Decimal;
    IdTextParts(t, p, i);
    IdTextParts(u, q, j);
    var a, b := p + "|" + PortText(i), q + "|" + PortText(j);
    var c, d := NameOf(t) + "|" + (a + "|" + KindOf(t)), NameOf(u) + "|" + (b + "|" + KindOf(u));
    SplitFirst(t.node, NamespaceOf(t) + "|" + c, u.node, NamespaceOf(u) + "|" + d);
    SplitFirst(NamespaceOf(t), c, NamespaceOf(u), d);
    SplitFirst(NameOf(t), a + "|" + KindOf(t), NameOf(u), b + "|" + KindOf(u));
    KindsHaveNoBar(t);
    KindsHaveNoBar(u);
    SplitLast(a, KindOf(t), b, KindOf(u));
    DecimalHasNoBar(i);
    DecimalHasNoBar(j);
    SplitLast(p, PortText(i), q, PortText(j));
    DecimalRoundTrip(i);
    DecimalRoundTrip(j);
  }

  // ----- where a check comes from -----

  /** A namespace and a name mean one pod, and no text contains a bar. */
  predicate PodsLegible(pods: seq<Pod>) {
    && (forall p | p in pods :: NoBar(p.namespace) && NoBar(p.name) && NoBar(p.node))
    && (forall p, q | p in pods && q in pods && p.namespace == q.namespace && p.name == q.name :: p == q)
  }

  predicate ServicesLegible(services: seq<Service>) {
    && (forall s | s in services :: NoBar(s.namespace) && NoBar(s.name))
    && (forall s, r | s in services && r in services && s.namespace == r.namespace && s.name == r.name :: s == r)
  }

  ghost predicate Injective(digest: Digest) {
    forall x, y :: digest(x) == digest(y) ==> x == y
  }

  lemma NodeProbeOrigin(traffic: Traffic, pods: seq<Pod>, services: seq<Service>, node: string, t: Probe)
    requires t in NodeProbes(traffic, pods, services)(node)
    ensures t.node == node && if t.PodIP? then t.pod in pods else t.svc in services
  {
    hide Bind, WantsPodIP;
    var podProbes := PodProbes(node, traffic.crossNodeOnly);
    var serviceProbes := ServiceProbes(node, traffic.includeServiceVIP, traffic.includeDNS);
    if t in Bind(services, serviceProbes) {
      BindMember(services, serviceProbes, t);
    } else {
      BindMember(pods, podProbes, t);
    }
  }

  lemma ProbeOrigin(traffic: Traffic, pods: seq<Pod>, services: seq<Service>, t: Probe)
    requires t in Probes(traffic, pods, services)
    ensures t.node in NodeSet(pods)
    ensures if t.PodIP? then t.pod in pods else t.svc in services
  {
    hide Bind, NodeProbes, SortedSet, NodeSet;
    var perNode := NodeProbes(traffic, pods, services);
    BindMember(SourceNodes(pods), perNode, t);
    var node :| node in SourceNodes(pods) && t in perNode(node);
    SortedSetMembers(NodeSet(pods), StringLe);
    NodeProbeOrigin(traffic, pods, services, node, t);
  }

  lemma PositivePortsOfService(svc: Service, fallback: seq<int>, port: int)
    requires port in PortsOfService(svc, fallback)
    requires forall p | p in fallback :: p > 0
    ensures port > 0
  {
    if svc.ports != [] {
      var positive := Bind(svc.ports, KeepPositive());
      SortContents(positive, IntLe);
      SameMembers(Sort(positive, IntLe), positive);
      BindMember(svc.ports, KeepPositive(), port);
    }
  }

  lemma PortsArePositive(traffic: Traffic, pods: seq<Pod>, services: seq<Service>)
    ensures forall p | p in Ports(traffic, pods, services) :: p > 0
  {
    SortedSetMembers(PortSet(traffic.ports, pods, services), IntLe);
  }

  lemma GridOrigin(t: Probe, protocols: seq<string>, ports: seq<int>, digest: Digest, c: Check)
    returns (protocol: string, port: int)
    requires c in ProbeGrid(protocols, ports, digest)(t)
    ensures protocol in protocols && port in PortsFor(t, ports) && c == MakeCheck(t, protocol, port, digest)
  {
    hide Bind, MakeCheck, PortsFor;
    var row := ProtocolChecks(t, PortsFor(t, ports), digest);
    BindMember(protocols, row, c);
    protocol :| protocol in protocols && c in row(protocol);
    BindMember(PortsFor(t, ports), PortChecks(t, protocol, digest), c);
    port :| port in PortsFor(t, ports) && c in PortChecks(t, protocol, digest)(port);
  }

  lemma CheckOrigin(traffic: Traffic, pods: seq<Pod>, services: seq<Service>, digest: Digest, c: Check)
    returns (t: Probe, protocol: string, port: int)
    requires c in ListedChecks(traffic, pods, services, digest)
    ensures t in Probes(traffic, pods, services) && port > 0 && c == MakeCheck(t, protocol, port, digest)
    ensures protocol in Protocols(traffic.protocols) && port in PortsFor(t, Ports(traffic, pods, services))
  {
    hide Bind, Probes, Ports, Protocols, MakeCheck, PortsOfService, ProbeGrid;
    var protocols, ports := Protocols(traffic.protocols), Ports(traffic, pods, services);
    var grid := ProbeGrid(protocols, ports, digest);
    BindMember(Probes(traffic, pods, services), grid, c);
    t :| t in Probes(traffic, pods, services) && c in grid(t);
    protocol, port := GridOrigin(t, protocols, ports, digest, c);
    PortsArePositive(traffic, pods, services);
    if !t.PodIP? {
      PositivePortsOfService(t.svc, ports, port);
    }
  }

  /** Equal identifiers mean equal checks. */
  lemma IdsTellChecks(traffic: Traffic, pods: seq<Pod>, services: seq<Service>, digest: Digest)
    requires PodsLegible(pods) && ServicesLegible(services) && Injective(digest)
    ensures IdsTell(ListedChecks(traffic, pods, services, digest))
  {
    var listed := ListedChecks(traffic, pods, services, digest);
    forall c, d | c in listed && d in listed && c.id == d.id ensures c == d {
      SameIdSameCheck(traffic, pods, services, digest, c, d);
    }
  }

  lemma SameIdSameCheck(traffic: Traffic, pods: seq<Pod>, services: seq<Service>, digest: Digest, c: Check, d: Check)
    requires PodsLegible(pods) && ServicesLegible(services) && Injective(digest)
    requires c in ListedChecks(traffic, pods, services, digest) && d in ListedChecks(traffic, pods, services, digest)
    requires c.id == d.id
    ensures c == d
  {
    hide ListedChecks, Probes, IdText, PortText;
    var t, p, i := CheckOrigin(traffic, pods, services, digest, c);
    var u, q, j := CheckOrigin(traffic, pods, services, digest, d);
    ProbeOrigin(traffic, pods, services, t);
    ProbeOrigin(traffic, pods, services, u);
    assert PartsLegible(t) && PartsLegible(u);
    assert digest(IdText(t, p, i)) == digest(IdText(u, q, j));
    IdTextTells(t, p, i, u, q, j);
    assert t == u;
  }

  // ----- the order of the inputs does not matter -----

  function Upper(): string -> seq<string> {
    (protocol: string) => [ToUpper(protocol)]
  }

  lemma {:induction false} UppercasedBind(protocols: seq<string>)
    ensures Bind(protocols, Upper()) == Uppercased(protocols)
  {
    hide ToUpper;
    if protocols != [] {
      UppercasedBind(protocols[..|protocols| - 1]);
    }
  }

  lemma ProtocolsPermutation(a: seq<string>, b: seq<string>)
    requires multiset(a) == multiset(b)
    ensures Protocols(a) == Protocols(b)
  {
    hide Uppercased, StringLe;
    SameMembers(a, b);
    UppercasedBind(a);
    UppercasedBind(b);
    BindPermutation(a, b, Upper());
    StringLePreorder();
    SortPermutation(Uppercased(a), Uppercased(b), StringLe);
  }

  /** The same inputs, each list in its own order. */
  ghost predicate SameInputs(t: Traffic, pods: seq<Pod>, services: seq<Service>, u: Traffic, pods': seq<Pod>,
          services': seq<Service>) {
    && multiset(pods) == multiset(pods') && multiset(services) == multiset(services')
    && multiset(t.protocols) == multiset(u.protocols) && multiset(t.ports) == multiset(u.ports)
    && t == u.(protocols := t.protocols, ports := t.ports)
  }

  lemma PositivePermutation(a: seq<int>, b: seq<int>)
    requires multiset(a) == multiset(b)
    ensures Positive(a) == Positive(b)
  {
    SameMembers(a, b);
  }

  lemma ServicePortsPermutation(a: seq<Service>, b: seq<Service>)
    requires multiset(a) == multiset(b)
    ensures ServicePorts(a) == ServicePorts(b)
  {
    SameMembers(a, b);
  }

  lemma PodPortsPermutation(a: seq<Pod>, b: seq<Pod>)
    requires multiset(a) == multiset(b)
    ensures PodPorts(a) == PodPorts(b)
  {
    SameMembers(a, b);
  }

  lemma PortsPermutation(t: Traffic, pods: seq<Pod>, services: seq<Service>, u: Traffic, pods': seq<Pod>,
          services': seq<Service>)
    requires SameInputs(t, pods, services, u, pods', services')
    ensures Ports(t, pods, services) == Ports(u, pods', services')
  {
    hide Positive, ServicePorts, PodPorts, SortedSet;
    PositivePermutation(t.ports, u.ports);
    ServicePortsPermutation(services, services');
    PodPortsPermutation(pods, pods');
  }

  lemma NodeProbesPermutation(t: Traffic, pods: seq<Pod>, services: seq<Service>, u: Traffic, pods': seq<Pod>,
          services': seq<Service>, node: string)
    requires SameInputs(t, pods, services, u, pods', services')
    ensures multiset(NodeProbes(t, pods, services)(node)) == multiset(NodeProbes(u, pods', services')(node))
  {
    hide Bind, PodProbes, ServiceProbes;
    BindPermutation(pods, pods', PodProbes(node, t.crossNodeOnly));
    BindPermutation(services, services', ServiceProbes(node, t.includeServiceVIP, t.includeDNS));
  }

  lemma ProbesPermutation(t: Traffic, pods: seq<Pod>, services: seq<Service>, u: Traffic, pods': seq<Pod>,
          services': seq<Service>)
    requires SameInputs(t, pods, services, u, pods', services')
    ensures multiset(Probes(t, pods, services)) == multiset(Probes(u, pods', services'))
    ensures SourceNodes(pods) == SourceNodes(pods')
  {
    hide Bind, NodeProbes;
    SameMembers(pods, pods');
    assert NodeSet(pods) == NodeSet(pods');
    var f, g := NodeProbes(t, pods, services), NodeProbes(u, pods', services');
    forall node | node in SourceNodes(pods) ensures multiset(f(node)) == multiset(g(node)) {
      NodeProbesPermutation(t, pods, services, u, pods', services', node);
    }
    BindSimilar(SourceNodes(pods), f, g);
  }

  lemma ListedPermutation(t: Traffic, pods: seq<Pod>, services: seq<Service>, u: Traffic, pods': seq<Pod>,
          services': seq<Service>, digest: Digest)
    requires SameInputs(t, pods, services, u, pods', services')
    ensures multiset(ListedChecks(t, pods, services, digest)) == multiset(ListedChecks(u, pods', services', digest))
  {
    hide Bind, Probes, ProbeGrid, Protocols, Ports;
    ProtocolsPermutation(t.protocols, u.protocols);
    PortsPermutation(t, pods, services, u, pods', services');
    ProbesPermutation(t, pods, services, u, pods', services');
    BindPermutation(Probes(t, pods, services), Probes(u, pods', services'),
                    ProbeGrid(Protocols(t.protocols), Ports(t, pods, services), digest));
  }

  /** Permuting the pods, the services, the protocols or the ports changes nothing in the check list, so the order in
      which the API lists objects never makes a job look stale. */
  lemma ChecksIgnoreOrder(t: Traffic, pods: seq<Pod>, services: seq<Service>, u: Traffic, pods': seq<Pod>,
          services': seq<Service>, digest: Digest)
    requires SameInputs(t, pods, services, u, pods', services')
    requires PodsLegible(pods) && ServicesLegible(services) && Injective(digest)
    ensures BuiltChecks(t, pods, services, digest) == BuiltChecks(u, pods', services', digest)
  {
    hide ListedChecks;
    IdsTellChecks(t, pods, services, digest);
    IdsSeparate(ListedChecks(t, pods, services, digest));
    IdLePreorder();
    ListedPermutation(t, pods, services, u, pods', services', digest);
    SortPermutation(ListedChecks(t, pods, services, digest), ListedChecks(u, pods', services', digest), IdLe);
  }

  // ----- how many checks there are -----

  function Product(a: nat, b: nat): nat {
    a * b
  }

  lemma ProductStep(a: nat, b: nat)
    ensures Product(a + 1, b) == Product(a, b) + b && Product(a, b + 1) == Product(a, b) + a
    ensures Product(0, b) == 0 && Product(a, 0) == 0
  {
  }

  lemma ProductSum(a: nat, b: nat, c: nat)
    ensures Product(a, b + c) == Product(a, b) + Product(a, c)
  {
  }

  /** If every element contributes equally many, that many each. */
  lemma {:induction false} BindLength<A, B>(xs: seq<A>, f: A -> seq<B>, n: nat)
    requires forall x | x in xs :: |f(x)| == n
    ensures |Bind(xs, f)| == Product(|xs|, n)
  {
    hide Product;
    if xs == [] {
      ProductStep(0, n);
    } else {
      var last := |xs| - 1;
      assert xs[last] in xs && forall x | x in xs[..last] :: x in xs;
      BindLength(xs[..last], f, n);
      ProductStep(last, n);
    }
  }

  lemma GridLength(t: Probe, protocols: seq<string>, ports: seq<int>, digest: Digest)
    ensures |ProbeGrid(protocols, ports, digest)(t)| == Product(|protocols|, |PortsFor(t, ports)|)
  {
    hide Bind, Product, MakeCheck, PortsFor;
    forall protocol | protocol in protocols
      ensures |ProtocolChecks(t, PortsFor(t, ports), digest)(protocol)| == |PortsFor(t, ports)|
    {
      BindLength(PortsFor(t, ports), PortChecks(t, protocol, digest), 1);
      assert Product(|PortsFor(t, ports)|, 1) == |PortsFor(t, ports)| by {
        ProductStep(|PortsFor(t, ports)|, 0);
      }
    }
    BindLength(protocols, ProtocolChecks(t, PortsFor(t, ports), digest), |PortsFor(t, ports)|);
  }

  /** The ports probed through a service, added up over the services. */
  function DNSPorts(services: seq<Service>, ports: seq<int>): nat {
    if services == [] then 0
    else DNSPorts(services[..|services| - 1], ports) + |PortsOfService(services[|services| - 1], ports)|
  }

  predicate HasVIP(svc: Service) {
    svc.clusterIP != "" && svc.clusterIP != "None"
  }

  /** The same over the services that are not headless. */
  function VIPPorts(services: seq<Service>, ports: seq<int>): nat {
    if services == [] then 0
    else
      var svc := services[|services| - 1];
      VIPPorts(services[..|services| - 1], ports) + if HasVIP(svc) then |PortsOfService(svc, ports)| else 0
  }

  function PortsPerNode(services: seq<Service>, ports: seq<int>, vip: bool, dns: bool): nat {
    (if vip then VIPPorts(services, ports) else 0) + if dns then DNSPorts(services, ports) else 0
  }

  lemma ServiceLength(node: string, svc: Service, vip: bool, dns: bool, protocols: seq<string>, ports: seq<int>,
          digest: Digest)
    ensures |Bind(ServiceProbes(node, vip, dns)(svc), ProbeGrid(protocols, ports, digest))|
         == Product(|protocols|, (if vip && HasVIP(svc) then |PortsOfService(svc, ports)| else 0)
                                 + if dns then |PortsOfService(svc, ports)| else 0)
  {
    hide Product, PortsOfService, ProbeGrid;
    var grid := ProbeGrid(protocols, ports, digest);
    var n := |PortsOfService(svc, ports)|;
    var a: seq<Probe> := if vip && HasVIP(svc) then [ServiceVIP(node, svc)] else [];
    var b: seq<Probe> := if dns then [DNS(node, svc)] else [];
    assert ServiceProbes(node, vip, dns)(svc) == a + b;
    GridLength(ServiceVIP(node, svc), protocols, ports, digest);
    GridLength(DNS(node, svc), protocols, ports, digest);
    BindConcat(a, b, grid);
    assert a != [] ==> a[..0] == [] && Bind(a, grid) == Bind(a[..0], grid) + grid(a[0]);
    assert b != [] ==> b[..0] == [] && Bind(b, grid) == Bind(b[..0], grid) + grid(b[0]);
    ProductStep(|protocols|, 0);
    ProductSum(|protocols|, n, n);
  }

  lemma {:induction false} ServicesLength(node: string, services: seq<Service>, vip: bool, dns: bool,
          protocols: seq<string>, ports: seq<int>, digest: Digest)
    ensures |Bind(Bind(services, ServiceProbes(node, vip, dns)), ProbeGrid(protocols, ports, digest))|
         == Product(|protocols|, PortsPerNode(services, ports, vip, dns))
  {
    hide Product, PortsOfService, ProbeGrid, HasVIP, ServiceProbes;
    if services == [] {
      ProductStep(|protocols|, 0);
    } else {
      var rest, svc := services[..|services| - 1], services[|services| - 1];
      var probes, grid := ServiceProbes(node, vip, dns), ProbeGrid(protocols, ports, digest);
      ServicesLength(node, rest, vip, dns, protocols, ports, digest);
      BindConcat(Bind(rest, probes), probes(svc), grid);
      ServiceLength(node, svc, vip, dns, protocols, ports, digest);
      ProductSum(|protocols|, PortsPerNode(rest, ports, vip, dns),
                 (if vip && HasVIP(svc) then |PortsOfService(svc, ports)| else 0)
                   + if dns then |PortsOfService(svc, ports)| else 0);
    }
  }

  /** How many pods are probed, added up over the nodes. */
  function PodTargets(nodes: seq<string>, pods: seq<Pod>, crossNodeOnly: bool): nat {
    if nodes == [] then 0
    else
      var last := |nodes| - 1;
      PodTargets(nodes[..last], pods, crossNodeOnly) + |Bind(pods, PodProbes(nodes[last], crossNodeOnly))|
  }

  /** One more pod is one more target of every node but its own. */
  lemma {:induction false} OneMorePod(nodes: seq<string>, pods: seq<Pod>, pod: Pod, crossNodeOnly: bool)
    ensures PodTargets(nodes, pods + [pod], crossNodeOnly)
         == PodTargets(nodes, pods, crossNodeOnly) + |nodes| - if crossNodeOnly then multiset(nodes)[pod.node] else 0
  {
    if nodes != [] {
      var rest, node := nodes[..|nodes| - 1], nodes[|nodes| - 1];
      assert nodes == rest + [node];
      OneMorePod(rest, pods, pod, crossNodeOnly);
      BindStep(pods, pod, PodProbes(node, crossNodeOnly));
    }
  }

  lemma {:induction false} NoPods(nodes: seq<string>, crossNodeOnly: bool)
    ensures PodTargets(nodes, [], crossNodeOnly) == 0
  {
    if nodes != [] {
      NoPods(nodes[..|nodes| - 1], crossNodeOnly);
    }
  }

  lemma DistinctOnce<T>(s: seq<T>, x: T)
    requires Distinct(s) && x in s
    ensures multiset(s)[x] == 1
  {
    DistinctMultiplicity(s, x);
    assert x in multiset(s);
  }

  /** Counting by pods instead of by nodes. */
  lemma {:induction false} PodTargetsByPod(nodes: seq<string>, pods: seq<Pod>, crossNodeOnly: bool)
    requires Distinct(nodes) && |nodes| > 0 && forall pod | pod in pods :: pod.node in nodes
    ensures PodTargets(nodes, pods, crossNodeOnly) == Product(|pods|, if crossNodeOnly then |nodes| - 1 else |nodes|)
  {
    hide Product, Distinct;
    var n: nat := if crossNodeOnly then |nodes| - 1 else |nodes|;
    if pods == [] {
      NoPods(nodes, crossNodeOnly);
      ProductStep(0, n);
    } else {
      var rest, pod := pods[..|pods| - 1], pods[|pods| - 1];
      assert pods == rest + [pod] && pod in pods && forall p | p in rest :: p in pods;
      PodTargetsByPod(nodes, rest, crossNodeOnly);
      OneMorePod(nodes, rest, pod, crossNodeOnly);
      DistinctOnce(nodes, pod.node);
      ProductStep(|rest|, n);
    }
  }

  lemma PodsLength(node: string, pods: seq<Pod>, crossNodeOnly: bool, protocols: seq<string>, ports: seq<int>,
          digest: Digest)
    ensures |Bind(Bind(pods, PodProbes(node, crossNodeOnly)), ProbeGrid(protocols, ports, digest))|
         == Product(|Bind(pods, PodProbes(node, crossNodeOnly))|, Product(|protocols|, |ports|))
  {
    hide Bind, Product, ProbeGrid;
    var targets, grid := Bind(pods, PodProbes(node, crossNodeOnly)), ProbeGrid(protocols, ports, digest);
    forall t | t in targets ensures |grid(t)| == Product(|protocols|, |ports|) {
      BindMember(pods, PodProbes(node, crossNodeOnly), t);
      GridLength(t, protocols, ports, digest);
    }
    BindLength(targets, grid, Product(|protocols|, |ports|));
  }

  lemma NodeLength(node: string, traffic: Traffic, pods: seq<Pod>, services: seq<Service>, protocols: seq<string>,
          ports: seq<int>, digest: Digest)
    ensures |Bind(NodeProbes(traffic, pods, services)(node), ProbeGrid(protocols, ports, digest))|
         == (if WantsPodIP(traffic) then Product(|Bind(pods, PodProbes(node, traffic.crossNodeOnly))|,
                                                 Product(|protocols|, |ports|))
             else 0)
            + Product(|protocols|, PortsPerNode(services, ports, traffic.includeServiceVIP, traffic.includeDNS))
  {
    hide Product, ProbeGrid, PodProbes, ServiceProbes, PortsPerNode, WantsPodIP;
    var grid := ProbeGrid(protocols, ports, digest);
    var podProbes := Bind(pods, PodProbes(node, traffic.crossNodeOnly));
    var serviceProbes := Bind(services, ServiceProbes(node, traffic.includeServiceVIP, traffic.includeDNS));
    BindConcat(if WantsPodIP(traffic) then podProbes else [], serviceProbes, grid);
    PodsLength(node, pods, traffic.crossNodeOnly, protocols, ports, digest);
    ServicesLength(node, services, traffic.includeServiceVIP, traffic.includeDNS, protocols, ports, digest);
  }

  lemma {:induction false} NodesLength(nodes: seq<string>, traffic: Traffic, pods: seq<Pod>, services: seq<Service>,
          protocols: seq<string>, ports: seq<int>, digest: Digest)
    ensures |Bind(Bind(nodes, NodeProbes(traffic, pods, services)), ProbeGrid(protocols, ports, digest))|
         == (if WantsPodIP(traffic) then Product(PodTargets(nodes, pods, traffic.crossNodeOnly),
                                                 Product(|protocols|, |ports|)) else 0)
            + Product(|nodes|, Product(|protocols|,
                                       PortsPerNode(services, ports, traffic.includeServiceVIP, traffic.includeDNS)))
  {
    hide Bind, Product, ProbeGrid, NodeProbes, PortsPerNode, WantsPodIP, PodProbes;
    var perService := Product(|protocols|,
                              PortsPerNode(services, ports, traffic.includeServiceVIP, traffic.includeDNS));
    var perPod := Product(|protocols|, |ports|);
    if nodes == [] {
      BindAll(nodes, NodeProbes(traffic, pods, services));
      BindAll([], ProbeGrid(protocols, ports, digest));
      ProductStep(0, perPod);
      ProductStep(0, perService);
    } else {
      var rest, node := nodes[..|nodes| - 1], nodes[|nodes| - 1];
      var probes, grid := NodeProbes(traffic, pods, services), ProbeGrid(protocols, ports, digest);
      assert nodes == rest + [node];
      BindStep(rest, node, probes);
      NodesLength(rest, traffic, pods, services, protocols, ports, digest);
      BindConcat(Bind(rest, probes), probes(node), grid);
      NodeLength(node, traffic, pods, services, protocols, ports, digest);
      ProductStep(|rest|, perService);
      SumProduct(PodTargets(rest, pods, traffic.crossNodeOnly), |Bind(pods, PodProbes(node, traffic.crossNodeOnly))|,
                 perPod);
    }
  }

  lemma SumProduct(a: nat, b: nat, c: nat)
    ensures Product(a + b, c) == Product(a, c) + Product(b, c)
  {
  }

  /** The length of the check list in closed form, for pods that have a node, as runnable pods do. */
  lemma CheckCount(traffic: Traffic, pods: seq<Pod>, services: seq<Service>, digest: Digest)
    requires pods != [] && forall pod | pod in pods :: pod.node != ""
    ensures
      var nodes, protocols, ports := SourceNodes(pods), |Protocols(traffic.protocols)|, Ports(traffic, pods, services);
      |BuiltChecks(traffic, pods, services, digest)|
      == (if WantsPodIP(traffic)
          then |pods| * (if traffic.crossNodeOnly then |nodes| - 1 else |nodes|) * (protocols * |ports|) else 0)
         + |nodes| * (protocols * ((if traffic.includeServiceVIP then VIPPorts(services, ports) else 0)
                                   + if traffic.includeDNS then DNSPorts(services, ports) else 0))
  {
    hide Bind, Protocols, Ports, ProbeGrid, NodeProbes, Sort, VIPPorts, DNSPorts, SortedSet;
    var nodes, protocols, ports := SourceNodes(pods), Protocols(traffic.protocols), Ports(traffic, pods, services);
    SortedSetMembers(NodeSet(pods), StringLe);
    assert pods[0].node in NodeSet(pods);
    SortContents(ListedChecks(traffic, pods, services, digest), IdLe);
    NodesLength(nodes, traffic, pods, services, protocols, ports, digest);
    PodTargetsByPod(nodes, pods, traffic.crossNodeOnly);
  }

  /** The documentation of the operator counts VIP checks over all services. The code leaves out headless services, so
      the documented count is right exactly if every service without a cluster address has no port to probe. */
  lemma {:induction false} DocumentedVIPCount(services: seq<Service>, ports: seq<int>)
    ensures VIPPorts(services, ports) <= DNSPorts(services, ports)
    ensures VIPPorts(services, ports) == DNSPorts(services, ports)
            <==> forall svc | svc in services :: HasVIP(svc) || PortsOfService(svc, ports) == []
  {
    hide HasVIP, PortsOfService;
    if services != [] {
      var rest, svc := services[..|services| - 1], services[|services| - 1];
      assert services == rest + [svc];
      DocumentedVIPCount(rest, ports);
    }
  }

  /** A headless service shows the difference. */
  lemma HeadlessServiceIsNotCounted()
    ensures var services := [Service("ns", "db", "None", [])];
            VIPPorts(services, [80]) == 0 && DNSPorts(services, [80]) == 1
  {
    var services := [Service("ns", "db", "None", [])];
    assert services[..0] == [];
    assert VIPPorts(services[..0], [80]) == 0 && DNSPorts(services[..0], [80]) == 0;
  }
}
