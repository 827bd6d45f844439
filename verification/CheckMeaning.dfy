/** What every check of the list dials, and that every wanted combination has its check, stated from pods and services
    (`buildProbeChecks`, internal/controller/networkprobelab_controller.go). */
module CheckMeaning {
  import opened Text
  import opened Sorting
  import opened Sequences
  import opened ProbeTypes
  import opened ProbeChecks
  import CheckLaws

  // ----- what the settings ask for -----

  /** TCP if nothing is configured, else the upper case of what is. */
  predicate WantedProtocol(configured: seq<string>, protocol: string) {
    if configured == [] then protocol == "TCP" else exists i | 0 <= i < |configured| ::
      protocol == ToUpper(configured[i])
  }

  predicate ServicesHavePort(services: seq<Service>, port: int) {
    port > 0 && exists svc | svc in services :: port in svc.ports
  }

  predicate PodsHavePort(pods: seq<Pod>, port: int) {
    port > 0 && exists pod | pod in pods :: port in pod.ports
  }

  /** A positive configured port; without any, a port of some service; without any, of some pod; without any, 80. */
  ghost predicate WantedPort(configured: seq<int>, pods: seq<Pod>, services: seq<Service>, port: int) {
    if exists p :: p in configured && p > 0 then port in configured && port > 0
    else if exists p :: ServicesHavePort(services, p) then ServicesHavePort(services, port)
    else if exists p :: PodsHavePort(pods, p) then PodsHavePort(pods, port)
    else port == 80
  }

  /** A positive port of the service; a wanted port if the service names none at all. */
  ghost predicate WantedServicePort(svc: Service, configured: seq<int>, pods: seq<Pod>, services: seq<Service>,
          port: int) {
    if svc.ports == [] then WantedPort(configured, pods, services, port) else port in svc.ports && port > 0
  }

  /** Pod addresses are probed if asked for, or if nothing is asked for. */
  predicate WantsPods(traffic: Traffic) {
    traffic.includePodIP || !(traffic.includeServiceVIP || traffic.includeDNS)
  }

  // ----- what a check dials -----

  predicate DialsPod(c: Check, pod: Pod) {
    && c.path == "podIP" && c.address == pod.ip && c.targetIP == pod.ip && c.targetNode == pod.node
    && c.targetPod == pod.namespace + "/" + pod.name && c.targetService == "" && c.serviceIP == ""
  }

  predicate DialsVIP(c: Check, svc: Service) {
    && c.path == "serviceVIP" && c.address == svc.clusterIP && c.serviceIP == svc.clusterIP
    && c.targetService == svc.namespace + "/" + svc.name && c.targetPod == "" && c.targetNode == "" && c.targetIP == ""
  }

  predicate DialsName(c: Check, svc: Service) {
    && c.path == "dns" && c.address == svc.name + "." + svc.namespace + ".svc" && c.serviceIP == svc.clusterIP
    && c.targetService == svc.namespace + "/" + svc.name && c.targetPod == "" && c.targetNode == "" && c.targetIP == ""
  }

  predicate Headless(svc: Service) {
    svc.clusterIP == "" || svc.clusterIP == "None"
  }

  ghost predicate PodCheck(c: Check, traffic: Traffic, pods: seq<Pod>, services: seq<Service>, pod: Pod) {
    && WantsPods(traffic) && pod in pods && DialsPod(c, pod) && !(traffic.crossNodeOnly && pod.node == c.sourceNode)
    && WantedPort(traffic.ports, pods, services, c.port)
  }

  ghost predicate VIPCheck(c: Check, traffic: Traffic, pods: seq<Pod>, services: seq<Service>, svc: Service) {
    && traffic.includeServiceVIP && svc in services && !Headless(svc) && DialsVIP(c, svc)
    && WantedServicePort(svc, traffic.ports, pods, services, c.port)
  }

  ghost predicate NameCheck(c: Check, traffic: Traffic, pods: seq<Pod>, services: seq<Service>, svc: Service) {
    && traffic.includeDNS && svc in services && DialsName(c, svc)
    && WantedServicePort(svc, traffic.ports, pods, services, c.port)
  }

  /** The check runs on the node of some pod, with a wanted protocol, and dials one of the listed targets. */
  ghost predicate Wanted(c: Check, traffic: Traffic, pods: seq<Pod>, services: seq<Service>) {
    && c.sourceNode != "" && (exists pod :: pod in pods && pod.node == c.sourceNode)
    && WantedProtocol(traffic.protocols, c.protocol)
    && (|| (exists pod :: PodCheck(c, traffic, pods, services, pod))
        || (exists svc :: VIPCheck(c, traffic, pods, services, svc))
        || (exists svc :: NameCheck(c, traffic, pods, services, svc)))
  }

  /** The same check under whatever identifier. */
  predicate SameButId(c: Check, d: Check) {
    c.(id := d.id) == d
  }

  // ----- protocols and ports -----

  lemma ProtocolsExactly(configured: seq<string>, protocol: string)
    ensures protocol in Protocols(configured) <==> WantedProtocol(configured, protocol)
  {
    hide ToUpper;
    if configured != [] {
      var upper := Uppercased(configured);
      SortContents(upper, StringLe);
      SameMembers(Sort(upper, StringLe), upper);
      if protocol in upper {
        var i :| 0 <= i < |upper| && upper[i] == protocol;
        assert protocol == ToUpper(configured[i]);
      }
      if i :| 0 <= i < |configured| && protocol == ToUpper(configured[i]) {
        assert upper[i] == protocol;
      }
    }
  }

  lemma PortsExactly(traffic: Traffic, pods: seq<Pod>, services: seq<Service>, port: int)
    ensures port in Ports(traffic, pods, services) <==> WantedPort(traffic.ports, pods, services, port)
  {
    SortedSetMembers(PortSet(traffic.ports, pods, services), IntLe);
    assert forall p :: p in Positive(traffic.ports) <==> p in traffic.ports && p > 0;
    assert forall p :: p in ServicePorts(services) <==> ServicesHavePort(services, p);
    assert forall p :: p in PodPorts(pods) <==> PodsHavePort(pods, p);
    NonEmpty(Positive(traffic.ports));
    NonEmpty(ServicePorts(services));
    NonEmpty(PodPorts(pods));
  }

  lemma NonEmpty(s: set<int>)
    ensures s != {} <==> exists x :: x in s
  {
    if forall x :: x !in s {
      assert s == {};
    }
  }

  lemma ServicePortsExactly(svc: Service, traffic: Traffic, pods: seq<Pod>, services: seq<Service>, port: int)
    ensures port in PortsOfService(svc, Ports(traffic, pods, services))
            <==> WantedServicePort(svc, traffic.ports, pods, services, port)
  {
    hide Ports, WantedPort;
    PortsExactly(traffic, pods, services, port);
    if svc.ports != [] {
      var positive := Bind(svc.ports, KeepPositive());
      SortContents(positive, IntLe);
      SameMembers(Sort(positive, IntLe), positive);
      if port in positive {
        BindMember(svc.ports, KeepPositive(), port);
      }
      if port in svc.ports && port > 0 {
        var i :| 0 <= i < |svc.ports| && svc.ports[i] == port;
        BindContains(svc.ports, KeepPositive(), i, port);
      }
    }
  }

  // ----- targets -----

  ghost predicate ProbeWanted(t: Probe, traffic: Traffic, pods: seq<Pod>, services: seq<Service>) {
    && t.node != "" && (exists pod :: pod in pods && pod.node == t.node)
    && match t
       case PodIP(node, pod) => WantsPods(traffic) && pod in pods && !(traffic.crossNodeOnly && pod.node == node)
       case ServiceVIP(_, svc) => traffic.includeServiceVIP && svc in services && !Headless(svc)
       case DNS(_, svc) => traffic.includeDNS && svc in services
  }

  lemma NodesExactly(pods: seq<Pod>, node: string)
    ensures node in SourceNodes(pods) <==> node != "" && exists pod :: pod in pods && pod.node == node
  {
    SortedSetMembers(NodeSet(pods), StringLe);
  }

  lemma NodeProbesExactly(traffic: Traffic, pods: seq<Pod>, services: seq<Service>, node: string, t: Probe)
    requires node != "" && exists pod :: pod in pods && pod.node == node
    ensures t in NodeProbes(traffic, pods, services)(node)
            <==> t.node == node && ProbeWanted(t, traffic, pods, services)
  {
    hide Bind;
    var podProbes, serviceProbes := PodProbes(node, traffic.crossNodeOnly),
        ServiceProbes(node, traffic.includeServiceVIP, traffic.includeDNS);
    if t in NodeProbes(traffic, pods, services)(node) {
      if t in Bind(services, serviceProbes) {
        BindMember(services, serviceProbes, t);
      } else {
        BindMember(pods, podProbes, t);
      }
    }
    if t.node == node && ProbeWanted(t, traffic, pods, services) {
      if t.PodIP? {
        var i :| 0 <= i < |pods| && pods[i] == t.pod;
        BindContains(pods, podProbes, i, t);
      } else {
        var i :| 0 <= i < |services| && services[i] == t.svc;
        BindContains(services, serviceProbes, i, t);
      }
    }
  }

  lemma ProbesExactly(traffic: Traffic, pods: seq<Pod>, services: seq<Service>, t: Probe)
    ensures t in Probes(traffic, pods, services) <==> ProbeWanted(t, traffic, pods, services)
  {
    hide Bind, SourceNodes, NodeProbes;
    var nodes, probes := SourceNodes(pods), NodeProbes(traffic, pods, services);
    if t in Probes(traffic, pods, services) {
      BindMember(nodes, probes, t);
      var node :| node in nodes && t in probes(node);
      NodesExactly(pods, node);
      NodeProbesExactly(traffic, pods, services, node, t);
    }
    if ProbeWanted(t, traffic, pods, services) {
      NodesExactly(pods, t.node);
      NodeProbesExactly(traffic, pods, services, t.node, t);
      var i :| 0 <= i < |nodes| && nodes[i] == t.node;
      BindContains(nodes, probes, i, t);
    }
  }

  // ----- checks -----

  lemma GridHas(t: Probe, protocols: seq<string>, ports: seq<int>, digest: Digest, protocol: string, port: int)
    requires protocol in protocols && port in PortsFor(t, ports)
    ensures MakeCheck(t, protocol, port, digest) in ProbeGrid(protocols, ports, digest)(t)
  {
    hide Bind, MakeCheck, PortsFor;
    var c, row := MakeCheck(t, protocol, port, digest), ProtocolChecks(t, PortsFor(t, ports), digest);
    var j :| 0 <= j < |PortsFor(t, ports)| && PortsFor(t, ports)[j] == port;
    BindContains(PortsFor(t, ports), PortChecks(t, protocol, digest), j, c);
    var i :| 0 <= i < |protocols| && protocols[i] == protocol;
    BindContains(protocols, row, i, c);
  }

  lemma ListedMembers(traffic: Traffic, pods: seq<Pod>, services: seq<Service>, digest: Digest, c: Check)
    ensures c in BuiltChecks(traffic, pods, services, digest) <==> c in ListedChecks(traffic, pods, services, digest)
  {
    hide ListedChecks;
    SortContents(ListedChecks(traffic, pods, services, digest), IdLe);
    SameMembers(BuiltChecks(traffic, pods, services, digest), ListedChecks(traffic, pods, services, digest));
  }

  lemma ListedHas(traffic: Traffic, pods: seq<Pod>, services: seq<Service>, digest: Digest, t: Probe, protocol: string,
          port: int)
    requires t in Probes(traffic, pods, services) && protocol in Protocols(traffic.protocols)
    requires port in PortsFor(t, Ports(traffic, pods, services))
    ensures MakeCheck(t, protocol, port, digest) in ListedChecks(traffic, pods, services, digest)
  {
    hide Bind, Probes, MakeCheck, Protocols, Ports, PortsFor, ProbeGrid;
    var grid := ProbeGrid(Protocols(traffic.protocols), Ports(traffic, pods, services), digest);
    GridHas(t, Protocols(traffic.protocols), Ports(traffic, pods, services), digest, protocol, port);
    var i :| 0 <= i < |Probes(traffic, pods, services)| && Probes(traffic, pods, services)[i] == t;
    BindContains(Probes(traffic, pods, services), grid, i, MakeCheck(t, protocol, port, digest));
  }

  /** Every check of the list is wanted: it dials the address of a listed pod, the address of a listed service that has
      one, or the name of a listed service. */
  lemma ChecksAreWanted(traffic: Traffic, pods: seq<Pod>, services: seq<Service>, digest: Digest, c: Check)
    requires c in BuiltChecks(traffic, pods, services, digest)
    ensures Wanted(c, traffic, pods, services)
  {
    hide BuiltChecks, ListedChecks, Probes, Ports, Protocols, IdText, PortsOfService, WantedProtocol, WantedPort,
         WantedServicePort;
    ListedMembers(traffic, pods, services, digest, c);
    var t, protocol, port := CheckLaws.CheckOrigin(traffic, pods, services, digest, c);
    ProbesExactly(traffic, pods, services, t);
    ProtocolsExactly(traffic.protocols, protocol);
    match t {
      case PodIP(_, pod) =>
        PortsExactly(traffic, pods, services, port);
        assert PodCheck(c, traffic, pods, services, pod);
      case ServiceVIP(_, svc) =>
        ServicePortsExactly(svc, traffic, pods, services, port);
        assert VIPCheck(c, traffic, pods, services, svc);
      case DNS(_, svc) =>
        ServicePortsExactly(svc, traffic, pods, services, port);
        assert NameCheck(c, traffic, pods, services, svc);
    }
  }

  /** The target of a wanted check. */
  ghost function TargetOf(c: Check, traffic: Traffic, pods: seq<Pod>, services: seq<Service>): (t: Probe)
    requires Wanted(c, traffic, pods, services)
    ensures ProbeWanted(t, traffic, pods, services)
    ensures t.node == c.sourceNode
    ensures match t
            case PodIP(_, pod) => PodCheck(c, traffic, pods, services, pod)
            case ServiceVIP(_, svc) => VIPCheck(c, traffic, pods, services, svc)
            case DNS(_, svc) => NameCheck(c, traffic, pods, services, svc)
  {
    if exists pod :: PodCheck(c, traffic, pods, services, pod) then
      var pod :| PodCheck(c, traffic, pods, services, pod);
      PodIP(c.sourceNode, pod)
    else if exists svc :: VIPCheck(c, traffic, pods, services, svc) then
      var svc :| VIPCheck(c, traffic, pods, services, svc);
      ServiceVIP(c.sourceNode, svc)
    else
      var svc :| NameCheck(c, traffic, pods, services, svc);
      DNS(c.sourceNode, svc)
  }

  /** And every wanted check is in the list, under some identifier. */
  lemma WantedChecksAreListed(traffic: Traffic, pods: seq<Pod>, services: seq<Service>, digest: Digest, c: Check)
    requires Wanted(c, traffic, pods, services)
    ensures exists d :: d in BuiltChecks(traffic, pods, services, digest) && SameButId(c, d)
  {
    hide BuiltChecks, ListedChecks, Probes, Ports, Protocols, IdText, PortsOfService, WantedProtocol, WantedPort,
         WantedServicePort, ProbeWanted;
    var t := TargetOf(c, traffic, pods, services);
    ProbesExactly(traffic, pods, services, t);
    ProtocolsExactly(traffic.protocols, c.protocol);
    if t.PodIP? {
      PortsExactly(traffic, pods, services, c.port);
    } else {
      ServicePortsExactly(t.svc, traffic, pods, services, c.port);
    }
    ListedHas(traffic, pods, services, digest, t, c.protocol, c.port);
    var d := MakeCheck(t, c.protocol, c.port, digest);
    ListedMembers(traffic, pods, services, digest, d);
    assert SameButId(c, d);
  }

  // ----- identifiers -----

  /** The text behind an identifier: the node, the namespace and the name of the target, protocol, port and path. */
  function Identity(c: Check, namespace: string, name: string): string
    requires c.port > 0
  {
    c.sourceNode + "|" + (namespace + "|" + (name + "|" + (c.protocol + "|" + Decimal(c.port) + "|" + c.path)))
  }

  /** The identifier of a check digests what the check dials. */
  lemma IdentifiersExactly(t: Probe, protocol: string, port: int, digest: Digest)
    requires CheckLaws.PartsLegible(t) && port > 0
    ensures var c := MakeCheck(t, protocol, port, digest);
            match t
            case PodIP(_, pod) => c.id == digest(Identity(c, pod.namespace, pod.name))
            case ServiceVIP(_, svc) => c.id == digest(Identity(c, svc.namespace, svc.name))
            case DNS(_, svc) => c.id == digest(Identity(c, svc.namespace, svc.name))
  {
    CheckLaws.IdTextParts(t, protocol, port);
    hide IdText, Decimal;
  }

  // ----- runnable pods -----

  /** A pod is kept, as often as it is listed, exactly if it runs, has an address and a node, and its node is
      allowed. */
  lemma {:induction false} RunnableExactly(pods: seq<Pod>, allowed: Option<set<string>>, pod: Pod)
    ensures multiset(Bind(pods, KeepRunnable(allowed)))[pod]
         == if pod.running && pod.ip != "" && pod.node != "" && (allowed == None || pod.node in allowed.value)
            then multiset(pods)[pod] else 0
  {
    if pods != [] {
      var front, last := pods[..|pods| - 1], pods[|pods| - 1];
      assert pods == front + [last];
      RunnableExactly(front, allowed, pod);
      assert Bind(pods, KeepRunnable(allowed)) == Bind(front, KeepRunnable(allowed)) + KeepRunnable(allowed)(last);
    }
  }
}
