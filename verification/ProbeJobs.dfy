/** One pass over the probe jobs (`ensureAndReadProbeJobs` and what it calls,
    internal/controller/networkprobelab_controller.go): for every source node its job is created, awaited, deleted or
    read. */
module ProbeJobs {
  import Text
  import opened Sorting
  import Sequences
  import opened ProbeTypes
  import opened ProbeChecks
  import Names

  /** The lab's name, the names of the cluster's nodes, and the digests: `shortHash`, the one behind `checkID`, and the
      one over a list of checks. */
  datatype Env = Env(lab: string, nodes: set<string>, short: string -> string, id: string -> string,
                     payload: seq<Check> -> string)

  /** What the job specification allows a probe: attempts per check, seconds per attempt, seconds in all. */
  datatype Budget = Budget(count: int, timeout: int, deadline: int)

  datatype Job = Job(uid: nat, sourceNode: string, hash: string, generation: int, payload: seq<Check>, labHash: string,
                     budget: Budget, deleting: bool, succeeded: int, failed: int)

  datatype OwnerRef = OwnerRef(kind: string, uid: nat)

  /** A termination message: the JSON text of a report, or something else, for instance a truncated report. */
  datatype Message = Unreadable | Readable(report: Report)

  datatype ContainerStatus = ContainerStatus(name: string, terminated: Option<Message>)

  datatype ProbePod = ProbePod(namespace: string, name: string, jobName: string, owners: seq<OwnerRef>, ip: string,
                               statuses: seq<ContainerStatus>)

  /** A report and where it was read: the job's UID and the pod. */
  datatype Reading = Reading(uid: nat, pod: ProbePod, report: Report)

  /** The jobs in the API server, the next free UID, and every job ever created through a pass, by UID. */
  datatype Store = Store(jobs: map<string, Job>, nextUid: nat, created: map<nat, Job>)

  /** What a pass has done so far. */
  datatype Progress = Progress(store: Store, readings: seq<Reading>, pending: bool, failed: bool)

  function JobName(e: Env, node: string): string {
    Names.ProbeJobName(e.lab, node, e.short)
  }

  function LabLabel(e: Env): string {
    e.short(e.lab)
  }

  // ----- grouping by source node -----

  function KeepNode(node: string): Check -> seq<Check> {
    (c: Check) => if c.sourceNode == node then [c] else []
  }

  function GroupOf(checks: seq<Check>, node: string): seq<Check> {
    Sequences.Bind(checks, KeepNode(node))
  }

  function NodesIn(checks: seq<Check>): set<string> {
    set c | c in checks :: c.sourceNode
  }

  ghost function NodesOf(checks: seq<Check>): seq<string> {
    SortedSet(NodesIn(checks), Text.StringLe)
  }

  method GroupByNode(checks: seq<Check>) returns (grouped: map<string, seq<Check>>, nodes: seq<string>)
    ensures nodes == NodesOf(checks)
    ensures grouped.Keys == NodesIn(checks)
    ensures forall node | node in grouped :: grouped[node] == GroupOf(checks, node)
  {
    hide GroupOf, NodesIn;
    grouped := map[];
    NothingGrouped(checks[..0]);
    for i := 0 to |checks|
      invariant grouped.Keys == NodesIn(checks[..i])
      invariant forall node | node in grouped :: grouped[node] == GroupOf(checks[..i], node)
    {
      GroupStep(checks, i);
      var node := checks[i].sourceNode;
      if node !in grouped {
        NoGroup(checks[..i], node);
      }
      grouped := grouped[node := (if node in grouped then grouped[node] else []) + [checks[i]]];
    }
    assert checks[..|checks|] == checks;
    StringLePreorder();
    nodes := ListSorted(grouped.Keys, Text.StringLe);
  }

  lemma NothingGrouped(checks: seq<Check>)
    requires checks == []
    ensures NodesIn(checks) == {}
  {
  }

  lemma GroupStep(checks: seq<Check>, i: nat)
    requires i < |checks|
    ensures NodesIn(checks[..i + 1]) == NodesIn(checks[..i]) + {checks[i].sourceNode}
    ensures forall n ::
              GroupOf(checks[..i + 1], n) == GroupOf(checks[..i], n)
                + if checks[i].sourceNode == n then [checks[i]] else []
  {
    assert checks[..i + 1] == checks[..i] + [checks[i]];
    forall n ensures GroupOf(checks[..i + 1], n) == GroupOf(checks[..i], n) + KeepNode(n)(checks[i]) {
      Sequences.BindTake(checks, i, KeepNode(n));
    }
  }

  lemma {:induction false} NoGroup(checks: seq<Check>, node: string)
    requires node !in NodesIn(checks)
    ensures GroupOf(checks, node) == []
  {
    if checks != [] {
      var last := |checks| - 1;
      assert checks[last] in checks && forall c | c in checks[..last] :: c in checks;
      NoGroup(checks[..last], node);
    }
  }

  // ----- the hash of a group -----

  function ChecksHash(e: Env, checks: seq<Check>): string {
    e.payload(Sort(checks, IdLe))
  }

  method HashChecks(e: Env, checks: seq<Check>) returns (hash: string)
    requires IdsTell(checks)
    ensures hash == ChecksHash(e, checks)
  {
    IdLePreorder();
    var copied := SortSlice(checks, IdLe);
    IdsSeparate(checks);
    SortUnique(checks, copied, IdLe);
    hash := e.payload(copied);
  }

  // ----- reading a report -----

  predicate OwnedByJob(pod: ProbePod, uid: nat) {
    OwnerRef("Job", uid) in pod.owners
  }

  /** The termination message of the first container called "probe" that has terminated. */
  function ProbeMessage(statuses: seq<ContainerStatus>): Option<Message> {
    if statuses == [] then None
    else if statuses[0].name == "probe" && statuses[0].terminated.Some? then statuses[0].terminated
    else ProbeMessage(statuses[1..])
  }

  function Stamp(results: seq<Result>, sourcePod: string, sourceIP: string): (r: seq<Result>)
    ensures |r| == |results|
  {
    seq(|results|, i requires 0 <= i < |results| => results[i].(sourcePod := sourcePod, sourceIP := sourceIP))
  }

  /** The report with the pod it comes from in every result. */
  function Stamped(report: Report, pod: ProbePod): Report {
    report.(results := Stamp(report.results, pod.namespace + "/" + pod.name, pod.ip))
  }

  /** The first pod of the job that has a message decides; a message that is no report is an error. */
  function ReadReport(pods: seq<ProbePod>, name: string, uid: nat): Option<Reading> {
    if pods == [] then None
    else if pods[0].jobName == name && OwnedByJob(pods[0], uid) && ProbeMessage(pods[0].statuses).Some? then
      var pod, message := pods[0], ProbeMessage(pods[0].statuses).value;
      if message.Unreadable? then None
      else Some(Reading(uid, pod, Stamped(message.report, pod)))
    else ReadReport(pods[1..], name, uid)
  }

  method FindProbeMessage(statuses: seq<ContainerStatus>) returns (message: Option<Message>)
    ensures message == ProbeMessage(statuses)
  {
    for i := 0 to |statuses|
      invariant ProbeMessage(statuses) == ProbeMessage(statuses[i..])
    {
      if statuses[i].name != "probe" || statuses[i].terminated.None? {
        continue;
      }
      return statuses[i].terminated;
    }
    return None;
  }

  method StampResults(report: Report, sourcePod: string, sourceIP: string) returns (stamped: Report)
    ensures stamped == report.(results := Stamp(report.results, sourcePod, sourceIP))
  {
    var results := report.results;
    for i := 0 to |results|
      invariant |results| == |report.results|
      invariant forall k | 0 <= k < i :: results[k] == report.results[k].(sourcePod := sourcePod, sourceIP := sourceIP)
      invariant forall k | i <= k < |results| :: results[k] == report.results[k]
    {
      results := results[i := results[i].(sourcePod := sourcePod, sourceIP := sourceIP)];
    }
    stamped := report.(results := results);
  }

  method OwnedBy(pod: ProbePod, uid: nat) returns (owned: bool)
    ensures owned <==> OwnedByJob(pod, uid)
  {
    for i := 0 to |pod.owners|
      invariant OwnerRef("Job", uid) !in pod.owners[..i]
    {
      if pod.owners[i].kind == "Job" && pod.owners[i].uid == uid {
        return true;
      }
    }
    return false;
  }

  method ReadProbeJobReport(pods: seq<ProbePod>, name: string, uid: nat) returns (reading: Option<Reading>)
    ensures reading == ReadReport(pods, name, uid)
  {
    for i := 0 to |pods|
      invariant ReadReport(pods, name, uid) == ReadReport(pods[i..], name, uid)
    {
      if pods[i].jobName != name {
        continue;
      }
      var owned := OwnedBy(pods[i], uid);
      if !owned {
        continue;
      }
      var message := FindProbeMessage(pods[i].statuses);
      if message.None? {
        continue;
      }
      if message.value.Unreadable? {
        return None;
      }
      var stamped := StampResults(message.value.report, pods[i].namespace + "/" + pods[i].name, pods[i].ip);
      return Some(Reading(uid, pods[i], stamped));
    }
    return None;
  }

  // ----- one node -----

  /** What a pass works on: the lab's generation and traffic settings, the check list, the pods, and the jobs whose API
      call fails. */
  datatype Pass = Pass(generation: int, traffic: Traffic, checks: seq<Check>, pods: seq<ProbePod>, faulty: set<string>)

  datatype Action = Create | Await | Delete | Collect(reading: Reading) | Abort

  /** The job was made for this generation and these checks. */
  predicate Current(e: Env, p: Pass, node: string, job: Job) {
    job.hash == ChecksHash(e, GroupOf(p.checks, node)) && job.generation == p.generation
  }

  function Decide(e: Env, p: Pass, jobs: map<string, Job>, node: string): Action {
    var name := JobName(e, node);
    if name in p.faulty then Abort
    else if name !in jobs then Create
    else if jobs[name].deleting then Await
    else if !Current(e, p, node, jobs[name]) then Delete
    else if jobs[name].succeeded > 0 then
      match ReadReport(p.pods, name, jobs[name].uid)
      case None => Abort
      case Some(reading) => Collect(reading)
    else if jobs[name].failed > 0 then Abort
    else Await
  }

  /** `defaultInt32` */
  function DefaultInt(value: int, fallback: int): int {
    if value <= 0 then fallback else value
  }

  /** `probeJobDeadlineSeconds`: a minute more than all attempts may take, but at least two minutes and at most an
      hour. */
  function Deadline(traffic: Traffic, checkCount: int): (d: int)
    ensures 120 <= d <= 3600
  {
    var d := AllAttempts(traffic, checkCount) + 60;
    if d < 120 then 120 else if d > 3600 then 3600 else d
  }

  function AllAttempts(traffic: Traffic, checkCount: int): int {
    (if checkCount <= 0 then 1 else checkCount) * DefaultInt(traffic.count, 1) * DefaultInt(traffic.timeoutSeconds, 5)
  }

  function BudgetOf(traffic: Traffic, checkCount: int): Budget {
    Budget(DefaultInt(traffic.count, 1), DefaultInt(traffic.timeoutSeconds, 5), Deadline(traffic, checkCount))
  }

  method ProbeJobDeadlineSeconds(traffic: Traffic, checkCount: int) returns (deadline: int)
    ensures deadline == Deadline(traffic, checkCount)
    ensures AllAttempts(traffic, checkCount) + 60 <= deadline <==> AllAttempts(traffic, checkCount) <= 3540
  {
    var count := DefaultInt(traffic.count, 1);
    var timeout := DefaultInt(traffic.timeoutSeconds, 5);
    var checks := checkCount;
    if checks <= 0 {
      checks := 1;
    }
    deadline := checks * count * timeout + 60;
    if deadline < 120 {
      return 120;
    }
    if deadline > 3600 {
      return 3600;
    }
  }

  /** Settings that are not positive count as one attempt, of five seconds, and no checks as one. */
  lemma DefaultsCount(traffic: Traffic, checkCount: int)
    ensures traffic.count <= 0 ==> BudgetOf(traffic, checkCount) == BudgetOf(traffic.(count := 1), checkCount)
    ensures traffic.timeoutSeconds <= 0 ==>
              BudgetOf(traffic, checkCount) == BudgetOf(traffic.(timeoutSeconds := 5), checkCount)
    ensures checkCount <= 0 ==> BudgetOf(traffic, checkCount) == BudgetOf(traffic, 1)
  {
  }

  /** The deadline is a minute more than all attempts of all checks may take, within two minutes and an hour. */
  lemma BudgetExactly(traffic: Traffic, checkCount: int)
    requires traffic.count > 0 && traffic.timeoutSeconds > 0 && checkCount > 0
    ensures var b, d := BudgetOf(traffic, checkCount), checkCount * traffic.count * traffic.timeoutSeconds + 60;
            && b.count == traffic.count && b.timeout == traffic.timeoutSeconds
            && 120 <= b.deadline <= 3600
            && (120 <= d <= 3600 ==> b.deadline == d) && (d < 120 ==> b.deadline == 120)
            && (d > 3600 ==> b.deadline == 3600)
  {
  }

  /** With the settings of a lab that leaves them out, 709 checks of one node may take longer than the cap of an hour
      allows. */
  lemma DeadlineTooShort(traffic: Traffic)
    requires traffic.count == 0 && traffic.timeoutSeconds == 0
    ensures AllAttempts(traffic, 709) + 60 > Deadline(traffic, 709)
    ensures AllAttempts(traffic, 708) + 60 <= Deadline(traffic, 708)
  {
  }

  /** `buildProbeJob` */
  function NewJob(e: Env, p: Pass, node: string, uid: nat): Job {
    var group := GroupOf(p.checks, node);
    Job(uid, node, ChecksHash(e, group), p.generation, group, LabLabel(e), BudgetOf(p.traffic, |group|), false, 0, 0)
  }

  function Visit(e: Env, p: Pass, s: Progress, node: string): Progress {
    var name := JobName(e, node);
    match Decide(e, p, s.store.jobs, node)
    case Create =>
      var job := NewJob(e, p, node, s.store.nextUid);
      s.(store := Store(s.store.jobs[name := job], s.store.nextUid + 1, s.store.created[s.store.nextUid := job]),
         pending := true)
    case Await => s.(pending := true)
    case Delete => s.(store := s.store.(jobs := s.store.jobs[name := s.store.jobs[name].(deleting := true)]),
                      pending := true)
    case Collect(reading) => s.(readings := s.readings + [reading])
    case Abort => s.(failed := true)
  }

  /** The pass over some nodes: it stops at the first error and keeps what it did before. */
  function Visits(e: Env, p: Pass, store: Store, nodes: seq<string>): Progress {
    if nodes == [] then Progress(store, [], false, false)
    else
      var s := Visits(e, p, store, nodes[..|nodes| - 1]);
      if s.failed then s else Visit(e, p, s, nodes[|nodes| - 1])
  }

  predicate ReportLe(a: Reading, b: Reading) {
    Text.StrLe(a.report.sourceNode, b.report.sourceNode)
  }

  /** The whole pass; the reports come out sorted by source node. */
  ghost function PassOver(e: Env, p: Pass, store: Store): Progress {
    var s := Visits(e, p, store, NodesOf(p.checks));
    if s.failed then s else s.(readings := Sort(s.readings, ReportLe))
  }

  /** The jobs and the probe pods behind the API server. */
  class JobStore {
    var jobs: map<string, Job>
    var pods: seq<ProbePod>
    var nextUid: nat
    ghost var created: map<nat, Job>

    ghost function Content(): Store
      reads this
    {
      Store(jobs, nextUid, created)
    }

    method CreateJob(e: Env, generation: int, traffic: Traffic, name: string, node: string, checks: seq<Check>,
            hash: string)
      modifies this`jobs, this`nextUid, this`created
      ensures var job := Job(old(nextUid), node, hash, generation, checks, LabLabel(e), BudgetOf(traffic, |checks|),
                             false, 0, 0);
              Content() == Store(old(jobs)[name := job], old(nextUid) + 1, old(created)[old(nextUid) := job])
    {
      var deadline := ProbeJobDeadlineSeconds(traffic, |checks|);
      var budget := Budget(DefaultInt(traffic.count, 1), DefaultInt(traffic.timeoutSeconds, 5), deadline);
      var job := Job(nextUid, node, hash, generation, checks, LabLabel(e), budget, false, 0, 0);
      jobs := jobs[name := job];
      created := created[nextUid := job];
      nextUid := nextUid + 1;
    }

    /** Deleting sets a deletion timestamp; the object goes away later. */
    method DeleteJob(name: string)
      modifies this`jobs
      ensures jobs == if name in old(jobs) then old(jobs)[name := old(jobs)[name].(deleting := true)] else old(jobs)
    {
      if name in jobs {
        jobs := jobs[name := jobs[name].(deleting := true)];
      }
    }

    /** One round of the loop. */
    method VisitNode(e: Env, ghost p: Pass, generation: int, traffic: Traffic, node: string, nodeChecks: seq<Check>,
            faulty: set<string>, before: seq<Reading>, waiting: bool)
      returns (readings: seq<Reading>, pending: bool, failed: bool)
      requires p == Pass(generation, traffic, p.checks, pods, faulty)
      requires nodeChecks == GroupOf(p.checks, node) && IdsTell(nodeChecks)
      modifies this`jobs, this`nextUid, this`created
      ensures Progress(Content(), readings, pending, failed)
           == Visit(e, p, Progress(old(Content()), before, waiting, false), node)
    {
      hide JobName, ChecksHash, GroupOf, ReadReport;
      var name := JobName(e, node);
      var expectedHash := HashChecks(e, nodeChecks);
      readings, pending, failed := before, waiting, false;
      if name in faulty {
        failed := true;
        return;
      }
      if name !in jobs {
        CreateJob(e, generation, traffic, name, node, nodeChecks, expectedHash);
        pending := true;
        return;
      }
      var job := jobs[name];
      if job.deleting {
        pending := true;
        return;
      }
      if job.hash != expectedHash || job.generation != generation {
        DeleteJob(name);
        pending := true;
        return;
      }
      if job.succeeded > 0 {
        var reading := ReadProbeJobReport(pods, name, job.uid);
        if reading.None? {
          failed := true;
          return;
        }
        readings := readings + [reading.value];
        return;
      }
      if job.failed > 0 {
        failed := true;
        return;
      }
      pending := true;
    }

    /** `ensureAndReadProbeJobs`. Equal source nodes in reports keep the order in which they were read. */
    method EnsureAndReadProbeJobs(e: Env, generation: int, traffic: Traffic, checks: seq<Check>, faulty: set<string>)
      returns (readings: seq<Reading>, pending: bool, failed: bool)
      requires IdsTell(checks)
      modifies this`jobs, this`nextUid, this`created
      ensures Progress(Content(), readings, pending, failed)
           == PassOver(e, Pass(generation, traffic, checks, pods, faulty), old(Content()))
    {
      hide Visit, GroupOf, Sort, SortedSet, NodesIn;
      ghost var p, start := Pass(generation, traffic, checks, pods, faulty), Content();
      var grouped, nodes := GroupByNode(checks);
      SortedSetMembers(NodesIn(checks), Text.StringLe);
      readings, pending, failed := [], false, false;
      for i := 0 to |nodes|
        invariant !failed
        invariant Progress(Content(), readings, pending, failed) == Visits(e, p, start, nodes[..i])
      {
        assert nodes[..i + 1][..i] == nodes[..i];
        GroupMembers(checks, nodes[i]);
        readings, pending, failed :=
          VisitNode(e, p, generation, traffic, nodes[i], grouped[nodes[i]], faulty, readings, pending);
        if failed {
          VisitsStop(e, p, start, nodes, i + 1);
          return;
        }
      }
      assert nodes[..|nodes|] == nodes;
      readings := Sort(readings, ReportLe);
    }
  }

  lemma GroupMembers(checks: seq<Check>, node: string)
    ensures forall c | c in GroupOf(checks, node) :: c in checks && c.sourceNode == node
  {
    forall c | c in GroupOf(checks, node) ensures c in checks && c.sourceNode == node {
      Sequences.BindMember(checks, KeepNode(node), c);
    }
  }

  /** After an error nothing more happens. */
  lemma {:induction false} VisitsStop(e: Env, p: Pass, store: Store, nodes: seq<string>, i: nat)
    requires i <= |nodes| && Visits(e, p, store, nodes[..i]).failed
    ensures Visits(e, p, store, nodes) == Visits(e, p, store, nodes[..i])
    decreases |nodes|
  {
    if i < |nodes| {
      var rest := nodes[..|nodes| - 1];
      assert rest[..i] == nodes[..i];
      VisitsStop(e, p, store, rest, i);
    } else {
      assert nodes[..i] == nodes;
    }
  }
}
