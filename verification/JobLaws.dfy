/** What one pass over the probe jobs does, stated without its loop (`ensureAndReadProbeJobs`,
    internal/controller/networkprobelab_controller.go). */
module JobLaws {
  import Text
  import opened Sorting
  import opened Sequences
  import opened ProbeTypes
  import opened ProbeChecks
  import opened ProbeJobs
  import CheckLaws
  import Names

  /** What the digests are for: no two nodes of the cluster, no two identifier texts and no two check lists share
      one. */
  ghost predicate Collisionless(e: Env) {
    && Names.ShortHex(e.short) && Names.Tells(e.short, e.nodes) && CheckLaws.Injective(e.id)
    && forall a, b :: e.payload(a) == e.payload(b) ==> a == b
  }

  ghost predicate NamesDiffer(e: Env, nodes: seq<string>) {
    forall i, j | 0 <= i < j < |nodes| :: JobName(e, nodes[i]) != JobName(e, nodes[j])
  }

  predicate OnNodes(e: Env, checks: seq<Check>) {
    forall c | c in checks :: c.sourceNode in e.nodes
  }

  lemma NodesOfMembers(checks: seq<Check>)
    ensures Distinct(NodesOf(checks))
    ensures forall c | c in checks :: c.sourceNode in NodesOf(checks)
    ensures forall node | node in NodesOf(checks) :: exists c :: c in checks && c.sourceNode == node
  {
    SortedSetMembers(NodesIn(checks), Text.StringLe);
    forall c | c in checks ensures c.sourceNode in NodesOf(checks) {
      assert c.sourceNode in NodesIn(checks);
    }
  }

  lemma NodeNamesDiffer(e: Env, checks: seq<Check>)
    requires Collisionless(e) && OnNodes(e, checks)
    ensures NamesDiffer(e, NodesOf(checks))
    ensures forall node | node in NodesOf(checks) :: node in e.nodes
  {
    hide NodesOf;
    var nodes := NodesOf(checks);
    NodesOfMembers(checks);
    forall i, j | 0 <= i < j < |nodes| ensures JobName(e, nodes[i]) != JobName(e, nodes[j]) {
      assert nodes[i] in nodes && nodes[j] in nodes;
      Names.JobNamesDiffer(e.lab, nodes[i], nodes[j], e.short);
    }
  }

  // ----- the situations a job can be in -----

  predicate Absent(e: Env, jobs: map<string, Job>, node: string) {
    JobName(e, node) !in jobs
  }

  /** Made for another generation or other checks, and not yet being deleted. */
  predicate Stale(e: Env, p: Pass, jobs: map<string, Job>, node: string) {
    var name := JobName(e, node);
    name in jobs && !jobs[name].deleting && !Current(e, p, node, jobs[name])
  }

  predicate Live(e: Env, p: Pass, jobs: map<string, Job>, node: string) {
    var name := JobName(e, node);
    name in jobs && !jobs[name].deleting && Current(e, p, node, jobs[name])
  }

  predicate Done(e: Env, p: Pass, jobs: map<string, Job>, node: string) {
    Live(e, p, jobs, node) && jobs[JobName(e, node)].succeeded > 0
  }

  predicate Lost(e: Env, p: Pass, jobs: map<string, Job>, node: string) {
    Live(e, p, jobs, node) && jobs[JobName(e, node)].succeeded <= 0 && jobs[JobName(e, node)].failed > 0
  }

  /** The report of a finished job cannot be had. */
  predicate Illegible(e: Env, p: Pass, jobs: map<string, Job>, node: string) {
    Done(e, p, jobs, node) && ReadReport(p.pods, JobName(e, node), jobs[JobName(e, node)].uid).None?
  }

  predicate Fails(e: Env, p: Pass, jobs: map<string, Job>, node: string) {
    JobName(e, node) in p.faulty || Lost(e, p, jobs, node) || Illegible(e, p, jobs, node)
  }

  predicate SameJob(a: map<string, Job>, b: map<string, Job>, name: string) {
    (name in a <==> name in b) && (name in a ==> a[name] == b[name])
  }

  /** What the pass did to the job of a node: a job was created exactly if there was none, deleted exactly if it was
      stale, and left alone otherwise. */
  predicate Handled(e: Env, p: Pass, before: Store, after: Store, node: string) {
    var name := JobName(e, node);
    && (Absent(e, before.jobs, node) ==>
          && name in after.jobs && before.nextUid <= after.jobs[name].uid < after.nextUid
          && after.jobs[name] == NewJob(e, p, node, after.jobs[name].uid)
          && after.jobs[name].uid in after.created && after.created[after.jobs[name].uid] == after.jobs[name])
    && (Stale(e, p, before.jobs, node) ==>
        name in after.jobs && after.jobs[name] == before.jobs[name].(deleting := true))
    && (!Absent(e, before.jobs, node) && !Stale(e, p, before.jobs, node) ==> SameJob(before.jobs, after.jobs, name))
  }

  ghost predicate OthersUntouched(e: Env, nodes: seq<string>, before: Store, after: Store) {
    && (forall name :: (forall i | 0 <= i < |nodes| :: JobName(e, nodes[i]) != name) ==>
        SameJob(before.jobs, after.jobs, name))
    && before.nextUid <= after.nextUid
    && (forall uid | uid in before.created && uid < before.nextUid ::
        uid in after.created && after.created[uid] == before.created[uid])
  }

  /** The report of a finished job was read through that job's UID. */
  predicate ReadFrom(e: Env, p: Pass, jobs: map<string, Job>, node: string, reading: Reading) {
    var name := JobName(e, node);
    && Done(e, p, jobs, node) && reading.uid == jobs[name].uid
    && ReadReport(p.pods, name, reading.uid) == Some(reading)
  }

  ghost predicate Waiting(e: Env, p: Pass, jobs: map<string, Job>, nodes: seq<string>) {
    exists i :: 0 <= i < |nodes| && !Done(e, p, jobs, nodes[i])
  }

  ghost predicate OnePass(e: Env, p: Pass, nodes: seq<string>, before: Store, after: Progress) {
    && OthersUntouched(e, nodes, before, after.store)
    && (forall i | 0 <= i < |nodes| :: Handled(e, p, before, after.store, nodes[i]))
    && (after.pending <==> Waiting(e, p, before.jobs, nodes))
    && (!after.pending ==> ReadAll(e, p, before.jobs, nodes, after.readings))
  }

  lemma DecideUntouched(e: Env, p: Pass, nodes: seq<string>, node: string, before: Store, after: Store)
    requires NamesDiffer(e, nodes + [node]) && OthersUntouched(e, nodes, before, after)
    ensures SameJob(before.jobs, after.jobs, JobName(e, node))
    ensures Decide(e, p, after.jobs, node) == Decide(e, p, before.jobs, node)
  {
    hide JobName, Current, ReadReport;
    var all := nodes + [node];
    forall i | 0 <= i < |nodes| ensures JobName(e, nodes[i]) != JobName(e, node) {
      assert JobName(e, all[i]) != JobName(e, all[|nodes|]);
    }
  }

  lemma VisitOthers(e: Env, p: Pass, nodes: seq<string>, node: string, before: Store, s: Progress)
    requires OthersUntouched(e, nodes, before, s.store)
    ensures OthersUntouched(e, nodes + [node], before, Visit(e, p, s, node).store)
  {
    hide JobName, NewJob, Decide;
    var all, after := nodes + [node], Visit(e, p, s, node).store;
    assert forall name | name != JobName(e, node) :: SameJob(s.store.jobs, after.jobs, name);
    forall name | forall i | 0 <= i < |all| :: JobName(e, all[i]) != name
      ensures SameJob(before.jobs, after.jobs, name)
    {
      assert JobName(e, all[|nodes|]) != name;
      forall i | 0 <= i < |nodes| ensures JobName(e, nodes[i]) != name {
        assert JobName(e, all[i]) != name;
      }
      assert SameJob(before.jobs, s.store.jobs, name);
      assert SameJob(s.store.jobs, after.jobs, name);
    }
  }

  lemma PrefixDiffers(e: Env, nodes: seq<string>, node: string)
    requires NamesDiffer(e, nodes + [node])
    ensures NamesDiffer(e, nodes)
  {
    var all := nodes + [node];
    forall i, j | 0 <= i < j < |nodes| ensures JobName(e, nodes[i]) != JobName(e, nodes[j]) {
      assert JobName(e, all[i]) != JobName(e, all[j]);
    }
  }

  /** Visiting one more node keeps what was done for the others. */
  lemma VisitKeeps(e: Env, p: Pass, nodes: seq<string>, node: string, before: Store, s: Progress, i: nat)
    requires i < |nodes| && NamesDiffer(e, nodes + [node]) && Handled(e, p, before, s.store, nodes[i])
    requires UidsBelow(s.store)
    ensures Handled(e, p, before, Visit(e, p, s, node).store, nodes[i])
  {
    hide JobName, NewJob, Decide, Current;
    var all := nodes + [node];
    assert JobName(e, all[i]) != JobName(e, all[|nodes|]);
  }

  lemma VisitHandles(e: Env, p: Pass, node: string, before: Store, s: Progress)
    requires Decide(e, p, s.store.jobs, node) == Decide(e, p, before.jobs, node)
    requires SameJob(before.jobs, s.store.jobs, JobName(e, node)) && before.nextUid <= s.store.nextUid
    requires !Visit(e, p, s, node).failed
    ensures !Fails(e, p, before.jobs, node)
    ensures Handled(e, p, before, Visit(e, p, s, node).store, node)
    ensures Visit(e, p, s, node).pending <==> s.pending || !Done(e, p, before.jobs, node)
    ensures Done(e, p, before.jobs, node) ==>
              exists reading :: ReadFrom(e, p, before.jobs, node, reading)
                && Visit(e, p, s, node).readings == s.readings + [reading]
  {
    hide JobName, ChecksHash, GroupOf, Current, ReadReport;
    if Done(e, p, before.jobs, node) {
      var reading := Decide(e, p, before.jobs, node).reading;
      assert ReadFrom(e, p, before.jobs, node, reading) by {
        ReadUid(p.pods, JobName(e, node), before.jobs[JobName(e, node)].uid);
      }
    }
  }

  lemma {:induction false} ReadUid(pods: seq<ProbePod>, name: string, uid: nat)
    ensures ReadReport(pods, name, uid).Some? ==> ReadReport(pods, name, uid).value.uid == uid
  {
    if pods != [] {
      ReadUid(pods[1..], name, uid);
    }
  }

  predicate UidsBelow(store: Store) {
    forall uid | uid in store.created :: uid < store.nextUid
  }

  lemma VisitUids(e: Env, p: Pass, s: Progress, node: string)
    requires UidsBelow(s.store)
    ensures UidsBelow(Visit(e, p, s, node).store)
  {
    hide Decide, JobName, NewJob;
  }

  lemma {:induction false} VisitsUids(e: Env, p: Pass, store: Store, nodes: seq<string>)
    requires UidsBelow(store)
    ensures UidsBelow(Visits(e, p, store, nodes).store)
  {
    hide Visit, UidsBelow;
    if nodes != [] {
      VisitsUids(e, p, store, nodes[..|nodes| - 1]);
      VisitUids(e, p, Visits(e, p, store, nodes[..|nodes| - 1]), nodes[|nodes| - 1]);
    }
  }

  ghost predicate ReadAll(e: Env, p: Pass, jobs: map<string, Job>, nodes: seq<string>, readings: seq<Reading>) {
    |readings| == |nodes| && forall i | 0 <= i < |nodes| :: ReadFrom(e, p, jobs, nodes[i], readings[i])
  }

  /** One pass, if nothing fails: it creates the jobs of exactly the nodes without one, deletes exactly the stale ones,
      touches no others, and is pending exactly if some node has no finished job of this generation and these checks;
      otherwise it has the report of every node, in the order of the nodes. */
  lemma {:induction false} OnePassDoes(e: Env, p: Pass, store: Store, nodes: seq<string>)
    requires NamesDiffer(e, nodes) && UidsBelow(store) && !Visits(e, p, store, nodes).failed
    ensures OnePass(e, p, nodes, store, Visits(e, p, store, nodes))
    ensures forall i | 0 <= i < |nodes| :: !Fails(e, p, store.jobs, nodes[i])
  {
    hide Visit, Handled, OthersUntouched, Fails, Done, ReadFrom, NamesDiffer, JobName;
    if nodes == [] {
      Nothing(e, p, store);
    } else {
      var rest, node := nodes[..|nodes| - 1], nodes[|nodes| - 1];
      var s := Visits(e, p, store, rest);
      assert nodes == rest + [node];
      PrefixDiffers(e, rest, node);
      OnePassDoes(e, p, store, rest);
      DecideUntouched(e, p, rest, node, store, s.store);
      VisitOthers(e, p, rest, node, store, s);
      VisitsUids(e, p, store, rest);
      assert store.nextUid <= s.store.nextUid by {
        OthersNext(e, rest, store, s.store);
      }
      VisitHandles(e, p, node, store, s);
      forall i | 0 <= i < |nodes| ensures Handled(e, p, store, Visit(e, p, s, node).store, nodes[i]) {
        if i < |rest| {
          VisitKeeps(e, p, rest, node, store, s, i);
        }
      }
      OneMoreWaits(e, p, store.jobs, rest, node);
    }
  }

  lemma OthersNext(e: Env, nodes: seq<string>, before: Store, after: Store)
    requires OthersUntouched(e, nodes, before, after)
    ensures before.nextUid <= after.nextUid
  {
  }

  lemma Nothing(e: Env, p: Pass, store: Store)
    ensures OnePass(e, p, [], store, Progress(store, [], false, false))
  {
  }

  lemma OneMoreWaits(e: Env, p: Pass, jobs: map<string, Job>, nodes: seq<string>, node: string)
    ensures Waiting(e, p, jobs, nodes + [node]) <==> Waiting(e, p, jobs, nodes) || !Done(e, p, jobs, node)
  {
    hide Done;
    var all := nodes + [node];
    assert all[|nodes|] == node;
    if Waiting(e, p, jobs, nodes) {
      var i :| 0 <= i < |nodes| && !Done(e, p, jobs, nodes[i]);
      assert all[i] == nodes[i];
    }
  }

  /** The first node whose job fails the pass ends it; the nodes before it are handled as in a whole pass. */
  ghost predicate StoppedAt(e: Env, p: Pass, store: Store, nodes: seq<string>, k: nat) {
    && k < |nodes| && Fails(e, p, store.jobs, nodes[k])
    && !Visits(e, p, store, nodes[..k]).failed
    && Visits(e, p, store, nodes) == Visits(e, p, store, nodes[..k]).(failed := true)
    && OnePass(e, p, nodes[..k], store, Visits(e, p, store, nodes[..k]))
  }

  lemma AbortsExactly(e: Env, p: Pass, s: Progress, node: string)
    requires !s.failed
    ensures Visit(e, p, s, node).failed <==> Fails(e, p, s.store.jobs, node)
    ensures Visit(e, p, s, node).failed ==> Visit(e, p, s, node) == s.(failed := true)
  {
    hide JobName, NewJob, Current, ReadReport;
  }

  lemma FailsUntouched(e: Env, p: Pass, a: map<string, Job>, b: map<string, Job>, node: string)
    requires SameJob(a, b, JobName(e, node))
    ensures Fails(e, p, a, node) <==> Fails(e, p, b, node)
  {
    hide JobName, Current, ReadReport;
  }

  /** A pass fails exactly if an API call for one of the jobs fails, a finished job has no readable report, or a job of
      this generation and these checks has failed: a failed job that is stale never fails the pass. */
  lemma {:induction false} PassFailsExactly(e: Env, p: Pass, store: Store, nodes: seq<string>)
    requires NamesDiffer(e, nodes) && UidsBelow(store)
    ensures Visits(e, p, store, nodes).failed <==> exists i :: 0 <= i < |nodes| && Fails(e, p, store.jobs, nodes[i])
    ensures Visits(e, p, store, nodes).failed ==> exists k: nat :: StoppedAt(e, p, store, nodes, k)
  {
    hide Visit, Handled, OthersUntouched, Fails, Done, ReadFrom, NamesDiffer, JobName, SameJob, OnePass;
    if nodes != [] {
      var rest, node := nodes[..|nodes| - 1], nodes[|nodes| - 1];
      var s := Visits(e, p, store, rest);
      assert nodes == rest + [node];
      PrefixDiffers(e, rest, node);
      PassFailsExactly(e, p, store, rest);
      if s.failed {
        var k: nat :| StoppedAt(e, p, store, rest, k);
        assert rest[k] == nodes[k] && rest[..k] == nodes[..k];
        assert StoppedAt(e, p, store, nodes, k);
      } else {
        OnePassDoes(e, p, store, rest);
        assert OthersUntouched(e, rest, store, s.store) by {
          PassOthers(e, p, rest, store, s);
        }
        DecideUntouched(e, p, rest, node, store, s.store);
        FailsUntouched(e, p, store.jobs, s.store.jobs, node);
        AbortsExactly(e, p, s, node);
        assert forall i | 0 <= i < |rest| :: nodes[i] == rest[i];
        if Visit(e, p, s, node).failed {
          assert StoppedAt(e, p, store, nodes, |rest|);
        }
      }
    }
  }

  lemma PassOthers(e: Env, p: Pass, nodes: seq<string>, before: Store, after: Progress)
    requires OnePass(e, p, nodes, before, after)
    ensures OthersUntouched(e, nodes, before, after.store)
  {
  }

  // ----- grouping loses and doubles nothing -----

  function GroupFor(checks: seq<Check>): string -> seq<Check> {
    (node: string) => GroupOf(checks, node)
  }

  lemma GroupGrows(checks: seq<Check>, c: Check, node: string)
    ensures GroupOf(checks + [c], node) == GroupOf(checks, node) + if c.sourceNode == node then [c] else []
  {
    BindStep(checks, c, KeepNode(node));
  }

  lemma DistinctPrefix<T>(s: seq<T>, x: T)
    requires Distinct(s + [x])
    ensures Distinct(s) && x !in s
  {
    var all := s + [x];
    forall i, j | 0 <= i < j < |s| ensures s[i] != s[j] {
      assert all[i] != all[j];
    }
    forall i | 0 <= i < |s| ensures s[i] != x {
      assert all[i] != all[|s|];
    }
  }

  lemma {:induction false} GroupsGrow(nodes: seq<string>, checks: seq<Check>, c: Check)
    requires Distinct(nodes)
    ensures multiset(Bind(nodes, GroupFor(checks + [c])))
         == multiset(Bind(nodes, GroupFor(checks))) + if c.sourceNode in nodes then multiset{c} else multiset{}
  {
    hide Distinct, Bind, GroupOf;
    if nodes == [] {
      BindAll(nodes, GroupFor(checks + [c]));
      BindAll(nodes, GroupFor(checks));
    } else {
      var rest, node := nodes[..|nodes| - 1], nodes[|nodes| - 1];
      assert nodes == rest + [node];
      DistinctPrefix(rest, node);
      GroupsGrow(rest, checks, c);
      BindStep(rest, node, GroupFor(checks + [c]));
      BindStep(rest, node, GroupFor(checks));
      GroupGrows(checks, c, node);
    }
  }

  lemma {:induction false} NoGroups(nodes: seq<string>)
    ensures Bind(nodes, GroupFor([])) == []
  {
    if nodes != [] {
      NoGroups(nodes[..|nodes| - 1]);
    }
  }

  lemma {:induction false} GroupsCover(nodes: seq<string>, checks: seq<Check>)
    requires Distinct(nodes) && forall c | c in checks :: c.sourceNode in nodes
    ensures multiset(Bind(nodes, GroupFor(checks))) == multiset(checks)
  {
    hide Bind, GroupFor, Distinct;
    if checks == [] {
      NoGroups(nodes);
    } else {
      var rest, c := checks[..|checks| - 1], checks[|checks| - 1];
      assert checks == rest + [c] && c in checks && forall d | d in rest :: d in checks;
      GroupsCover(nodes, rest);
      GroupsGrow(nodes, rest, c);
    }
  }

  /** Grouping by source node partitions the check list. */
  lemma GroupsPartition(checks: seq<Check>)
    ensures multiset(Bind(NodesOf(checks), GroupFor(checks))) == multiset(checks)
    ensures |Bind(NodesOf(checks), GroupFor(checks))| == |checks|
  {
    hide Bind, GroupFor;
    SortedSetMembers(NodesIn(checks), Text.StringLe);
    GroupsCover(NodesOf(checks), checks);
    SameMembers(Bind(NodesOf(checks), GroupFor(checks)), checks);
  }

  // ----- what the hash says -----

  /** The hash depends on the checks of a node, not on their order. */
  lemma HashIgnoresOrder(e: Env, a: seq<Check>, b: seq<Check>)
    requires multiset(a) == multiset(b) && IdsTell(a)
    ensures ChecksHash(e, a) == ChecksHash(e, b)
  {
    IdLePreorder();
    IdsSeparate(a);
    SortPermutation(a, b, IdLe);
  }

  /** Among sorted lists the hash depends on nothing else. */
  lemma HashTells(e: Env, a: seq<Check>, b: seq<Check>)
    requires Collisionless(e) && Sorted(a, IdLe) && Sorted(b, IdLe) && ChecksHash(e, a) == ChecksHash(e, b)
    ensures a == b
  {
    SortFixed(a, IdLe);
    SortFixed(b, IdLe);
  }

  lemma {:induction false} GroupSorted(checks: seq<Check>, node: string)
    requires Sorted(checks, IdLe)
    ensures Sorted(GroupOf(checks, node), IdLe)
  {
    if checks != [] {
      var last := |checks| - 1;
      var rest := checks[..last];
      assert Sorted(rest, IdLe) by {
        forall i, j | 0 <= i < j < last ensures IdLe(rest[i], rest[j]) {
          assert IdLe(checks[i], checks[j]);
        }
      }
      GroupSorted(rest, node);
      GroupMembers(rest, node);
      forall c | c in GroupOf(rest, node) ensures IdLe(c, checks[last]) {
        assert c in rest;
        var i :| 0 <= i < last && rest[i] == c;
        assert IdLe(checks[i], checks[last]);
      }
    }
  }

  /** Reports that come from the nodes they name are already in order. */
  lemma ReadingsInOrder(checks: seq<Check>, readings: seq<Reading>)
    requires |readings| == |NodesOf(checks)|
    requires forall i | 0 <= i < |readings| :: readings[i].report.sourceNode == NodesOf(checks)[i]
    ensures Sort(readings, ReportLe) == readings
  {
    var nodes := NodesOf(checks);
    StringLePreorder();
    SortSorted(Enumerate(NodesIn(checks)), Text.StringLe);
    assert Sorted(nodes, Text.StringLe);
    forall i, j | 0 <= i < j < |readings| ensures ReportLe(readings[i], readings[j]) {
      assert Text.StringLe(nodes[i], nodes[j]);
    }
    SortFixed(readings, ReportLe);
  }

  /** Permuting the pods, the services, the protocols or the ports leaves the hash of every node's checks alone. */
  lemma HashesIgnoreOrder(e: Env, t: Traffic, pods: seq<Pod>, services: seq<Service>, u: Traffic, pods': seq<Pod>,
          services': seq<Service>, node: string)
    requires Collisionless(e) && CheckLaws.SameInputs(t, pods, services, u, pods', services')
    requires CheckLaws.PodsLegible(pods) && CheckLaws.ServicesLegible(services)
    ensures ChecksHash(e, GroupOf(BuiltChecks(t, pods, services, e.id), node))
         == ChecksHash(e, GroupOf(BuiltChecks(u, pods', services', e.id), node))
  {
    CheckLaws.ChecksIgnoreOrder(t, pods, services, u, pods', services', e.id);
  }
}
