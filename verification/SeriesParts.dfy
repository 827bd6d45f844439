/** What the recommendation of a key takes from each of the six lists (internal/analyzer/resource_series.go). */
module SeriesParts {
  import Sequences
  import opened Usage
  import opened Recommend
  import opened SeriesJoin
  import opened SeriesLaws
  import ResourceAnalyzer

  /** The four kinds of series of which only the last one counts. */
  predicate IsSize(kind: Kind) {
    kind != CPU && kind != Memory
  }

  function UnitOf(kind: Kind): Unit {
    if kind == CPU || kind == RequestsCPU || kind == LimitsCPU then Millicores else MiB
  }

  function ListOf(lists: Lists, kind: Kind): seq<Series> {
    match kind
    case CPU => lists.cpu
    case Memory => lists.memory
    case RequestsCPU => lists.requestsCPU
    case RequestsMemory => lists.requestsMemory
    case LimitsCPU => lists.limitsCPU
    case LimitsMemory => lists.limitsMemory
  }

  function WithList(lists: Lists, kind: Kind, list: seq<Series>): Lists {
    match kind
    case CPU => lists.(cpu := list)
    case Memory => lists.(memory := list)
    case RequestsCPU => lists.(requestsCPU := list)
    case RequestsMemory => lists.(requestsMemory := list)
    case LimitsCPU => lists.(limitsCPU := list)
    case LimitsMemory => lists.(limitsMemory := list)
  }

  function SizeOf(r: Resources, kind: Kind): int
    requires IsSize(kind)
  {
    match kind
    case RequestsCPU => r.cpuRequest
    case RequestsMemory => r.memoryRequest
    case LimitsCPU => r.cpuLimit
    case LimitsMemory => r.memoryLimit
  }

  /** The value that a request or limit series contributes. */
  function SizeValue(s: Series, kind: Kind): int
    requires IsSize(kind)
  {
    InUnit(LatestValue(s), UnitOf(kind))
  }

  // ----- the current value of a key comes from the last series of its list -----

  lemma {:induction false} CurrentTail(a: seq<Event>, tail: seq<Event>, kind: Kind, unit: Unit)
    requires forall e | e in tail :: e.kind != kind
    ensures CurrentOfKind(a + tail, kind, unit) == CurrentOfKind(a, kind, unit)
  {
    if tail == [] {
      assert a + tail == a;
    } else {
      var front, last := tail[..|tail| - 1], tail[|tail| - 1];
      assert a + tail == (a + front) + [last];
      assert forall e | e in front :: e in tail;
      hide CurrentOfKind;
      CurrentTail(a, front, kind, unit);
      ResourceAnalyzer.CurrentStep(a + front, last, kind, unit);
    }
  }

  lemma CurrentHead(a: seq<Event>, g: seq<Event>, kind: Kind, unit: Unit)
    requires (forall e | e in a :: e.kind != kind) && forall e | e in g :: e.kind == kind
    ensures CurrentOfKind(a + g, kind, unit) == CurrentOfKind(g, kind, unit)
  {
    if g == [] {
      CurrentTail([], a, kind, unit);
      assert [] + a == a && a + g == a;
    } else {
      var front, last := g[..|g| - 1], g[|g| - 1];
      assert g == front + [last] && a + g == (a + front) + [last];
      assert last in g;
      ResourceAnalyzer.CurrentStep(a + front, last, kind, unit);
      ResourceAnalyzer.CurrentStep(front, last, kind, unit);
    }
  }

  lemma CurrentOfGroup(lists: Lists, key: Key, target: Target, kind: Kind)
    requires IsSize(kind)
    ensures CurrentOfKind(Group(AllEvents(lists), key, target), kind, UnitOf(kind))
         == CurrentOfKind(ListGroup(kind, ListOf(lists, kind), key, target), kind, UnitOf(kind))
  {
    hide ListGroup, CurrentOfKind, AllEvents, Group;
    GroupOfLists(lists, key, target);
    var unit := UnitOf(kind);
    var u := UsageGroup(lists, key, target);
    var g3, g4 := ListGroup(RequestsCPU, lists.requestsCPU, key, target),
      ListGroup(RequestsMemory, lists.requestsMemory, key, target);
    var g5, g6 := ListGroup(LimitsCPU, lists.limitsCPU, key, target),
      ListGroup(LimitsMemory, lists.limitsMemory, key, target);
    ListGroupKind(CPU, lists.cpu, key, target);
    ListGroupKind(Memory, lists.memory, key, target);
    ListGroupKind(RequestsCPU, lists.requestsCPU, key, target);
    ListGroupKind(RequestsMemory, lists.requestsMemory, key, target);
    ListGroupKind(LimitsCPU, lists.limitsCPU, key, target);
    ListGroupKind(LimitsMemory, lists.limitsMemory, key, target);
    match kind {
      case RequestsCPU =>
        CurrentTail(u + g3 + g4 + g5, g6, kind, unit);
        CurrentTail(u + g3 + g4, g5, kind, unit);
        CurrentTail(u + g3, g4, kind, unit);
        CurrentHead(u, g3, kind, unit);
      case RequestsMemory =>
        CurrentTail(u + g3 + g4 + g5, g6, kind, unit);
        CurrentTail(u + g3 + g4, g5, kind, unit);
        CurrentHead(u + g3, g4, kind, unit);
      case LimitsCPU =>
        CurrentTail(u + g3 + g4 + g5, g6, kind, unit);
        CurrentHead(u + g3 + g4, g5, kind, unit);
      case LimitsMemory =>
        CurrentHead(u + g3 + g4 + g5, g6, kind, unit);
    }
  }

  ghost predicate Present(kind: Kind, list: seq<Series>, key: Key, target: Target) {
    exists s :: s in list && IsFor(Event(kind, s), key, target)
  }

  lemma PresentStep(kind: Kind, front: seq<Series>, last: Series, key: Key, target: Target)
    ensures Present(kind, front + [last], key, target)
            <==> Present(kind, front, key, target) || IsFor(Event(kind, last), key, target)
  {
    hide IsFor;
    var list := front + [last];
    assert last in list && forall s | s in front :: s in list;
  }

  /** If all series of the key contribute the same, that is its current value. */
  lemma {:induction false} CurrentAgreed(kind: Kind, list: seq<Series>, key: Key, target: Target, value: int)
    requires IsSize(kind)
    requires forall s | s in list && IsFor(Event(kind, s), key, target) :: SizeValue(s, kind) == value
    ensures CurrentOfKind(ListGroup(kind, list, key, target), kind, UnitOf(kind))
         == if Present(kind, list, key, target) then value else 0
  {
    hide IsFor, InUnit, LatestValue, ListGroup, Present;
    if list == [] {
      ListGroupNone(kind, list, key, target);
      NonePresent(kind, list, key, target);
    } else {
      var front, last := list[..|list| - 1], list[|list| - 1];
      assert list == front + [last] && last in list && forall s | s in front :: s in list;
      CurrentAgreed(kind, front, key, target, value);
      ListGroupStep(kind, front, last, key, target);
      PresentStep(kind, front, last, key, target);
      if IsFor(Event(kind, last), key, target) {
        ResourceAnalyzer.CurrentStep(ListGroup(kind, front, key, target), Event(kind, last), kind, UnitOf(kind));
      } else {
        assert ListGroup(kind, front, key, target) + [] == ListGroup(kind, front, key, target);
      }
    }
  }

  lemma NonePresent(kind: Kind, list: seq<Series>, key: Key, target: Target)
    requires list == []
    ensures !Present(kind, list, key, target)
  {
  }

  /** A series at the end of its list decides. */
  lemma CurrentLast(kind: Kind, list: seq<Series>, s: Series, key: Key, target: Target)
    requires IsSize(kind) && IsFor(Event(kind, s), key, target)
    ensures CurrentOfKind(ListGroup(kind, list + [s], key, target), kind, UnitOf(kind)) == SizeValue(s, kind)
  {
    hide IsFor, InUnit, LatestValue, ListGroup;
    ListGroupStep(kind, list, s, key, target);
    ResourceAnalyzer.CurrentStep(ListGroup(kind, list, key, target), Event(kind, s), kind, UnitOf(kind));
  }

  // ----- the samples of a key -----

  function SamplesIn(kind: Kind, list: seq<Series>, key: Key, target: Target): seq<Sample> {
    SamplesOf(ListGroup(kind, list, key, target), kind)
  }

  function Contribution(kind: Kind, key: Key, target: Target): Series -> seq<Sample> {
    (s: Series) => if IsFor(Event(kind, s), key, target) then s.values else []
  }

  lemma {:induction false} SamplesInBind(kind: Kind, list: seq<Series>, key: Key, target: Target)
    ensures SamplesIn(kind, list, key, target) == Sequences.Bind(list, Contribution(kind, key, target))
  {
    hide IsFor;
    if list == [] {
      ListGroupNone(kind, list, key, target);
    } else {
      var front, last := list[..|list| - 1], list[|list| - 1];
      assert list == front + [last];
      SamplesInBind(kind, front, key, target);
      SamplesInStep(kind, front, last, key, target);
    }
  }

  lemma SamplesInStep(kind: Kind, list: seq<Series>, s: Series, key: Key, target: Target)
    ensures SamplesIn(kind, list + [s], key, target)
         == SamplesIn(kind, list, key, target) + if IsFor(Event(kind, s), key, target) then s.values else []
  {
    hide IsFor, ListGroup;
    ListGroupStep(kind, list, s, key, target);
    var group := ListGroup(kind, list, key, target);
    ResourceAnalyzer.SamplesStep(group, Event(kind, s), kind);
    assert group + [] == group && SamplesOf(group, kind) + [] == SamplesOf(group, kind);
  }

  lemma SamplesInPermuted(kind: Kind, list: seq<Series>, other: seq<Series>, key: Key, target: Target)
    requires multiset(list) == multiset(other)
    ensures multiset(SamplesIn(kind, list, key, target)) == multiset(SamplesIn(kind, other, key, target))
  {
    SamplesInBind(kind, list, key, target);
    SamplesInBind(kind, other, key, target);
    Sequences.BindPermutation(list, other, Contribution(kind, key, target));
  }

  lemma {:induction false} ListGroupMembers(kind: Kind, list: seq<Series>, key: Key, target: Target)
    ensures forall e ::
              e in ListGroup(kind, list, key, target) <==> e.kind == kind && e.series in list && IsFor(e, key, target)
  {
    hide IsFor, ListGroup;
    if list == [] {
      ListGroupNone(kind, list, key, target);
    } else {
      var front, last := list[..|list| - 1], list[|list| - 1];
      assert list == front + [last];
      ListGroupMembers(kind, front, key, target);
      ListGroupStep(kind, front, last, key, target);
    }
  }

  /** The usage samples of a group are those of the usage lists. */
  lemma SamplesOfGroup(lists: Lists, key: Key, target: Target)
    ensures var group := Group(AllEvents(lists), key, target);
            && SamplesOf(group, CPU) == SamplesIn(CPU, lists.cpu, key, target)
            && SamplesOf(group, Memory) == SamplesIn(Memory, lists.memory, key, target)
  {
    hide ListGroup, SamplesOf, AllEvents, Group;
    UsageFromUsageLists(lists, key, target, CPU);
    UsageFromUsageLists(lists, key, target, Memory);
    ListGroupKind(CPU, lists.cpu, key, target);
    ListGroupKind(Memory, lists.memory, key, target);
    var cpu, memory := ListGroup(CPU, lists.cpu, key, target), ListGroup(Memory, lists.memory, key, target);
    SamplesTail(cpu, memory, CPU);
    SamplesHead(cpu, memory, Memory);
  }

  lemma {:induction false} SamplesHead(a: seq<Event>, g: seq<Event>, kind: Kind)
    requires forall e | e in a :: e.kind != kind
    ensures SamplesOf(a + g, kind) == SamplesOf(g, kind)
  {
    if g == [] {
      SamplesTail([], a, kind);
      assert [] + a == a && a + g == a;
    } else {
      var front, last := g[..|g| - 1], g[|g| - 1];
      assert g == front + [last] && a + g == (a + front) + [last];
      SamplesHead(a, front, kind);
      ResourceAnalyzer.SamplesStep(a + front, last, kind);
      ResourceAnalyzer.SamplesStep(front, last, kind);
    }
  }

  // ----- what a recommendation depends on -----

  function WorkloadOf(s: Series, key: Key): (string, string) {
    WorkloadFromLabels(s.metric, key.pod)
  }

  predicate Admitted(s: Series, key: Key, target: Target) {
    WorkloadKindMatches(WorkloadOf(s, key).0, target.workloadKinds)
  }

  /** The key has a usage sample. */
  predicate Measured(lists: Lists, key: Key, target: Target) {
    SamplesIn(CPU, lists.cpu, key, target) != [] || SamplesIn(Memory, lists.memory, key, target) != []
  }

  /** The usage list that has the key's first series. */
  function Leading(lists: Lists, key: Key, target: Target): Kind {
    if ListGroup(CPU, lists.cpu, key, target) != [] then CPU else Memory
  }

  /** The first series of a measured key, whose labels name the workload. */
  function First(lists: Lists, key: Key, target: Target): (s: Series)
    requires Measured(lists, key, target)
    ensures s in ListOf(lists, Leading(lists, key, target)) && IsFor(Event(Leading(lists, key, target), s), key, target)
  {
    ListGroupMembers(CPU, lists.cpu, key, target);
    ListGroupMembers(Memory, lists.memory, key, target);
    ListGroup(Leading(lists, key, target), ListOf(lists, Leading(lists, key, target)), key, target)[0].series
  }

  lemma GroupStarts(lists: Lists, key: Key, target: Target)
    requires Measured(lists, key, target)
    ensures Group(AllEvents(lists), key, target) != []
    ensures Group(AllEvents(lists), key, target)[0].series == First(lists, key, target)
  {
    hide ListGroup, AllEvents, Group, IsFor;
    GroupOfLists(lists, key, target);
  }

  lemma SelectedExactly(lists: Lists, target: Target, policy: Policy, key: Key)
    ensures Selected(lists, target, policy, key)
            <==> Measured(lists, key, target) && Admitted(First(lists, key, target), key, target)
  {
    hide SamplesIn, AllEvents, Group, WorkloadFromLabels, LanguageFor, WorkloadKindMatches, CurrentResources, First;
    SamplesOfGroup(lists, key, target);
    if Measured(lists, key, target) {
      GroupStarts(lists, key, target);
    }
  }

  function Sizes(lists: Lists, key: Key, target: Target): Resources {
    Resources(CurrentOfKind(ListGroup(RequestsCPU, lists.requestsCPU, key, target), RequestsCPU, Millicores),
              CurrentOfKind(ListGroup(LimitsCPU, lists.limitsCPU, key, target), LimitsCPU, Millicores),
              CurrentOfKind(ListGroup(RequestsMemory, lists.requestsMemory, key, target), RequestsMemory, MiB),
              CurrentOfKind(ListGroup(LimitsMemory, lists.limitsMemory, key, target), LimitsMemory, MiB))
  }

  /** The profile behind a recommendation, list by list. */
  function ProfileOf(lists: Lists, target: Target, policy: Policy, key: Key): Profile
    requires Measured(lists, key, target)
  {
    var cpu, memory := SamplesIn(CPU, lists.cpu, key, target), SamplesIn(Memory, lists.memory, key, target);
    NewProfile(key, First(lists, key, target).metric, policy).(
      cpuCores := Values(cpu), memoryBytes := Values(memory), cpuSamples := cpu, memorySamples := memory,
      usage := WindowsOf(cpu, memory), current := Sizes(lists, key, target))
  }

  lemma RecommendationByLists(lists: Lists, target: Target, policy: Policy, key: Key)
    requires Measured(lists, key, target)
    ensures Group(AllEvents(lists), key, target) != []
    ensures RecommendationOf(lists, target, policy, key)
         == RecommendationFor(ProfileOf(lists, target, policy, key), policy)
  {
    hide SamplesIn, AllEvents, Group, NewProfile, RecommendationFor, CurrentOfKind, ListGroup, First, WindowsOf;
    SamplesOfGroup(lists, key, target);
    GroupStarts(lists, key, target);
    SizesOfGroup(lists, key, target);
  }

  lemma SizesOfGroup(lists: Lists, key: Key, target: Target)
    ensures CurrentResources(Group(AllEvents(lists), key, target)) == Sizes(lists, key, target)
  {
    hide AllEvents, Group, CurrentOfKind, ListGroup;
    CurrentOfGroup(lists, key, target, RequestsCPU);
    CurrentOfGroup(lists, key, target, LimitsCPU);
    CurrentOfGroup(lists, key, target, RequestsMemory);
    CurrentOfGroup(lists, key, target, LimitsMemory);
  }
}
