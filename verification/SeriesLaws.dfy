/** Properties of the resource analysis as a whole: it is determined by its input, series without usage change nothing,
    and raising usage never lowers a recommendation. */
module SeriesLaws {
  import Sorting
  import opened Usage
  import opened Recommend
  import opened SeriesJoin
  import ResourceAnalyzer

  // ----- one result -----

  function Keys(recs: seq<Recommendation>): (keys: seq<Key>)
    ensures |keys| == |recs| && forall i | 0 <= i < |keys| :: keys[i] == RecKey(recs[i])
  {
    seq(|recs|, i requires 0 <= i < |recs| => RecKey(recs[i]))
  }

  lemma DistinctSameMembers<T>(a: seq<T>, b: seq<T>)
    requires Sorting.Distinct(a) && Sorting.Distinct(b) && forall x :: x in a <==> x in b
    ensures multiset(a) == multiset(b)
  {
    forall x ensures multiset(a)[x] == multiset(b)[x] {
      Sorting.DistinctMultiplicity(a, x);
      Sorting.DistinctMultiplicity(b, x);
      assert x in multiset(a) <==> x in a;
      assert x in multiset(b) <==> x in b;
    }
  }

  /** Strictly increasing keys with the same members are the same keys. */
  lemma SameKeys(a: seq<Key>, b: seq<Key>)
    requires forall i, j | 0 <= i < j < |a| :: KeyLe(a[i], a[j]) && a[i] != a[j]
    requires forall i, j | 0 <= i < j < |b| :: KeyLe(b[i], b[j]) && b[i] != b[j]
    requires forall key :: key in a <==> key in b
    ensures a == b
  {
    DistinctSameMembers(a, b);
    KeyLePreorder();
    Sorting.SortedUnique(a, b, KeyLe);
  }

  ghost predicate SameSelection(lists: Lists, other: Lists, target: Target, policy: Policy) {
    forall key :: Selected(lists, target, policy, key) <==> Selected(other, target, policy, key)
  }

  lemma AnalysisKeys(a: Analysis, lists: Lists, target: Target, policy: Policy)
    requires Analyzes(a, lists, target, policy)
    ensures forall key :: key in Keys(a.recommendations) <==> Selected(lists, target, policy, key)
  {
    hide Selected, RecommendationOf, SummaryOf;
    ResourceAnalyzer.OneForEach(a.recommendations, Keys(a.recommendations));
  }

  /** Analyses of two inputs that select the same keys list the same keys, position by position. */
  lemma SelectionDecidesKeys(a: Analysis, b: Analysis, lists: Lists, other: Lists, target: Target, policy: Policy)
    requires Analyzes(a, lists, target, policy) && Analyzes(b, other, target, policy)
    requires SameSelection(lists, other, target, policy)
    ensures Keys(a.recommendations) == Keys(b.recommendations)
  {
    hide Selected, RecommendationOf, SummaryOf;
    AnalysisKeys(a, lists, target, policy);
    AnalysisKeys(b, other, target, policy);
    SameKeys(Keys(a.recommendations), Keys(b.recommendations));
  }

  lemma SameRecommendation(lists: Lists, other: Lists, target: Target, policy: Policy, key: Key)
    requires Group(AllEvents(lists), key, target) == Group(AllEvents(other), key, target) != []
    ensures RecommendationOf(lists, target, policy, key) == RecommendationOf(other, target, policy, key)
  {
    hide AllEvents, Group, GroupProfile, RecommendationFor;
  }

  /** Two inputs give the same analysis when every key that is selected on either side has the same group on both. */
  lemma GroupsDecide(a: Analysis, b: Analysis, lists: Lists, other: Lists, target: Target, policy: Policy)
    requires Analyzes(a, lists, target, policy) && Analyzes(b, other, target, policy)
    requires SameSelection(lists, other, target, policy)
    requires forall key | Selected(lists, target, policy, key) ::
               Group(AllEvents(lists), key, target) == Group(AllEvents(other), key, target)
    ensures a == b
  {
    SelectionDecidesKeys(a, b, lists, other, target, policy);
    AnalysisKeys(a, lists, target, policy);
    hide Selected, SummaryOf, Group, AllEvents, RecommendationOf;
    var ra, rb := a.recommendations, b.recommendations;
    forall i | 0 <= i < |ra| ensures ra[i] == rb[i] {
      assert ra[i] in ra && rb[i] in rb;
      assert Keys(ra)[i] == RecKey(ra[i]) == RecKey(rb[i]);
      assert RecKey(ra[i]) in Keys(ra);
      SameRecommendation(lists, other, target, policy, RecKey(ra[i]));
    }
    assert ra == rb;
  }

  /** The analysis is a function of its input, although the loop ranges over a map and the sort is not stable. */
  lemma AnalysisDetermined(a: Analysis, b: Analysis, lists: Lists, target: Target, policy: Policy)
    requires Analyzes(a, lists, target, policy) && Analyzes(b, lists, target, policy)
    ensures a == b
  {
    GroupsDecide(a, b, lists, lists, target, policy);
  }

  // ----- groups of concatenations -----

  lemma {:induction false} GroupConcat(a: seq<Event>, b: seq<Event>, key: Key, target: Target)
    ensures Group(a + b, key, target) == Group(a, key, target) + Group(b, key, target)
  {
    hide IsFor;
    if b == [] {
      assert a + b == a;
    } else {
      var last := |b| - 1;
      GroupConcat(a, b[..last], key, target);
      assert a + b == a + b[..last] + [b[last]];
      ResourceAnalyzer.GroupStep(a + b[..last], b[last], key, target);
      ResourceAnalyzer.GroupStep(b[..last], b[last], key, target);
      assert b == b[..last] + [b[last]];
    }
  }

  function ListGroup(kind: Kind, list: seq<Series>, key: Key, target: Target): seq<Event> {
    Group(Tagged(kind, list), key, target)
  }

  lemma GroupOfLists(lists: Lists, key: Key, target: Target)
    ensures Group(AllEvents(lists), key, target) ==
            ListGroup(CPU, lists.cpu, key, target) + ListGroup(Memory, lists.memory, key, target)
            + ListGroup(RequestsCPU, lists.requestsCPU, key, target)
            + ListGroup(RequestsMemory, lists.requestsMemory, key, target)
            + ListGroup(LimitsCPU, lists.limitsCPU, key, target)
            + ListGroup(LimitsMemory, lists.limitsMemory, key, target)
  {
    var e2 := Tagged(CPU, lists.cpu) + Tagged(Memory, lists.memory);
    var e3 := e2 + Tagged(RequestsCPU, lists.requestsCPU);
    var e4 := e3 + Tagged(RequestsMemory, lists.requestsMemory);
    var e5 := e4 + Tagged(LimitsCPU, lists.limitsCPU);
    GroupConcat(e5, Tagged(LimitsMemory, lists.limitsMemory), key, target);
    GroupConcat(e4, Tagged(LimitsCPU, lists.limitsCPU), key, target);
    GroupConcat(e3, Tagged(RequestsMemory, lists.requestsMemory), key, target);
    GroupConcat(e2, Tagged(RequestsCPU, lists.requestsCPU), key, target);
    GroupConcat(Tagged(CPU, lists.cpu), Tagged(Memory, lists.memory), key, target);
  }

  // ----- one list -----

  lemma ListGroupStep(kind: Kind, list: seq<Series>, s: Series, key: Key, target: Target)
    ensures ListGroup(kind, list + [s], key, target)
         == ListGroup(kind, list, key, target) + if IsFor(Event(kind, s), key, target) then [Event(kind, s)] else []
  {
    hide IsFor;
    assert Tagged(kind, list + [s]) == Tagged(kind, list) + [Event(kind, s)];
    ResourceAnalyzer.GroupStep(Tagged(kind, list), Event(kind, s), key, target);
  }

  lemma {:induction false} ListGroupNone(kind: Kind, list: seq<Series>, key: Key, target: Target)
    requires forall s | s in list :: !IsFor(Event(kind, s), key, target)
    ensures ListGroup(kind, list, key, target) == []
  {
    if list != [] {
      var last := |list| - 1;
      assert list == list[..last] + [list[last]] && forall s | s in list[..last] :: s in list;
      ListGroupNone(kind, list[..last], key, target);
      ListGroupStep(kind, list[..last], list[last], key, target);
    }
  }

  // ----- series without usage -----

  ghost predicate Used(lists: Lists, target: Target, key: Key) {
    var group := Group(AllEvents(lists), key, target);
    SamplesOf(group, CPU) != [] || SamplesOf(group, Memory) != []
  }

  /** The list without the series of keys that have no usage sample. */
  ghost function Pruned(list: seq<Series>, lists: Lists, target: Target): seq<Series> {
    if list == [] then []
    else
      var last := list[|list| - 1];
      Pruned(list[..|list| - 1], lists, target) + if Used(lists, target, KeyOf(last.metric)) then [last] else []
  }

  /** The lists with their request and limit series pruned. */
  ghost function WithoutIdle(lists: Lists, target: Target): Lists {
    lists.(requestsCPU := Pruned(lists.requestsCPU, lists, target),
           requestsMemory := Pruned(lists.requestsMemory, lists, target),
           limitsCPU := Pruned(lists.limitsCPU, lists, target),
           limitsMemory := Pruned(lists.limitsMemory, lists, target))
  }

  lemma {:induction false} PrunedGroup(kind: Kind, list: seq<Series>, lists: Lists, key: Key, target: Target)
    ensures ListGroup(kind, Pruned(list, lists, target), key, target)
         == if Used(lists, target, key) then ListGroup(kind, list, key, target) else []
  {
    hide Used, Relevant, ListGroup;
    if list == [] {
      ListGroupNone(kind, list, key, target);
    } else {
      var last := |list| - 1;
      var before := Pruned(list[..last], lists, target);
      assert list == list[..last] + [list[last]];
      PrunedGroup(kind, list[..last], lists, key, target);
      ListGroupStep(kind, list[..last], list[last], key, target);
      ListGroupStep(kind, before, list[last], key, target);
      assert before + [] == before;
    }
  }

  /** Events of other kinds at the end add no samples. */
  lemma {:induction false} SamplesTail(a: seq<Event>, tail: seq<Event>, kind: Kind)
    requires forall e | e in tail :: e.kind != kind
    ensures SamplesOf(a + tail, kind) == SamplesOf(a, kind)
  {
    if tail == [] {
      assert a + tail == a;
    } else {
      var front, last := tail[..|tail| - 1], tail[|tail| - 1];
      assert a + tail == (a + front) + [last];
      assert forall e | e in front :: e in tail;
      hide SamplesOf;
      SamplesTail(a, front, kind);
      ResourceAnalyzer.SamplesStep(a + front, last, kind);
      assert SamplesOf(a, kind) + [] == SamplesOf(a, kind);
    }
  }

  lemma {:induction false} ListGroupKind(kind: Kind, list: seq<Series>, key: Key, target: Target)
    ensures forall e | e in ListGroup(kind, list, key, target) :: e.kind == kind
  {
    if list != [] {
      var last := |list| - 1;
      assert list == list[..last] + [list[last]];
      ListGroupKind(kind, list[..last], key, target);
      ListGroupStep(kind, list[..last], list[last], key, target);
    }
  }

  /** The usage part of a key's group. */
  function UsageGroup(lists: Lists, key: Key, target: Target): seq<Event> {
    ListGroup(CPU, lists.cpu, key, target) + ListGroup(Memory, lists.memory, key, target)
  }

  /** Usage samples come from the usage lists alone. */
  lemma UsageFromUsageLists(lists: Lists, key: Key, target: Target, kind: Kind)
    requires kind == CPU || kind == Memory
    ensures SamplesOf(Group(AllEvents(lists), key, target), kind) == SamplesOf(UsageGroup(lists, key, target), kind)
  {
    hide ListGroup, SamplesOf, AllEvents, Group;
    GroupOfLists(lists, key, target);
    var usage := UsageGroup(lists, key, target);
    var g3, g4 := ListGroup(RequestsCPU, lists.requestsCPU, key, target),
      ListGroup(RequestsMemory, lists.requestsMemory, key, target);
    var g5, g6 := ListGroup(LimitsCPU, lists.limitsCPU, key, target),
      ListGroup(LimitsMemory, lists.limitsMemory, key, target);
    ListGroupKind(RequestsCPU, lists.requestsCPU, key, target);
    ListGroupKind(RequestsMemory, lists.requestsMemory, key, target);
    ListGroupKind(LimitsCPU, lists.limitsCPU, key, target);
    ListGroupKind(LimitsMemory, lists.limitsMemory, key, target);
    SamplesTail(usage + g3 + g4 + g5, g6, kind);
    SamplesTail(usage + g3 + g4, g5, kind);
    SamplesTail(usage + g3, g4, kind);
    SamplesTail(usage, g3, kind);
  }

  lemma PrunedGroups(lists: Lists, key: Key, target: Target)
    ensures Used(WithoutIdle(lists, target), target, key) == Used(lists, target, key)
    ensures Used(lists, target, key) ==>
            Group(AllEvents(WithoutIdle(lists, target)), key, target) == Group(AllEvents(lists), key, target)
  {
    hide ListGroup, AllEvents;
    var pruned := WithoutIdle(lists, target);
    UsageFromUsageLists(lists, key, target, CPU);
    UsageFromUsageLists(lists, key, target, Memory);
    UsageFromUsageLists(pruned, key, target, CPU);
    UsageFromUsageLists(pruned, key, target, Memory);
    if Used(lists, target, key) {
      PrunedGroup(RequestsCPU, lists.requestsCPU, lists, key, target);
      PrunedGroup(RequestsMemory, lists.requestsMemory, lists, key, target);
      PrunedGroup(LimitsCPU, lists.limitsCPU, lists, key, target);
      PrunedGroup(LimitsMemory, lists.limitsMemory, lists, key, target);
      GroupOfLists(lists, key, target);
      GroupOfLists(pruned, key, target);
    }
  }

  /** Request and limit series of keys without usage change nothing. */
  lemma IdleSeriesIrrelevant(a: Analysis, b: Analysis, lists: Lists, target: Target, policy: Policy)
    requires Analyzes(a, lists, target, policy) && Analyzes(b, WithoutIdle(lists, target), target, policy)
    ensures a == b
  {
    var pruned := WithoutIdle(lists, target);
    forall key ensures Selected(lists, target, policy, key) <==> Selected(pruned, target, policy, key) {
      PrunedGroups(lists, key, target);
      assert Selected(lists, target, policy, key) ==> Used(lists, target, key);
      assert Selected(pruned, target, policy, key) ==> Used(pruned, target, key);
    }
    forall key | Selected(lists, target, policy, key)
      ensures Group(AllEvents(lists), key, target) == Group(AllEvents(pruned), key, target)
    {
      PrunedGroups(lists, key, target);
      assert Used(lists, target, key);
    }
    hide Selected, Group, Analyzes;
    GroupsDecide(a, b, lists, pruned, target, policy);
  }

  // ----- raising usage -----

  ghost predicate ListRaised(a: seq<Series>, b: seq<Series>) {
    |a| == |b| && forall i | 0 <= i < |a| :: a[i].metric == b[i].metric && Raised(a[i].values, b[i].values)
  }

  /** The same series, with usage values that are nowhere lower. */
  ghost predicate ListsRaised(a: Lists, b: Lists) {
    && ListRaised(a.cpu, b.cpu) && ListRaised(a.memory, b.memory)
    && b == a.(cpu := b.cpu, memory := b.memory)
  }

  ghost predicate EventRaised(a: Event, b: Event) {
    && a.kind == b.kind && a.series.metric == b.series.metric
    && (if a.kind == CPU || a.kind == Memory then Raised(a.series.values, b.series.values) else a == b)
  }

  ghost predicate EventsRaised(a: seq<Event>, b: seq<Event>) {
    |a| == |b| && forall i | 0 <= i < |a| :: EventRaised(a[i], b[i])
  }

  lemma {:induction false} GroupRaised(a: seq<Event>, b: seq<Event>, key: Key, target: Target)
    requires EventsRaised(a, b)
    ensures EventsRaised(Group(a, key, target), Group(b, key, target))
  {
    if a != [] {
      var last := |a| - 1;
      GroupRaised(a[..last], b[..last], key, target);
      hide Group, Relevant, KeyOf;
      ResourceAnalyzer.GroupStep(a[..last], a[last], key, target);
      ResourceAnalyzer.GroupStep(b[..last], b[last], key, target);
      assert a == a[..last] + [a[last]] && b == b[..last] + [b[last]];
      assert EventRaised(a[last], b[last]);
    }
  }

  lemma RaisedConcat(a: seq<Sample>, b: seq<Sample>, c: seq<Sample>, d: seq<Sample>)
    requires Raised(a, b) && Raised(c, d)
    ensures Raised(a + c, b + d)
  {
  }

  lemma {:induction false} SamplesRaised(a: seq<Event>, b: seq<Event>, kind: Kind)
    requires EventsRaised(a, b) && (kind == CPU || kind == Memory)
    ensures Raised(SamplesOf(a, kind), SamplesOf(b, kind))
  {
    hide Raised;
    if a == [] {
      RaisedNothing();
    } else {
      var last := |a| - 1;
      SamplesRaised(a[..last], b[..last], kind);
      assert EventRaised(a[last], b[last]);
      RaisedNothing();
      RaisedConcat(SamplesOf(a[..last], kind), SamplesOf(b[..last], kind),
                   if a[last].kind == kind then a[last].series.values else [],
                   if b[last].kind == kind then b[last].series.values else []);
    }
  }

  lemma RaisedNothing()
    ensures Raised([], [])
  {
  }

  lemma AllEventsRaised(a: Lists, b: Lists)
    requires ListsRaised(a, b)
    ensures EventsRaised(AllEvents(a), AllEvents(b))
  {
    assert EventsRaised(Tagged(CPU, a.cpu), Tagged(CPU, b.cpu));
    assert EventsRaised(Tagged(Memory, a.memory), Tagged(Memory, b.memory));
  }

  lemma RaisedProfiles(a: seq<Event>, b: seq<Event>, key: Key, policy: Policy)
    requires EventsRaised(a, b) && a != []
    ensures var p, q := WithUsage(GroupProfile(key, a, policy)), WithUsage(GroupProfile(key, b, policy));
            && Built(p) && Built(q) && p.language == q.language && p.workloadKind == q.workloadKind
            && Raised(p.cpuSamples, q.cpuSamples) && Raised(p.memorySamples, q.memorySamples)
  {
    hide WindowsOf, LanguageFor, WorkloadFromLabels, CurrentResources;
    SamplesRaised(a, b, CPU);
    SamplesRaised(a, b, Memory);
    assert EventRaised(a[0], b[0]);
  }

  lemma RaisedSelection(a: Lists, b: Lists, key: Key, target: Target, policy: Policy)
    requires ListsRaised(a, b)
    ensures Selected(a, target, policy, key) <==> Selected(b, target, policy, key)
    ensures Selected(a, target, policy, key) ==>
            NoLower(RecommendationOf(a, target, policy, key).recommended,
                    RecommendationOf(b, target, policy, key).recommended)
  {
    hide RecommendedFor, ObservedOf, LanguageOf, WindowsOf, WorkloadKindMatches, AllEvents;
    AllEventsRaised(a, b);
    var ga, gb := Group(AllEvents(a), key, target), Group(AllEvents(b), key, target);
    GroupRaised(AllEvents(a), AllEvents(b), key, target);
    if ga != [] {
      SamplesRaised(ga, gb, CPU);
      SamplesRaised(ga, gb, Memory);
      RaisedProfiles(ga, gb, key, policy);
      RecommendationMonotone(WithUsage(GroupProfile(key, ga, policy)), WithUsage(GroupProfile(key, gb, policy)),
                             policy);
    }
  }

  /** Raising usage samples leaves the analyzed containers as they are and never lowers a recommended request or
      limit. */
  lemma AnalysisMonotone(a: Analysis, b: Analysis, lists: Lists, raised: Lists, target: Target, policy: Policy)
    requires ListsRaised(lists, raised)
    requires Analyzes(a, lists, target, policy) && Analyzes(b, raised, target, policy)
    ensures |a.recommendations| == |b.recommendations|
    ensures forall i | 0 <= i < |a.recommendations| ::
              && RecKey(a.recommendations[i]) == RecKey(b.recommendations[i])
              && NoLower(a.recommendations[i].recommended, b.recommendations[i].recommended)
  {
    forall key ensures Selected(lists, target, policy, key) <==> Selected(raised, target, policy, key) {
      RaisedSelection(lists, raised, key, target, policy);
    }
    SelectionDecidesKeys(a, b, lists, raised, target, policy);
    AnalysisKeys(a, lists, target, policy);
    hide Selected, RecommendationOf, SummaryOf, NoLower, ListsRaised;
    var ra, rb := a.recommendations, b.recommendations;
    assert |Keys(ra)| == |Keys(rb)|;
    forall i | 0 <= i < |ra| ensures RecKey(ra[i]) == RecKey(rb[i]) && NoLower(ra[i].recommended, rb[i].recommended) {
      assert ra[i] in ra && rb[i] in rb;
      assert Keys(ra)[i] == Keys(rb)[i];
      assert Keys(ra)[i] in Keys(ra);
      RaisedSelection(lists, raised, RecKey(ra[i]), target, policy);
    }
  }

  /** Every recommendation is made from a profile whose samples and windows are those of its key, so the coverage and
      rounding guarantees hold for each. */
  lemma RecommendationsAreBuilt(a: Analysis, lists: Lists, target: Target, policy: Policy, r: Recommendation)
    requires Analyzes(a, lists, target, policy) && r in a.recommendations
    ensures var group := Group(AllEvents(lists), RecKey(r), target);
            && group != []
            && var p := WithUsage(GroupProfile(RecKey(r), group, policy));
               Built(p) && r.recommended == RecommendedFor(p, policy)
  {
    hide RecommendedFor, ObservedOf, LanguageOf, WindowsOf, SummaryOf, Selected, AllEvents, Group, NewProfile;
  }
}
