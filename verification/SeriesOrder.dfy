/** When the order of the series in a list matters (internal/analyzer/resource_series.go). Requests and limits are read
    last-one-wins, the latest of several samples with one timestamp is the current one, and the first series names the
    workload; so exactly then when two series of a key disagree about one of these. */
module SeriesOrder {
  import opened Sorting
  import opened Usage
  import opened Recommend
  import opened SampleOrder
  import opened SeriesJoin
  import opened SeriesLaws
  import opened SeriesParts

  ghost predicate Permuted(lists: Lists, other: Lists) {
    forall kind :: multiset(ListOf(lists, kind)) == multiset(ListOf(other, kind))
  }

  /** The two inputs select the same keys and give each the same recommendation. */
  ghost predicate SameResults(lists: Lists, other: Lists, target: Target, policy: Policy) {
    forall key :: SameResult(lists, other, target, policy, key)
  }

  ghost predicate SameResult(lists: Lists, other: Lists, target: Target, policy: Policy, key: Key) {
    && (Selected(lists, target, policy, key) <==> Selected(other, target, policy, key))
    && (Selected(lists, target, policy, key) ==>
          RecommendationOf(lists, target, policy, key) == RecommendationOf(other, target, policy, key))
  }

  /** That is the same as equal analyses. */
  lemma SameResultsExactly(a: Analysis, b: Analysis, lists: Lists, other: Lists, target: Target, policy: Policy)
    requires Analyzes(a, lists, target, policy) && Analyzes(b, other, target, policy)
    ensures a == b <==> SameResults(lists, other, target, policy)
  {
    AnalysisKeys(a, lists, target, policy);
    AnalysisKeys(b, other, target, policy);
    if a == b {
      forall key ensures SameResult(lists, other, target, policy, key) {
        EqualAnalysesEqualResult(a, lists, other, target, policy, key);
      }
    }
    if SameResults(lists, other, target, policy) {
      forall key ensures Selected(lists, target, policy, key) <==> Selected(other, target, policy, key) {
        assert SameResult(lists, other, target, policy, key);
      }
      SelectionDecidesKeys(a, b, lists, other, target, policy);
      hide Selected, SummaryOf, Group, AllEvents, RecommendationOf;
      var ra, rb := a.recommendations, b.recommendations;
      forall i | 0 <= i < |ra| ensures ra[i] == rb[i] {
        assert ra[i] in ra && rb[i] in rb;
        assert Keys(ra)[i] == RecKey(ra[i]) == RecKey(rb[i]);
        assert RecKey(ra[i]) in Keys(ra);
        assert SameResult(lists, other, target, policy, RecKey(ra[i]));
      }
      assert ra == rb;
    }
  }

  lemma EqualAnalysesEqualResult(a: Analysis, lists: Lists, other: Lists, target: Target, policy: Policy, key: Key)
    requires Analyzes(a, lists, target, policy) && Analyzes(a, other, target, policy)
    ensures SameResult(lists, other, target, policy, key)
  {
    hide SummaryOf, RecommendationOf, GroupProfile, Group, AllEvents;
    if Selected(lists, target, policy, key) {
      var r :| r in a.recommendations && RecKey(r) == key;
    }
  }

  // ----- when the series of a key agree -----

  /** All request or limit series of the key in the list contribute the same. */
  ghost predicate SizesAgree(kind: Kind, list: seq<Series>, key: Key, target: Target)
    requires IsSize(kind)
  {
    forall s, t | s in list && t in list && IsFor(Event(kind, s), key, target) && IsFor(Event(kind, t), key, target) ::
      SizeValue(s, kind) == SizeValue(t, kind)
  }

  /** No series of the key in the list has a later sample. */
  ghost predicate Tops(kind: Kind, list: seq<Series>, key: Key, target: Target, s: Series) {
    && s in list && IsFor(Event(kind, s), key, target) && s.values != []
    && forall x | x in SamplesIn(kind, list, key, target) :: x.timestamp <= Tip(s.values).timestamp
  }

  function TipValue(s: Series, kind: Kind): int
    requires s.values != []
  {
    InUnit(Tip(s.values).value, UnitOf(kind))
  }

  /** All series of the key with its latest samples have the same current value. */
  ghost predicate TipsAgree(kind: Kind, list: seq<Series>, key: Key, target: Target) {
    forall s, t | Tops(kind, list, key, target, s) && Tops(kind, list, key, target, t) ::
      TipValue(s, kind) == TipValue(t, kind)
  }

  /** All series of the key in its leading usage list name the same workload, or none names one of an allowed kind. */
  ghost predicate WorkloadsAgree(lists: Lists, key: Key, target: Target) {
    var kind := Leading(lists, key, target);
    forall s, t | s in ListOf(lists, kind) && t in ListOf(lists, kind)
                  && IsFor(Event(kind, s), key, target) && IsFor(Event(kind, t), key, target)
                  && Admitted(s, key, target) ::
      WorkloadOf(s, key) == WorkloadOf(t, key)
  }

  function LatestOf(lists: Lists, key: Key, target: Target): int {
    End(SamplesIn(CPU, lists.cpu, key, target), SamplesIn(Memory, lists.memory, key, target))
  }

  /** The series of a measured key agree on the workload; those of a selected key agree on requests and limits, and on
      the current usage unless no timestamp is positive. */
  ghost predicate SeriesAgree(lists: Lists, target: Target, policy: Policy, key: Key) {
    && (Measured(lists, key, target) ==> WorkloadsAgree(lists, key, target))
    && (Selected(lists, target, policy, key) ==>
          && (forall kind | IsSize(kind) :: SizesAgree(kind, ListOf(lists, kind), key, target))
          && (LatestOf(lists, key, target) > 0 ==>
                forall kind | !IsSize(kind) :: TipsAgree(kind, ListOf(lists, kind), key, target)))
  }

  // ----- permuting series that agree -----

  lemma SizesPermuted(kind: Kind, list: seq<Series>, other: seq<Series>, key: Key, target: Target)
    requires IsSize(kind) && multiset(list) == multiset(other) && SizesAgree(kind, list, key, target)
    ensures CurrentOfKind(ListGroup(kind, list, key, target), kind, UnitOf(kind))
         == CurrentOfKind(ListGroup(kind, other, key, target), kind, UnitOf(kind))
  {
    hide IsFor, SizeValue, ListGroup, CurrentOfKind;
    SameMembers(list, other);
    var value := if s: Series :| s in list && IsFor(Event(kind, s), key, target) then SizeValue(s, kind) else 0;
    CurrentAgreed(kind, list, key, target, value);
    CurrentAgreed(kind, other, key, target, value);
  }

  /** The current sample of a key is that of one of its series. */
  lemma {:induction false} TipFrom(kind: Kind, list: seq<Series>, key: Key, target: Target) returns (s: Series)
    requires SamplesIn(kind, list, key, target) != []
    ensures Tops(kind, list, key, target, s) && Tip(SamplesIn(kind, list, key, target)) == Tip(s.values)
  {
    hide IsFor, SamplesIn, Tip;
    if list == [] {
      NoSamples(kind, list, key, target);
    } else {
      var front, last := list[..|list| - 1], list[|list| - 1];
      assert list == front + [last];
      SamplesInStep(kind, front, last, key, target);
      var before := SamplesIn(kind, front, key, target);
      if IsFor(Event(kind, last), key, target) && last.values != [] && before != [] {
        TipConcat(before, last.values);
      }
      if IsFor(Event(kind, last), key, target) && last.values != []
         && (before == [] || Tip(last.values).timestamp >= Tip(before).timestamp) {
        s := last;
        assert before == [] ==> before + last.values == last.values;
      } else {
        assert SamplesIn(kind, list, key, target) == before || IsFor(Event(kind, last), key, target);
        s := TipFrom(kind, front, key, target);
      }
    }
  }

  lemma NoSamples(kind: Kind, list: seq<Series>, key: Key, target: Target)
    requires list == []
    ensures SamplesIn(kind, list, key, target) == []
  {
  }

  lemma TopsPermuted(kind: Kind, list: seq<Series>, other: seq<Series>, key: Key, target: Target, s: Series)
    requires multiset(list) == multiset(other) && Tops(kind, other, key, target, s)
    ensures Tops(kind, list, key, target, s)
  {
    hide IsFor, SamplesIn, Tip;
    SameMembers(list, other);
    SamplesInPermuted(kind, list, other, key, target);
    SameMembers(SamplesIn(kind, list, key, target), SamplesIn(kind, other, key, target));
  }

  lemma CurrentPermuted(kind: Kind, list: seq<Series>, other: seq<Series>, key: Key, target: Target)
    requires multiset(list) == multiset(other) && TipsAgree(kind, list, key, target)
    ensures CurrentOf(SamplesIn(kind, list, key, target), UnitOf(kind))
         == CurrentOf(SamplesIn(kind, other, key, target), UnitOf(kind))
  {
    hide IsFor, SamplesIn, Tops, InUnit;
    SamplesInPermuted(kind, list, other, key, target);
    SameMembers(SamplesIn(kind, list, key, target), SamplesIn(kind, other, key, target));
    if SamplesIn(kind, list, key, target) != [] {
      var s := TipFrom(kind, list, key, target);
      var t := TipFrom(kind, other, key, target);
      TopsPermuted(kind, list, other, key, target, t);
      TopsHasSamples(kind, list, key, target, s);
      TopsHasSamples(kind, list, key, target, t);
      assert TipValue(s, kind) == TipValue(t, kind);
    }
  }

  lemma TopsHasSamples(kind: Kind, list: seq<Series>, key: Key, target: Target, s: Series)
    requires Tops(kind, list, key, target, s)
    ensures s.values != []
  {
  }

  lemma MeasuredPermuted(lists: Lists, other: Lists, key: Key, target: Target)
    requires Permuted(lists, other)
    ensures multiset(SamplesIn(CPU, lists.cpu, key, target)) == multiset(SamplesIn(CPU, other.cpu, key, target))
    ensures multiset(SamplesIn(Memory, lists.memory, key, target))
         == multiset(SamplesIn(Memory, other.memory, key, target))
    ensures Measured(lists, key, target) <==> Measured(other, key, target)
    ensures LatestOf(lists, key, target) == LatestOf(other, key, target)
    ensures Leading(lists, key, target) == Leading(other, key, target)
  {
    hide IsFor, SamplesIn, ListGroup;
    assert multiset(ListOf(lists, CPU)) == multiset(ListOf(other, CPU));
    assert multiset(ListOf(lists, Memory)) == multiset(ListOf(other, Memory));
    SamplesInPermuted(CPU, lists.cpu, other.cpu, key, target);
    SamplesInPermuted(Memory, lists.memory, other.memory, key, target);
    var cpu, cpu' := SamplesIn(CPU, lists.cpu, key, target), SamplesIn(CPU, other.cpu, key, target);
    var memory, memory' := SamplesIn(Memory, lists.memory, key, target), SamplesIn(Memory, other.memory, key, target);
    SameMembers(cpu, cpu');
    SameMembers(memory, memory');
    EndPermutation(cpu, cpu', memory, memory');
    ListGroupMembers(CPU, lists.cpu, key, target);
    ListGroupMembers(CPU, other.cpu, key, target);
    SameMembers(lists.cpu, other.cpu);
    var a, b := ListGroup(CPU, lists.cpu, key, target), ListGroup(CPU, other.cpu, key, target);
    assert a != [] ==> a[0] in b;
    assert b != [] ==> b[0] in a;
  }

  /** The first series may be another one, but names the same workload if the key is selected at all. */
  lemma FirstPermuted(lists: Lists, other: Lists, target: Target, key: Key)
    requires Permuted(lists, other) && Measured(lists, key, target) && WorkloadsAgree(lists, key, target)
    ensures Measured(other, key, target)
    ensures var s, t := First(lists, key, target), First(other, key, target);
            && (Admitted(s, key, target) <==> Admitted(t, key, target))
            && (Admitted(s, key, target) ==> WorkloadOf(s, key) == WorkloadOf(t, key))
  {
    hide IsFor, SamplesIn, ListGroup, First, WorkloadOf, Leading, Measured;
    MeasuredPermuted(lists, other, key, target);
    var kind := Leading(lists, key, target);
    SameMembers(ListOf(lists, kind), ListOf(other, kind));
    var s, t := First(lists, key, target), First(other, key, target);
    assert s in ListOf(lists, kind) && t in ListOf(lists, kind);
    assert Admitted(s, key, target) || Admitted(t, key, target) ==> WorkloadOf(s, key) == WorkloadOf(t, key);
  }

  lemma SizesOfPermuted(lists: Lists, other: Lists, target: Target, key: Key)
    requires Permuted(lists, other) && forall kind | IsSize(kind) :: SizesAgree(kind, ListOf(lists, kind), key, target)
    ensures Sizes(lists, key, target) == Sizes(other, key, target)
  {
    hide SizesAgree, CurrentOfKind, ListGroup;
    forall kind | IsSize(kind)
      ensures CurrentOfKind(ListGroup(kind, ListOf(lists, kind), key, target), kind, UnitOf(kind))
           == CurrentOfKind(ListGroup(kind, ListOf(other, kind), key, target), kind, UnitOf(kind))
    {
      SizesPermuted(kind, ListOf(lists, kind), ListOf(other, kind), key, target);
    }
    assert ListOf(lists, RequestsCPU) == lists.requestsCPU && ListOf(lists, RequestsMemory) == lists.requestsMemory;
    assert ListOf(lists, LimitsCPU) == lists.limitsCPU && ListOf(lists, LimitsMemory) == lists.limitsMemory;
  }

  lemma WindowsOfPermuted(lists: Lists, other: Lists, target: Target, key: Key)
    requires Permuted(lists, other)
    requires LatestOf(lists, key, target) > 0 ==>
               forall kind | !IsSize(kind) :: TipsAgree(kind, ListOf(lists, kind), key, target)
    ensures WindowsOf(SamplesIn(CPU, lists.cpu, key, target), SamplesIn(Memory, lists.memory, key, target))
         == WindowsOf(SamplesIn(CPU, other.cpu, key, target), SamplesIn(Memory, other.memory, key, target))
  {
    hide TipsAgree, SamplesIn, WindowsOf, CurrentOf, End, Leading;
    MeasuredPermuted(lists, other, key, target);
    assert multiset(ListOf(lists, CPU)) == multiset(ListOf(other, CPU));
    assert multiset(ListOf(lists, Memory)) == multiset(ListOf(other, Memory));
    if LatestOf(lists, key, target) > 0 {
      assert TipsAgree(CPU, ListOf(lists, CPU), key, target) && TipsAgree(Memory, ListOf(lists, Memory), key, target);
      CurrentPermuted(CPU, lists.cpu, other.cpu, key, target);
      CurrentPermuted(Memory, lists.memory, other.memory, key, target);
    }
    WindowsPermutation(SamplesIn(CPU, lists.cpu, key, target), SamplesIn(CPU, other.cpu, key, target),
                       SamplesIn(Memory, lists.memory, key, target), SamplesIn(Memory, other.memory, key, target));
  }

  lemma AgreedProfiles(lists: Lists, other: Lists, target: Target, policy: Policy, key: Key)
    requires Permuted(lists, other) && Measured(lists, key, target) && Measured(other, key, target)
    requires WorkloadOf(First(lists, key, target), key) == WorkloadOf(First(other, key, target), key)
    requires forall kind | IsSize(kind) :: SizesAgree(kind, ListOf(lists, kind), key, target)
    requires LatestOf(lists, key, target) > 0 ==>
               forall kind | !IsSize(kind) :: TipsAgree(kind, ListOf(lists, kind), key, target)
    ensures RecommendationFor(ProfileOf(lists, target, policy, key), policy)
         == RecommendationFor(ProfileOf(other, target, policy, key), policy)
  {
    hide SizesAgree, TipsAgree, SamplesIn, WindowsOf, First, Measured, LatestOf, Leading, RecommendationFor, Sizes,
         LanguageFor;
    MeasuredPermuted(lists, other, key, target);
    SizesOfPermuted(lists, other, target, key);
    WindowsOfPermuted(lists, other, target, key);
    var cpu, cpu' := SamplesIn(CPU, lists.cpu, key, target), SamplesIn(CPU, other.cpu, key, target);
    var memory, memory' := SamplesIn(Memory, lists.memory, key, target), SamplesIn(Memory, other.memory, key, target);
    ValuesPermutation(cpu, cpu', 0, 0);
    ValuesPermutation(memory, memory', 0, 0);
    RecommendationPermutation(ProfileOf(lists, target, policy, key), ProfileOf(other, target, policy, key), policy);
  }

  /** Permuting series that agree changes nothing. */
  lemma AgreedSameResult(lists: Lists, other: Lists, target: Target, policy: Policy, key: Key)
    requires Permuted(lists, other) && SeriesAgree(lists, target, policy, key)
    ensures SameResult(lists, other, target, policy, key)
  {
    hide Permuted, Measured, WorkloadsAgree, SizesAgree, TipsAgree, First, Admitted, WorkloadOf, ProfileOf,
         RecommendationFor, Selected, RecommendationOf, Leading, LatestOf;
    MeasuredPermuted(lists, other, key, target);
    SelectedExactly(lists, target, policy, key);
    SelectedExactly(other, target, policy, key);
    if Measured(lists, key, target) {
      FirstPermuted(lists, other, target, key);
      if Selected(lists, target, policy, key) {
        AgreedProfiles(lists, other, target, policy, key);
        RecommendationByLists(lists, target, policy, key);
        RecommendationByLists(other, target, policy, key);
      }
    }
  }

  // ----- permuting series that disagree -----

  /** The list with its i-th series moved to the end. */
  function MovedLast(list: seq<Series>, i: nat): seq<Series>
    requires i < |list|
  {
    list[..i] + list[i + 1..] + [list[i]]
  }

  lemma MovedLastContents(list: seq<Series>, i: nat)
    requires i < |list|
    ensures multiset(MovedLast(list, i)) == multiset(list)
  {
    assert list == list[..i] + [list[i]] + list[i + 1..];
  }

  lemma WithListPermuted(lists: Lists, kind: Kind, list: seq<Series>)
    requires multiset(list) == multiset(ListOf(lists, kind))
    ensures Permuted(lists, WithList(lists, kind, list)) && ListOf(WithList(lists, kind, list), kind) == list
  {
  }

  lemma RecommendationShows(lists: Lists, target: Target, policy: Policy, key: Key)
    requires Selected(lists, target, policy, key)
    ensures Measured(lists, key, target)
    ensures var r, w := RecommendationOf(lists, target, policy, key), WorkloadOf(First(lists, key, target), key);
            && r.current == Sizes(lists, key, target) && r.workloadKind == w.0 && r.workloadName == w.1
            && (LatestOf(lists, key, target) > 0 ==>
                  && r.usage.current.cpu == CurrentOf(SamplesIn(CPU, lists.cpu, key, target), Millicores)
                  && r.usage.current.memory == CurrentOf(SamplesIn(Memory, lists.memory, key, target), MiB))
  {
    SelectedExactly(lists, target, policy, key);
    hide Selected, Group, AllEvents, Sizes, SamplesIn, First, Measured, RecommendedFor, ObservedOf, LanguageOf,
         LanguageFor, RecommendationOf, WindowOf, CurrentOf, End, WorkloadFromLabels;
    RecommendationByLists(lists, target, policy, key);
  }

  /** Two request or limit series of a selected key that disagree: moving one of them to the end changes the result. */
  lemma SizeMatters(lists: Lists, target: Target, policy: Policy, key: Key, kind: Kind) returns (other: Lists)
    requires IsSize(kind) && Selected(lists, target, policy, key) && !SizesAgree(kind, ListOf(lists, kind), key, target)
    ensures Permuted(lists, other) && !SameResult(lists, other, target, policy, key)
  {
    hide Selected, RecommendationOf, IsFor, SizeValue, ListGroup, CurrentOfKind, Measured, First, LatestOf, SamplesIn,
         CurrentOf;
    var list := ListOf(lists, kind);
    var now := CurrentOfKind(ListGroup(kind, list, key, target), kind, UnitOf(kind));
    var s :| s in list && IsFor(Event(kind, s), key, target) && SizeValue(s, kind) != now;
    var i :| 0 <= i < |list| && list[i] == s;
    other := WithList(lists, kind, MovedLast(list, i));
    MovedLastContents(list, i);
    WithListPermuted(lists, kind, MovedLast(list, i));
    CurrentLast(kind, list[..i] + list[i + 1..], s, key, target);
    RecommendationShows(lists, target, policy, key);
    if Selected(other, target, policy, key) {
      RecommendationShows(other, target, policy, key);
      assert SizeOf(Sizes(lists, key, target), kind) != SizeOf(Sizes(other, key, target), kind);
    }
  }

  lemma TipLast(kind: Kind, list: seq<Series>, i: nat, key: Key, target: Target)
    requires i < |list| && Tops(kind, list, key, target, list[i])
    ensures SamplesIn(kind, MovedLast(list, i), key, target) != []
    ensures Tip(SamplesIn(kind, MovedLast(list, i), key, target)) == Tip(list[i].values)
  {
    hide IsFor, SamplesIn, Tip;
    var rest, s := list[..i] + list[i + 1..], list[i];
    MovedLastContents(list, i);
    SamplesInPermuted(kind, list, MovedLast(list, i), key, target);
    SameMembers(SamplesIn(kind, list, key, target), SamplesIn(kind, MovedLast(list, i), key, target));
    SamplesInStep(kind, rest, s, key, target);
    var before := SamplesIn(kind, rest, key, target);
    if before == [] {
      assert before + s.values == s.values;
    } else {
      TipConcat(before, s.values);
      assert Tip(before) in SamplesIn(kind, MovedLast(list, i), key, target);
    }
  }

  /** Two usage series of a selected key with its latest samples that disagree: moving one of them to the end changes
      the current usage. */
  lemma TipMatters(lists: Lists, target: Target, policy: Policy, key: Key, kind: Kind) returns (other: Lists)
    requires !IsSize(kind) && Selected(lists, target, policy, key) && LatestOf(lists, key, target) > 0
    requires !TipsAgree(kind, ListOf(lists, kind), key, target)
    ensures Permuted(lists, other) && !SameResult(lists, other, target, policy, key)
  {
    hide Selected, RecommendationOf, Tops, Measured, First, LatestOf, SamplesIn, InUnit, Leading, Sizes, IsFor;
    var list, unit := ListOf(lists, kind), UnitOf(kind);
    var now := CurrentOf(SamplesIn(kind, list, key, target), unit).avg;
    var s :| Tops(kind, list, key, target, s) && s.values != [] && TipValue(s, kind) != now;
    assert s in list by { TopsListed(kind, list, key, target, s); }
    var i :| 0 <= i < |list| && list[i] == s;
    other := WithList(lists, kind, MovedLast(list, i));
    MovedLastContents(list, i);
    WithListPermuted(lists, kind, MovedLast(list, i));
    MeasuredPermuted(lists, other, key, target);
    TipLast(kind, list, i, key, target);
    assert CurrentOf(SamplesIn(kind, ListOf(other, kind), key, target), unit).avg == TipValue(s, kind);
    RecommendationShows(lists, target, policy, key);
    if Selected(other, target, policy, key) {
      RecommendationShows(other, target, policy, key);
      assert kind == CPU || kind == Memory;
    }
  }

  lemma TopsListed(kind: Kind, list: seq<Series>, key: Key, target: Target, s: Series)
    requires Tops(kind, list, key, target, s)
    ensures s in list
  {
  }

  /** The list with its i-th series moved to the front. */
  function MovedFirst(list: seq<Series>, i: nat): seq<Series>
    requires i < |list|
  {
    [list[i]] + (list[..i] + list[i + 1..])
  }

  lemma MovedFirstContents(list: seq<Series>, i: nat)
    requires i < |list|
    ensures multiset(MovedFirst(list, i)) == multiset(list)
  {
    assert list == list[..i] + [list[i]] + list[i + 1..];
  }

  lemma {:induction false} GroupOfFirst(kind: Kind, s: Series, rest: seq<Series>, key: Key, target: Target)
    requires IsFor(Event(kind, s), key, target)
    ensures ListGroup(kind, [s] + rest, key, target) != [] && ListGroup(kind, [s] + rest, key, target)[0].series == s
  {
    hide IsFor, ListGroup;
    if rest == [] {
      ListGroupNone(kind, [], key, target);
      ListGroupStep(kind, [], s, key, target);
      assert [] + [s] == [s] + rest;
    } else {
      var front, last := rest[..|rest| - 1], rest[|rest| - 1];
      assert [s] + rest == ([s] + front) + [last];
      GroupOfFirst(kind, s, front, key, target);
      ListGroupStep(kind, [s] + front, last, key, target);
    }
  }

  /** Any series of the leading list can be made the first. */
  lemma MakeFirst(lists: Lists, target: Target, key: Key, s: Series) returns (other: Lists)
    requires Measured(lists, key, target)
    requires var kind := Leading(lists, key, target); s in ListOf(lists, kind) && IsFor(Event(kind, s), key, target)
    ensures Permuted(lists, other) && Measured(other, key, target) && First(other, key, target) == s
  {
    hide IsFor, SamplesIn, ListGroup, Measured, LatestOf;
    var kind := Leading(lists, key, target);
    var list := ListOf(lists, kind);
    var i :| 0 <= i < |list| && list[i] == s;
    other := WithList(lists, kind, MovedFirst(list, i));
    MovedFirstContents(list, i);
    WithListPermuted(lists, kind, MovedFirst(list, i));
    MeasuredPermuted(lists, other, key, target);
    GroupOfFirst(kind, s, list[..i] + list[i + 1..], key, target);
  }

  /** Two series of a measured key's leading list that disagree on the workload: making one of them the first changes
      the result. */
  lemma WorkloadMatters(lists: Lists, target: Target, policy: Policy, key: Key) returns (other: Lists)
    requires Measured(lists, key, target) && !WorkloadsAgree(lists, key, target)
    ensures Permuted(lists, other) && !SameResult(lists, other, target, policy, key)
  {
    hide IsFor, Measured, First, Selected, RecommendationOf, WorkloadOf, Leading, SamplesIn, LatestOf, Permuted, Sizes;
    var kind := Leading(lists, key, target);
    var s, t :| s in ListOf(lists, kind) && t in ListOf(lists, kind)
      && IsFor(Event(kind, s), key, target) && IsFor(Event(kind, t), key, target)
      && Admitted(s, key, target) && WorkloadOf(s, key) != WorkloadOf(t, key);
    var a := MakeFirst(lists, target, key, s);
    var b := MakeFirst(lists, target, key, t);
    SelectedExactly(a, target, policy, key);
    SelectedExactly(b, target, policy, key);
    RecommendationShows(a, target, policy, key);
    if Selected(b, target, policy, key) {
      RecommendationShows(b, target, policy, key);
    }
    other := if SameResult(lists, a, target, policy, key) then b else a;
  }

  // ----- when the order does not matter -----

  /** No permutation of the six lists changes a result if and only if, for every key, the series of one list agree. */
  lemma OrderIndependenceExactly(lists: Lists, target: Target, policy: Policy)
    ensures (forall other | Permuted(lists, other) :: SameResults(lists, other, target, policy))
            <==> forall key :: SeriesAgree(lists, target, policy, key)
  {
    hide Selected, SameResult, SizesAgree, TipsAgree, WorkloadsAgree, Permuted, Measured, LatestOf;
    if forall key :: SeriesAgree(lists, target, policy, key) {
      forall other, key | Permuted(lists, other) ensures SameResult(lists, other, target, policy, key) {
        AgreedSameResult(lists, other, target, policy, key);
      }
    } else {
      var key :| !SeriesAgree(lists, target, policy, key);
      var other := DisagreementMatters(lists, target, policy, key);
      assert !SameResults(lists, other, target, policy);
    }
  }

  /** Series of one list and one key that disagree: some permutation changes the result of the key. */
  lemma DisagreementMatters(lists: Lists, target: Target, policy: Policy, key: Key) returns (other: Lists)
    requires !SeriesAgree(lists, target, policy, key)
    ensures Permuted(lists, other) && !SameResult(lists, other, target, policy, key)
  {
    hide Selected, SameResult, SizesAgree, TipsAgree, WorkloadsAgree, Permuted, Measured, LatestOf;
    if Measured(lists, key, target) && !WorkloadsAgree(lists, key, target) {
      other := WorkloadMatters(lists, target, policy, key);
    } else if kind :| IsSize(kind) && !SizesAgree(kind, ListOf(lists, kind), key, target) {
      other := SizeMatters(lists, target, policy, key, kind);
    } else {
      var kind :| !IsSize(kind) && !TipsAgree(kind, ListOf(lists, kind), key, target);
      other := TipMatters(lists, target, policy, key, kind);
    }
  }

  /** If the series agree, the analysis is the same, although the map is ranged over in any order and the sort is not
      stable. */
  lemma OrderIndependence(a: Analysis, b: Analysis, lists: Lists, other: Lists, target: Target, policy: Policy)
    requires Permuted(lists, other) && forall key :: SeriesAgree(lists, target, policy, key)
    requires Analyzes(a, lists, target, policy) && Analyzes(b, other, target, policy)
    ensures a == b
  {
    hide Analyzes, SameResult, SeriesAgree, Permuted;
    OrderIndependenceExactly(lists, target, policy);
    SameResultsExactly(a, b, lists, other, target, policy);
  }

  // ----- instances -----

  const WEB: Labels := map["namespace" := "ns", "pod" := "web", "container" := "app"]

  const EVERYTHING := Target([], [], [])

  /** One container with one usage sample and two CPU request series, of one and of two cores. */
  function TwoRequests(): Lists {
    Lists([Series(WEB, [Sample(1, 0.5)])], [], [Series(WEB, [Sample(1, 1.0)]), Series(WEB, [Sample(1, 2.0)])], [], [],
          [])
  }

  /** One container with two usage series that report one and two cores at the same time. */
  function TwoReports(): Lists {
    Lists([Series(WEB, [Sample(1, 1.0)]), Series(WEB, [Sample(1, 2.0)])], [], [], [], [], [])
  }

  /** Its current request depends on the order of the two. */
  lemma TwoRequestsDepend(policy: Policy)
    ensures exists other :: Permuted(TwoRequests(), other) && !SameResults(TwoRequests(), other, EVERYTHING, policy)
  {
    var lists, key := TwoRequests(), KeyOf(WEB);
    WebSelected(lists, policy);
    RequestsDisagree(key);
    hide Selected, SameResult, SizesAgree, Permuted;
    var other := SizeMatters(lists, EVERYTHING, policy, key, RequestsCPU);
  }

  lemma RequestsDisagree(key: Key)
    requires key == KeyOf(WEB)
    ensures !SizesAgree(RequestsCPU, TwoRequests().requestsCPU, key, EVERYTHING)
  {
    var list := TwoRequests().requestsCPU;
    var one, two := list[0], list[1];
    assert SizeValue(one, RequestsCPU) == 1000 && SizeValue(two, RequestsCPU) == 2000;
    assert one in list && two in list && IsFor(Event(RequestsCPU, one), key, EVERYTHING);
  }

  /** Its current usage depends on the order of the two. */
  lemma TwoReportsDepend(policy: Policy)
    ensures exists other :: Permuted(TwoReports(), other) && !SameResults(TwoReports(), other, EVERYTHING, policy)
  {
    var lists, key := TwoReports(), KeyOf(WEB);
    WebSelected(lists, policy);
    ReportsDisagree(key);
    hide Selected, SameResult, TipsAgree, Permuted, LatestOf;
    var other := TipMatters(lists, EVERYTHING, policy, key, CPU);
  }

  lemma ReportSamples(key: Key)
    requires key == KeyOf(WEB)
    ensures SamplesIn(CPU, TwoReports().cpu, key, EVERYTHING) == [Sample(1, 1.0), Sample(1, 2.0)]
  {
    var one, two := TwoReports().cpu[0], TwoReports().cpu[1];
    assert TwoReports().cpu == ([] + [one]) + [two];
    NoSamples(CPU, [], key, EVERYTHING);
    SamplesInStep(CPU, [], one, key, EVERYTHING);
    SamplesInStep(CPU, [] + [one], two, key, EVERYTHING);
  }

  lemma ReportsDisagree(key: Key)
    requires key == KeyOf(WEB)
    ensures !TipsAgree(CPU, TwoReports().cpu, key, EVERYTHING) && LatestOf(TwoReports(), key, EVERYTHING) > 0
  {
    ReportSamples(key);
    hide SamplesIn;
    var one, two := TwoReports().cpu[0], TwoReports().cpu[1];
    assert Tops(CPU, TwoReports().cpu, key, EVERYTHING, one) && Tops(CPU, TwoReports().cpu, key, EVERYTHING, two);
    assert TipValue(one, CPU) == 1000 && TipValue(two, CPU) == 2000;
    assert Sample(1, 1.0) in SamplesIn(CPU, TwoReports().cpu, key, EVERYTHING) + SamplesIn(Memory, [], key, EVERYTHING);
  }

  lemma WebSelected(lists: Lists, policy: Policy)
    requires lists.cpu != [] && lists.cpu[|lists.cpu| - 1].metric == WEB && lists.cpu[|lists.cpu| - 1].values != []
    ensures Selected(lists, EVERYTHING, policy, KeyOf(WEB))
  {
    var front, last := lists.cpu[..|lists.cpu| - 1], lists.cpu[|lists.cpu| - 1];
    assert lists.cpu == front + [last] && IsFor(Event(CPU, last), KeyOf(WEB), EVERYTHING);
    SamplesInStep(CPU, front, last, KeyOf(WEB), EVERYTHING);
    hide SamplesIn, Selected, First;
    SelectedExactly(lists, EVERYTHING, policy, KeyOf(WEB));
  }
}
