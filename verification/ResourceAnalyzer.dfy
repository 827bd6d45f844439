/** `AnalyzeResourceSeries` (internal/analyzer/resource_series.go) as it runs: six loops that update profiles behind
    pointers in a map, a range over that map, an unstable sort, and a loop that folds the summary. */
module ResourceAnalyzer {
  import opened Sorting
  import opened Usage
  import opened Recommend
  import opened SeriesJoin

  /** The mutable profile of one container. */
  class ContainerUsageProfile {
    var namespace: string
    var workloadKind: string
    var workloadName: string
    var pod: string
    var container: string
    var language: string
    var cpuCores: seq<real>
    var memoryBytes: seq<real>
    var cpuSamples: seq<Sample>
    var memorySamples: seq<Sample>
    var usage: Windows
    var current: Resources

    constructor (p: Profile)
      ensures View() == p
    {
      namespace, workloadKind, workloadName := p.namespace, p.workloadKind, p.workloadName;
      pod, container, language := p.pod, p.container, p.language;
      cpuCores, memoryBytes, cpuSamples, memorySamples := p.cpuCores, p.memoryBytes, p.cpuSamples, p.memorySamples;
      usage, current := p.usage, p.current;
    }

    function View(): Profile
      reads this
    {
      Profile(namespace, workloadKind, workloadName, pod, container, language,
              cpuCores, memoryBytes, cpuSamples, memorySamples, usage, current)
    }

    /** The inner loop over the samples of a series. */
    method AppendSamples(kind: Kind, values: seq<Sample>)
      requires kind == CPU || kind == Memory
      modifies this
      ensures View() == WithSamples(old(View()), kind, values)
    {
      for i := 0 to |values|
        invariant View() == WithSamples(old(View()), kind, values[..i])
      {
        assert values[..i + 1] == values[..i] + [values[i]];
        assert Values(values[..i + 1]) == Values(values[..i]) + [values[i].value];
        if kind == CPU {
          cpuCores := cpuCores + [values[i].value];
          cpuSamples := cpuSamples + [values[i]];
        } else {
          memoryBytes := memoryBytes + [values[i].value];
          memorySamples := memorySamples + [values[i]];
        }
      }
      assert values[..|values|] == values;
    }

    method SetCurrent(kind: Kind, value: real)
      requires kind != CPU && kind != Memory
      modifies this`current
      ensures View() == WithCurrent(old(View()), kind, value)
    {
      match kind
      case RequestsCPU => current := current.(cpuRequest := InUnit(value, Millicores));
      case RequestsMemory => current := current.(memoryRequest := InUnit(value, MiB));
      case LimitsCPU => current := current.(cpuLimit := InUnit(value, Millicores));
      case LimitsMemory => current := current.(memoryLimit := InUnit(value, MiB));
    }

    method Absorb(e: Event)
      modifies this
      ensures View() == WithSeries(old(View()), e)
    {
      if e.kind == CPU || e.kind == Memory {
        AppendSamples(e.kind, e.series.values);
      } else {
        SetCurrent(e.kind, LatestValue(e.series));
      }
    }

    method SetUsage(windows: Windows)
      modifies this`usage
      ensures View() == old(View()).(usage := windows)
    {
      usage := windows;
    }
  }

  // ----- the effect of one series on one profile -----

  function WithSamples(p: Profile, kind: Kind, values: seq<Sample>): Profile {
    if kind == CPU then p.(cpuCores := p.cpuCores + Values(values), cpuSamples := p.cpuSamples + values)
    else p.(memoryBytes := p.memoryBytes + Values(values), memorySamples := p.memorySamples + values)
  }

  function WithCurrent(p: Profile, kind: Kind, value: real): Profile {
    match kind
    case RequestsCPU => p.(current := p.current.(cpuRequest := InUnit(value, Millicores)))
    case RequestsMemory => p.(current := p.current.(memoryRequest := InUnit(value, MiB)))
    case LimitsCPU => p.(current := p.current.(cpuLimit := InUnit(value, Millicores)))
    case LimitsMemory => p.(current := p.current.(memoryLimit := InUnit(value, MiB)))
    case _ => p
  }

  function WithSeries(p: Profile, e: Event): Profile {
    if e.kind == CPU || e.kind == Memory then WithSamples(p, e.kind, e.series.values)
    else WithCurrent(p, e.kind, LatestValue(e.series))
  }

  lemma SamplesStep(group: seq<Event>, e: Event, kind: Kind)
    ensures SamplesOf(group + [e], kind) == SamplesOf(group, kind) + if e.kind == kind then e.series.values else []
    ensures Values(SamplesOf(group + [e], kind))
         == Values(SamplesOf(group, kind)) + if e.kind == kind then Values(e.series.values) else []
  {
    assert (group + [e])[..|group|] == group;
  }

  lemma CurrentStep(group: seq<Event>, e: Event, kind: Kind, unit: Unit)
    ensures CurrentOfKind(group + [e], kind, unit)
         == if e.kind == kind then InUnit(LatestValue(e.series), unit) else CurrentOfKind(group, kind, unit)
  {
    assert (group + [e])[..|group|] == group;
  }

  /** Reading one more series turns the profile of a group into the profile of the longer group. */
  lemma GroupProfileStep(key: Key, group: seq<Event>, e: Event, policy: Policy)
    ensures GroupProfile(key, group + [e], policy) ==
            WithSeries(if group == [] then NewProfile(key, e.series.metric, policy)
                       else GroupProfile(key, group, policy), e)
  {
    hide InUnit, LatestValue, LanguageFor, WorkloadFromLabels;
    SamplesStep(group, e, CPU);
    SamplesStep(group, e, Memory);
    CurrentStep(group, e, RequestsCPU, Millicores);
    CurrentStep(group, e, RequestsMemory, MiB);
    CurrentStep(group, e, LimitsCPU, Millicores);
    CurrentStep(group, e, LimitsMemory, MiB);
    assert (group + [e])[0] == if group == [] then e else group[0];
    assert SamplesOf(group, CPU) + [] == SamplesOf(group, CPU)
           && SamplesOf(group, Memory) + [] == SamplesOf(group, Memory);
  }

  lemma ForOwnKey(e: Event, target: Target)
    requires Relevant(e.series, target)
    ensures forall k :: IsFor(e, k, target) <==> k == KeyOf(e.series.metric)
  {
  }

  lemma NotForAny(e: Event, target: Target)
    requires !Relevant(e.series, target)
    ensures forall k :: !IsFor(e, k, target)
  {
  }

  lemma GroupStep(events: seq<Event>, e: Event, key: Key, target: Target)
    ensures IsFor(e, key, target) ==> Group(events + [e], key, target) == Group(events, key, target) + [e]
    ensures !IsFor(e, key, target) ==> Group(events + [e], key, target) == Group(events, key, target)
  {
    assert (events + [e])[..|events|] == events;
  }

  lemma TaggedStart(kind: Kind, list: seq<Series>, events: seq<Event>)
    ensures events + Tagged(kind, list[..0]) == events
  {
  }

  lemma TaggedStep(kind: Kind, list: seq<Series>, i: nat, events: seq<Event>)
    requires i < |list|
    ensures events + Tagged(kind, list[..i + 1]) == events + Tagged(kind, list[..i]) + [Event(kind, list[i])]
  {
  }

  /** The map of profile pointers. */
  class ProfileTable {
    var profiles: map<Key, ContainerUsageProfile>

    constructor ()
      ensures profiles == map[]
    {
      profiles := map[];
    }

    /** No two keys share a profile. */
    ghost predicate Valid()
      reads this
    {
      forall a, b | a in profiles && b in profiles && a != b :: profiles[a] != profiles[b]
    }

    /** The table holds exactly the profiles of the non-empty groups of the series read so far. */
    ghost predicate Holds(events: seq<Event>, target: Target, policy: Policy)
      reads this, profiles.Values
    {
      && Valid()
      && forall key ::
           && (key in profiles <==> Group(events, key, target) != [])
           && (key in profiles ==> profiles[key].View() == GroupProfile(key, Group(events, key, target), policy))
    }

    lemma StartsEmpty(target: Target, policy: Policy)
      requires profiles == map[]
      ensures Holds([], target, policy)
    {
    }

    method Ensure(key: Key, labels: Labels, policy: Policy) returns (profile: ContainerUsageProfile)
      requires Valid()
      modifies this
      ensures Valid()
      ensures profiles.Keys == old(profiles.Keys) + {key} && profile == profiles[key]
      ensures forall k | k in old(profiles) :: profiles[k] == old(profiles[k])
      ensures key in old(profiles) ==> profiles == old(profiles)
      ensures key !in old(profiles) ==> fresh(profile) && profile.View() == NewProfile(key, labels, policy)
    {
      if key in profiles {
        return profiles[key];
      }
      profile := new ContainerUsageProfile(NewProfile(key, labels, policy));
      profiles := profiles[key := profile];
    }

    /** One round of one of the six loops. */
    method Read(kind: Kind, series: Series, target: Target, policy: Policy, ghost events: seq<Event>)
      requires Holds(events, target, policy)
      modifies this, profiles.Values
      ensures Holds(events + [Event(kind, series)], target, policy)
      ensures fresh(profiles.Values - old(profiles.Values))
    {
      hide GroupProfile, Group, IsFor;
      var e := Event(kind, series);
      var key := KeyOf(series.metric);
      if !HasKey(series.metric) || !TargetMatches(key, target) {
        forall k ensures Group(events + [e], k, target) == Group(events, k, target) {
          NotForAny(e, target);
          GroupStep(events, e, k, target);
        }
        return;
      }
      ReadRelevant(key, e, target, policy, events);
    }

    method ReadRelevant(key: Key, e: Event, ghost target: Target, policy: Policy, ghost events: seq<Event>)
      requires Holds(events, target, policy)
      requires Relevant(e.series, target) && key == KeyOf(e.series.metric)
      modifies this, profiles.Values
      ensures Holds(events + [e], target, policy)
      ensures fresh(profiles.Values - old(profiles.Values))
    {
      hide GroupProfile, NewProfile, WithSeries, Group, IsFor, Relevant, ContainerUsageProfile.View;
      ForOwnKey(e, target);
      GroupStep(events, e, key, target);
      GroupProfileStep(key, Group(events, key, target), e, policy);
      ghost var before := profiles;
      var profile := Ensure(key, e.series.metric, policy);
      profile.Absorb(e);
      assert profile.View() == GroupProfile(key, Group(events + [e], key, target), policy);
      forall k | k != key ensures Group(events + [e], k, target) == Group(events, k, target) {
        GroupStep(events, e, k, target);
      }
      forall k | k in profiles && k != key
        ensures profiles[k].View() == GroupProfile(k, Group(events + [e], k, target), policy)
      {
        assert k in before && profiles[k] == before[k] && profiles[k] != profile;
      }
    }

    method ReadAll(kind: Kind, list: seq<Series>, target: Target, policy: Policy, ghost events: seq<Event>)
      requires Holds(events, target, policy)
      modifies this, profiles.Values
      ensures Holds(events + Tagged(kind, list), target, policy)
      ensures fresh(profiles.Values - old(profiles.Values))
    {
      hide Holds, Tagged;
      TaggedStart(kind, list, events);
      for i := 0 to |list|
        invariant Holds(events + Tagged(kind, list[..i]), target, policy)
        invariant fresh(profiles.Values - old(profiles.Values))
      {
        TaggedStep(kind, list, i, events);
        Read(kind, list[i], target, policy, events + Tagged(kind, list[..i]));
      }
      assert list[..|list|] == list;
    }

    /** Two of the six loops: one kind of series for CPU and for memory. */
    method ReadPair(first: Kind, a: seq<Series>, second: Kind, b: seq<Series>, target: Target, policy: Policy,
            ghost events: seq<Event>)
      requires Holds(events, target, policy)
      modifies this, profiles.Values
      ensures Holds(events + Tagged(first, a) + Tagged(second, b), target, policy)
      ensures fresh(profiles.Values - old(profiles.Values))
    {
      hide Holds, Tagged;
      ReadAll(first, a, target, policy, events);
      ReadAll(second, b, target, policy, events + Tagged(first, a));
    }
  }

  /** The keys worth a recommendation, in no particular order. */
  method SelectKeys(table: ProfileTable, ghost lists: Lists, target: Target,
          ghost policy: Policy) returns (keys: seq<Key>)
    requires table.Holds(AllEvents(lists), target, policy)
    ensures Distinct(keys)
    ensures forall key :: key in keys <==> Selected(lists, target, policy, key)
  {
    hide AllEvents, Group, SamplesOf, NewProfile, CurrentResources, WorkloadKindMatches;
    var order := RangeOver(table.profiles.Keys);
    Enumeration(order, table.profiles.Keys);
    keys := [];
    for i := 0 to |order|
      invariant Distinct(keys)
      invariant forall key :: key in keys <==> key in order[..i] && Selected(lists, target, policy, key)
    {
      assert order[..i + 1] == order[..i] + [order[i]];
      assert order[i] !in order[..i];
      var profile := table.profiles[order[i]];
      ghost var group := Group(AllEvents(lists), order[i], target);
      assert Values(SamplesOf(group, CPU)) == [] <==> SamplesOf(group, CPU) == [];
      assert Values(SamplesOf(group, Memory)) == [] <==> SamplesOf(group, Memory) == [];
      if |profile.cpuCores| == 0 && |profile.memoryBytes| == 0 {
        continue;
      }
      if !WorkloadKindMatches(profile.workloadKind, target.workloadKinds) {
        continue;
      }
      keys := keys + [order[i]];
    }
    assert order[..|order|] == order;
    forall key | Selected(lists, target, policy, key) ensures key in keys {
      assert key in table.profiles;
    }
  }

  /** The keys, sorted; being distinct they end up strictly increasing. */
  method SortKeys(keys: seq<Key>) returns (sorted: seq<Key>)
    requires Distinct(keys)
    ensures multiset(sorted) == multiset(keys)
    ensures forall i, j | 0 <= i < j < |sorted| :: KeyLe(sorted[i], sorted[j]) && sorted[i] != sorted[j]
  {
    KeyLePreorder();
    sorted := SortSlice(keys, KeyLe);
    DistinctContents(keys, sorted);
  }

  lemma DistinctContents<T>(s: seq<T>, t: seq<T>)
    requires Distinct(s) && multiset(s) == multiset(t)
    ensures Distinct(t)
  {
    forall i, j | 0 <= i < j < |t| ensures t[i] != t[j] {
      DistinctMultiplicity(s, t[i]);
      if t[i] == t[j] {
        MultiplicityTwo(t, i, j);
        assert false;
      }
    }
  }

  /** The sums of a summary, without the two counts that need a set. */
  function Sums(recs: seq<Recommendation>): Summary {
    SummaryOf(recs).(namespaces := 0, workloads := 0)
  }

  lemma SetsStep(recs: seq<Recommendation>, rec: Recommendation)
    ensures Namespaces(recs + [rec]) == Namespaces(recs) + {rec.namespace}
    ensures Workloads(recs + [rec]) == Workloads(recs) + {RecWorkload(rec)}
  {
    hide RecWorkload;
  }

  lemma SumsStep(recs: seq<Recommendation>, r: Recommendation)
    ensures var s, t := Sums(recs), Sums(recs + [r]);
            t == s.(containers := s.containers + 1,
                    changes := s.changes + (if Changed(r) then 1 else 0),
                    cpuReduction := s.cpuReduction + Reduction(r.current.cpuRequest, r.recommended.cpuRequest),
                    memoryReduction := s.memoryReduction
                      + Reduction(r.current.memoryRequest, r.recommended.memoryRequest))
  {
    hide Changed, Namespaces, Workloads, Reduction;
    assert (recs + [r])[..|recs|] == recs;
  }

  lemma SummaryStep(recs: seq<Recommendation>, i: nat)
    requires i < |recs|
    ensures Namespaces(recs[..i + 1]) == Namespaces(recs[..i]) + {recs[i].namespace}
    ensures Workloads(recs[..i + 1]) == Workloads(recs[..i]) + {RecWorkload(recs[i])}
    ensures var s, t, r := Sums(recs[..i]), Sums(recs[..i + 1]), recs[i];
            t == s.(containers := s.containers + 1,
                    changes := s.changes + (if Changed(r) then 1 else 0),
                    cpuReduction := s.cpuReduction + Reduction(r.current.cpuRequest, r.recommended.cpuRequest),
                    memoryReduction := s.memoryReduction
                      + Reduction(r.current.memoryRequest, r.recommended.memoryRequest))
  {
    hide Sums, Namespaces, Workloads, Changed, RecWorkload, Reduction;
    assert recs[..i + 1] == recs[..i] + [recs[i]];
    SetsStep(recs[..i], recs[i]);
    SumsStep(recs[..i], recs[i]);
  }

  lemma SummaryStart(recs: seq<Recommendation>)
    requires recs == []
    ensures Namespaces(recs) == {} && Workloads(recs) == {} && Sums(recs) == Summary(0, 0, 0, 0, 0, 0)
  {
  }

  lemma SummaryEnd(recs: seq<Recommendation>)
    ensures SummaryOf(recs) == Sums(recs).(namespaces := |Namespaces(recs)|, workloads := |Workloads(recs)|)
  {
  }

  method Summarize(recs: seq<Recommendation>) returns (summary: Summary)
    ensures summary == SummaryOf(recs)
  {
    hide Changed, RecWorkload, Namespaces, Workloads, Sums, SummaryOf;
    var namespaces, workloads: set<string> := {}, {};
    summary := Summary(0, 0, 0, 0, 0, 0);
    SummaryStart(recs[..0]);
    for i := 0 to |recs|
      invariant namespaces == Namespaces(recs[..i]) && workloads == Workloads(recs[..i])
      invariant summary == Sums(recs[..i])
    {
      SummaryStep(recs, i);
      var rec := recs[i];
      namespaces := namespaces + {rec.namespace};
      workloads := workloads + {RecWorkload(rec)};
      summary := summary.(containers := summary.containers + 1);
      if Changed(rec) {
        summary := summary.(changes := summary.changes + 1);
      }
      var cpuDelta := rec.current.cpuRequest - rec.recommended.cpuRequest;
      if cpuDelta > 0 {
        summary := summary.(cpuReduction := summary.cpuReduction + cpuDelta);
      }
      var memoryDelta := rec.current.memoryRequest - rec.recommended.memoryRequest;
      if memoryDelta > 0 {
        summary := summary.(memoryReduction := summary.memoryReduction + memoryDelta);
      }
    }
    assert recs[..|recs|] == recs;
    SummaryEnd(recs);
    summary := summary.(namespaces := |namespaces|, workloads := |workloads|);
  }

  /** The six loops. */
  method LoadProfiles(lists: Lists, target: Target, policy: Policy) returns (table: ProfileTable)
    ensures table.Holds(AllEvents(lists), target, policy)
    ensures fresh(table) && fresh(table.profiles.Values)
  {
    hide Group, GroupProfile, ProfileTable.Holds, Tagged;
    table := new ProfileTable();
    table.StartsEmpty(target, policy);
    table.ReadPair(CPU, lists.cpu, Memory, lists.memory, target, policy, []);
    ghost var events := Tagged(CPU, lists.cpu) + Tagged(Memory, lists.memory);
    assert [] + Tagged(CPU, lists.cpu) == Tagged(CPU, lists.cpu);
    table.ReadPair(RequestsCPU, lists.requestsCPU, RequestsMemory, lists.requestsMemory, target, policy, events);
    events := events + Tagged(RequestsCPU, lists.requestsCPU) + Tagged(RequestsMemory, lists.requestsMemory);
    table.ReadPair(LimitsCPU, lists.limitsCPU, LimitsMemory, lists.limitsMemory, target, policy, events);
  }

  method RecommendFor(profile: ContainerUsageProfile, policy: Policy) returns (rec: Recommendation)
    modifies profile`usage
    ensures rec == RecommendationFor(WithUsage(old(profile.View())), policy)
  {
    var windows := BuildUsageWindows(profile.cpuSamples, profile.memorySamples);
    profile.SetUsage(windows);
    rec := RecommendResources(profile.View(), policy);
  }

  /** The loop over the sorted keys, which completes each profile and recommends from it. */
  method RecommendAll(table: ProfileTable, keys: seq<Key>, ghost lists: Lists, ghost target: Target, policy: Policy)
    returns (recs: seq<Recommendation>)
    requires table.Holds(AllEvents(lists), target, policy) && Distinct(keys)
    requires forall key | key in keys :: Group(AllEvents(lists), key, target) != []
    modifies table.profiles.Values
    ensures |recs| == |keys|
    ensures forall k | 0 <= k < |keys| ::
              RecKey(recs[k]) == keys[k] && recs[k] == RecommendationOf(lists, target, policy, keys[k])
  {
    hide GroupProfile, RecommendationFor, WithUsage, Group, AllEvents, ContainerUsageProfile.View;
    ghost var groups := map key | key in keys :: GroupProfile(key, Group(AllEvents(lists), key, target), policy);
    recs := [];
    for i := 0 to |keys|
      invariant |recs| == i
      invariant forall k | i <= k < |keys| :: table.profiles[keys[k]].View() == groups[keys[k]]
      invariant forall k | 0 <= k < i :: recs[k] == RecommendationFor(WithUsage(groups[keys[k]]), policy)
    {
      var rec := RecommendFor(table.profiles[keys[i]], policy);
      recs := recs + [rec];
    }
    forall k | 0 <= k < |keys| ensures RecKey(recs[k]) == keys[k] {
      RecommendedKey(keys[k], Group(AllEvents(lists), keys[k], target), policy);
    }
  }

  lemma RecommendedKey(key: Key, group: seq<Event>, policy: Policy)
    requires group != []
    ensures RecKey(RecommendationFor(WithUsage(GroupProfile(key, group, policy)), policy)) == key
  {
    hide SamplesOf, CurrentResources, WindowsOf, RecommendedFor, ObservedOf, LanguageOf;
  }

  lemma SelectedGroup(lists: Lists, target: Target, policy: Policy, key: Key)
    requires Selected(lists, target, policy, key)
    ensures Group(AllEvents(lists), key, target) != []
  {
  }

  method AnalyzeResourceSeries(lists: Lists, target: Target, policy: Policy) returns (result: Analysis)
    ensures Analyzes(result, lists, target, policy)
  {
    hide Selected, RecommendationOf, SummaryOf, AllEvents, Group, GroupProfile;
    var table := LoadProfiles(lists, target, policy);
    var keys := SelectKeys(table, lists, target, policy);
    ghost var selected := keys;
    keys := SortKeys(keys);
    SameMembers(selected, keys);
    forall key | key in keys ensures Group(AllEvents(lists), key, target) != [] {
      SelectedGroup(lists, target, policy, key);
    }
    var recs := RecommendAll(table, keys, lists, target, policy);
    var summary := Summarize(recs);
    result := Analysis(summary, recs);
    OneForEach(recs, keys);
  }

  lemma OneForEach(recs: seq<Recommendation>, keys: seq<Key>)
    requires |recs| == |keys| && forall k | 0 <= k < |keys| :: RecKey(recs[k]) == keys[k]
    ensures forall key :: key in keys <==> exists r :: r in recs && RecKey(r) == key
    ensures forall r | r in recs :: exists k :: 0 <= k < |keys| && recs[k] == r
  {
    forall key ensures key in keys <==> exists r :: r in recs && RecKey(r) == key {
      if key in keys {
        var k :| 0 <= k < |keys| && keys[k] == key;
        assert recs[k] in recs;
      }
    }
  }
}
