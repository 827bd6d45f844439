/** What an analysis says about a container, stated from the labels and samples of its series
    (internal/analyzer/resource_series.go). */
module SeriesMeaning {
  import opened Text
  import opened Sequences
  import opened Usage
  import opened Recommend
  import opened SeriesJoin
  import opened SeriesLaws
  import opened SeriesParts
  import ResourceAnalyzer
  import RecommendMeaning
  import UsageMeaning

  // ----- labels -----

  /** The label has this value; a label that is not there is empty. */
  predicate HasLabel(labels: Labels, name: string, value: string) {
    if name in labels then labels[name] == value else value == ""
  }

  /** The series is about this container of this pod. */
  predicate About(s: Series, key: Key) {
    && HasLabel(s.metric, "namespace", key.namespace) && HasLabel(s.metric, "pod", key.pod)
    && HasLabel(s.metric, "container", key.container)
  }

  /** A real container, as opposed to the sandbox of a pod. */
  predicate RealContainer(key: Key) {
    key.namespace != "" && key.pod != "" && key.container != "" && key.container != "POD"
  }

  predicate NamespaceWanted(target: Target, namespace: string) {
    namespace !in target.excludeNamespaces && (|target.namespaces| > 0 ==> namespace in target.namespaces)
  }

  /** The series counts for this container. */
  predicate Counts(s: Series, key: Key, target: Target) {
    About(s, key) && RealContainer(key) && NamespaceWanted(target, key.namespace)
  }

  lemma CountsExactly(kind: Kind, s: Series, key: Key, target: Target)
    ensures IsFor(Event(kind, s), key, target) <==> Counts(s, key, target)
  {
    LabelExactly(s.metric, "namespace", key.namespace);
    LabelExactly(s.metric, "pod", key.pod);
    LabelExactly(s.metric, "container", key.container);
  }

  lemma LabelExactly(labels: Labels, name: string, value: string)
    ensures Label(labels, name) == value <==> HasLabel(labels, name, value)
  {
  }

  // ----- workloads -----

  const KINDS: map<string, string> := map[
    "deployment" := "Deployment", "deployments" := "Deployment", "statefulset" := "StatefulSet",
    "statefulsets" := "StatefulSet", "daemonset" := "DaemonSet", "daemonsets" := "DaemonSet",
    "replicaset" := "ReplicaSet", "replicasets" := "ReplicaSet"]

  /** The i-th of the labels is the first of them that is there and not empty. */
  predicate FirstSet(labels: Labels, names: seq<string>, i: nat, value: string) {
    && i < |names| && value != "" && HasLabel(labels, names[i], value)
    && forall j | 0 <= j < i :: HasLabel(labels, names[j], "")
  }

  predicate NoneSet(labels: Labels, names: seq<string>) {
    forall j | 0 <= j < |names| :: HasLabel(labels, names[j], "")
  }

  /** The workload that the labels name: by a kind label and a name label; else by a label of one of three kinds; else
      the pod itself. */
  ghost predicate NamesWorkload(labels: Labels, pod: string, kind: string, name: string) {
    var kinds := ["workload_kind", "workload_type", "owner_kind", "created_by_kind"];
    var names := ["workload", "workload_name", "owner_name", "created_by_name"];
    if !NoneSet(labels, kinds) && !NoneSet(labels, names) then
      && (exists i: nat, text ::
            FirstSet(labels, kinds, i, text) && kind == if ToLower(text) in KINDS then KINDS[ToLower(text)] else text)
      && exists i: nat :: FirstSet(labels, names, i, name)
    else if !HasLabel(labels, "deployment", "") then kind == "Deployment" && HasLabel(labels, "deployment", name)
    else if !HasLabel(labels, "statefulset", "") then kind == "StatefulSet" && HasLabel(labels, "statefulset", name)
    else if !HasLabel(labels, "daemonset", "") then kind == "DaemonSet" && HasLabel(labels, "daemonset", name)
    else kind == "Pod" && name == pod
  }

  lemma {:induction false} FirstLabelExactly(labels: Labels, names: seq<string>)
    ensures FirstLabel(labels, names) == "" <==> NoneSet(labels, names)
    ensures FirstLabel(labels, names) != "" ==> exists i: nat :: FirstSet(labels, names, i, FirstLabel(labels, names))
  {
    if names != [] {
      var rest := names[1..];
      assert forall j | 0 < j < |names| :: names[j] == rest[j - 1];
      LabelExactly(labels, names[0], Label(labels, names[0]));
      FirstLabelExactly(labels, rest);
      if Label(labels, names[0]) != "" {
        assert FirstSet(labels, names, 0, FirstLabel(labels, names));
      } else if FirstLabel(labels, names) != "" {
        var i: nat :| FirstSet(labels, rest, i, FirstLabel(labels, rest));
        assert FirstSet(labels, names, i + 1, FirstLabel(labels, names));
      }
    }
  }

  lemma NormalizeExactly(kind: string)
    ensures NormalizeKind(kind) == if kind == "" then "Pod" else if ToLower(kind) in KINDS then KINDS[ToLower(kind)]
            else kind
  {
  }

  lemma WorkloadExactly(labels: Labels, pod: string)
    ensures NamesWorkload(labels, pod, WorkloadFromLabels(labels, pod).0, WorkloadFromLabels(labels, pod).1)
  {
    hide FirstLabel, NoneSet, FirstSet, NormalizeKind, ToLower;
    FirstLabelExactly(labels, KIND_LABELS);
    FirstLabelExactly(labels, NAME_LABELS);
    var kind := FirstLabel(labels, KIND_LABELS);
    if kind != "" {
      NormalizeExactly(kind);
    }
  }

  /** A kind is allowed if nothing is asked for, or it is asked for in whatever case; a pod without a workload always
      is. */
  predicate KindWanted(target: Target, kind: string) {
    target.workloadKinds == [] || kind in {"", "Pod"} || exists wanted | wanted in target.workloadKinds ::
      EqualFold(wanted, kind)
  }

  lemma KindExactly(kind: string, target: Target)
    ensures WorkloadKindMatches(kind, target.workloadKinds) <==> KindWanted(target, kind)
  {
    hide EqualFold;
    if wanted :| wanted in target.workloadKinds && EqualFold(wanted, kind) {
      var i :| 0 <= i < |target.workloadKinds| && target.workloadKinds[i] == wanted;
    }
  }

  // ----- languages -----

  /** An override that names a language and, of namespace, workload and container, nothing else than the given ones. */
  predicate Overrides(o: Override, namespace: string, workload: string, container: string) {
    o.language != "" && o.namespace in {"", namespace} && o.workload in {"", workload} && o.container in {"", container}
  }

  /** The first such override decides; without any, the configured default; without that, Go. */
  ghost predicate SpokenBy(policy: Policy, namespace: string, workload: string, container: string, language: string) {
    var overrides := policy.overrides;
    if exists i :: 0 <= i < |overrides| && Overrides(overrides[i], namespace, workload, container)
    then exists i :: FirstOverride(overrides, i, namespace, workload, container) && language == overrides[i].language
    else language == if policy.defaultLanguage == "" then "Go" else policy.defaultLanguage
  }

  predicate FirstOverride(overrides: seq<Override>, i: int, namespace: string, workload: string, container: string) {
    && 0 <= i < |overrides| && Overrides(overrides[i], namespace, workload, container)
    && forall j | 0 <= j < i :: !Overrides(overrides[j], namespace, workload, container)
  }

  lemma {:induction false} LanguageExactly(policy: Policy, overrides: seq<Override>, namespace: string,
          workload: string, container: string)
    ensures SpokenBy(policy.(overrides := overrides), namespace, workload, container,
                     LanguageFor(overrides, policy.defaultLanguage, namespace, workload, container))
  {
    if overrides != [] {
      var rest := overrides[1..];
      LanguageExactly(policy, rest, namespace, workload, container);
      assert forall i | 0 <= i < |rest| :: rest[i] == overrides[i + 1];
      assert forall i | 0 < i < |overrides| :: overrides[i] == rest[i - 1];
      if Overrides(overrides[0], namespace, workload, container) {
        assert FirstOverride(overrides, 0, namespace, workload, container);
      } else if exists i :: 0 <= i < |rest| && Overrides(rest[i], namespace, workload, container) {
        var i :| FirstOverride(rest, i, namespace, workload, container)
          && rest[i].language == LanguageFor(rest, policy.defaultLanguage, namespace, workload, container);
        assert FirstOverride(overrides, i + 1, namespace, workload, container);
      }
    }
  }

  // ----- the first and the last series of a container -----

  /** The i-th series of the list is the first that counts. */
  predicate FirstCounting(list: seq<Series>, i: int, key: Key, target: Target) {
    0 <= i < |list| && Counts(list[i], key, target) && forall j | 0 <= j < i :: !Counts(list[j], key, target)
  }

  predicate LastCounting(list: seq<Series>, i: int, key: Key, target: Target) {
    0 <= i < |list| && Counts(list[i], key, target) && forall j | i < j < |list| :: !Counts(list[j], key, target)
  }

  predicate NoneCounts(list: seq<Series>, key: Key, target: Target) {
    forall j | 0 <= j < |list| :: !Counts(list[j], key, target)
  }

  lemma {:induction false} GroupHead(kind: Kind, list: seq<Series>, key: Key, target: Target)
    ensures var group := ListGroup(kind, list, key, target);
            && (group == [] <==> NoneCounts(list, key, target))
            && (group != [] ==> exists i :: FirstCounting(list, i, key, target) && group[0].series == list[i])
  {
    hide ListGroup, Counts, IsFor;
    if list == [] {
      ListGroupNone(kind, list, key, target);
    } else {
      var front, last := list[..|list| - 1], list[|list| - 1];
      assert list == front + [last];
      GroupHead(kind, front, key, target);
      ListGroupStep(kind, front, last, key, target);
      CountsExactly(kind, last, key, target);
      if ListGroup(kind, front, key, target) != [] {
        var i :| FirstCounting(front, i, key, target) && ListGroup(kind, front, key, target)[0].series == front[i];
        assert FirstCounting(list, i, key, target);
      } else if Counts(last, key, target) {
        assert FirstCounting(list, |front|, key, target);
      }
    }
  }

  lemma {:induction false} CurrentFromLast(kind: Kind, list: seq<Series>, key: Key, target: Target)
    ensures var value := CurrentOfKind(ListGroup(kind, list, key, target), kind, UnitOf(kind));
            if NoneCounts(list, key, target) then value == 0
            else exists i :: LastCounting(list, i, key, target) && value == InUnit(LatestValue(list[i]), UnitOf(kind))
  {
    hide ListGroup, Counts, IsFor, InUnit, LatestValue;
    if list == [] {
      ListGroupNone(kind, list, key, target);
    } else {
      var front, last := list[..|list| - 1], list[|list| - 1];
      assert list == front + [last];
      CurrentFromLast(kind, front, key, target);
      ListGroupStep(kind, front, last, key, target);
      CountsExactly(kind, last, key, target);
      var group := ListGroup(kind, front, key, target);
      if Counts(last, key, target) {
        ResourceAnalyzer.CurrentStep(group, Event(kind, last), kind, UnitOf(kind));
        assert LastCounting(list, |front|, key, target);
      } else {
        assert group + [] == group;
        if !NoneCounts(front, key, target) {
          var i :| LastCounting(front, i, key, target)
            && CurrentOfKind(group, kind, UnitOf(kind)) == InUnit(LatestValue(front[i]), UnitOf(kind));
          assert LastCounting(list, i, key, target);
        } else {
          assert NoneCounts(list, key, target);
        }
      }
    }
  }

  // ----- current settings -----

  /** The figure is the last value of the series in whole units, rounded up; 0 for a series without values. */
  predicate EndsIn(s: Series, kind: Kind, figure: int) {
    var one := if kind == RequestsCPU || kind == LimitsCPU then 0.001 else 1048576.0;
    if s.values == [] then figure == 0
    else (figure - 1) as real * one < s.values[|s.values| - 1].value <= figure as real * one
  }

  /** The current setting of a container: what its last request or limit series ends in, or 0 without such a series. */
  ghost predicate SettingOf(list: seq<Series>, kind: Kind, key: Key, target: Target, figure: int) {
    if NoneCounts(list, key, target) then figure == 0
    else exists i :: LastCounting(list, i, key, target) && EndsIn(list[i], kind, figure)
  }

  lemma LatestEnds(s: Series, kind: Kind)
    requires IsSize(kind)
    ensures EndsIn(s, kind, InUnit(LatestValue(s), UnitOf(kind)))
  {
    UsageMeaning.UnitsExactly(LatestValue(s), UnitOf(kind), InUnit(LatestValue(s), UnitOf(kind)));
    if s.values == [] {
      ZeroUnits(UnitOf(kind));
    }
  }

  lemma ZeroUnits(unit: Unit)
    ensures InUnit(0.0, unit) == 0
  {
  }

  lemma SettingExactly(kind: Kind, list: seq<Series>, key: Key, target: Target)
    requires IsSize(kind)
    ensures SettingOf(list, kind, key, target, CurrentOfKind(ListGroup(kind, list, key, target), kind, UnitOf(kind)))
  {
    hide ListGroup, Counts, InUnit, LatestValue, EndsIn, NoneCounts;
    CurrentFromLast(kind, list, key, target);
    if !NoneCounts(list, key, target) {
      var value := CurrentOfKind(ListGroup(kind, list, key, target), kind, UnitOf(kind));
      var i :| LastCounting(list, i, key, target) && value == InUnit(LatestValue(list[i]), UnitOf(kind));
      LatestEnds(list[i], kind);
    }
  }

  // ----- usage -----

  function Contributes(key: Key, target: Target): Series -> seq<Sample> {
    (s: Series) => if Counts(s, key, target) then s.values else []
  }

  /** The samples of a container: those of its series, list order first. */
  function SamplesAbout(list: seq<Series>, key: Key, target: Target): seq<Sample> {
    Bind(list, Contributes(key, target))
  }

  lemma {:induction false} SamplesExactly(kind: Kind, list: seq<Series>, key: Key, target: Target)
    ensures SamplesIn(kind, list, key, target) == SamplesAbout(list, key, target)
  {
    SamplesInBind(kind, list, key, target);
    hide SamplesIn, IsFor, Counts;
    SameContributions(kind, list, key, target);
  }

  lemma {:induction false} SameContributions(kind: Kind, list: seq<Series>, key: Key, target: Target)
    ensures Bind(list, Contribution(kind, key, target)) == Bind(list, Contributes(key, target))
  {
    hide IsFor, Counts;
    if list != [] {
      var last := |list| - 1;
      SameContributions(kind, list[..last], key, target);
      CountsExactly(kind, list[last], key, target);
    }
  }

  // ----- who is analyzed, and what is said -----

  /** The labels of the first usage series of the container, CPU before memory. */
  ghost predicate LabelsOf(lists: Lists, key: Key, target: Target, labels: Labels) {
    if NoneCounts(lists.cpu, key, target)
    then exists i :: FirstCounting(lists.memory, i, key, target) && labels == lists.memory[i].metric
    else exists i :: FirstCounting(lists.cpu, i, key, target) && labels == lists.cpu[i].metric
  }

  /** The container has a usage sample, and its workload is wanted. */
  ghost predicate Analyzed(lists: Lists, target: Target, key: Key) {
    && (SamplesAbout(lists.cpu, key, target) != [] || SamplesAbout(lists.memory, key, target) != [])
    && exists labels, kind, name ::
         LabelsOf(lists, key, target, labels) && NamesWorkload(labels, key.pod, kind, name) && KindWanted(target, kind)
  }

  lemma FirstLabels(lists: Lists, key: Key, target: Target)
    requires Measured(lists, key, target)
    ensures LabelsOf(lists, key, target, First(lists, key, target).metric)
  {
    hide ListGroup, Counts, SamplesIn;
    GroupHead(CPU, lists.cpu, key, target);
    GroupHead(Memory, lists.memory, key, target);
    if Leading(lists, key, target) == Memory {
      assert First(lists, key, target) in lists.memory;
      MemoryCounts(lists, key, target);
    }
  }

  lemma MemoryCounts(lists: Lists, key: Key, target: Target)
    requires Measured(lists, key, target) && Leading(lists, key, target) == Memory
    ensures ListGroup(Memory, lists.memory, key, target) != []
  {
    ListGroupMembers(CPU, lists.cpu, key, target);
  }

  lemma LabelsOnce(lists: Lists, key: Key, target: Target, a: Labels, b: Labels)
    requires LabelsOf(lists, key, target, a) && LabelsOf(lists, key, target, b)
    ensures a == b
  {
    hide Counts;
  }

  lemma WorkloadOnce(labels: Labels, pod: string, kind: string, name: string)
    requires NamesWorkload(labels, pod, kind, name)
    ensures (kind, name) == WorkloadFromLabels(labels, pod)
  {
    hide FirstLabel, NormalizeKind, ToLower;
    WorkloadExactly(labels, pod);
    FirstLabelExactly(labels, KIND_LABELS);
    FirstLabelExactly(labels, NAME_LABELS);
    if FirstLabel(labels, KIND_LABELS) != "" {
      NormalizeExactly(FirstLabel(labels, KIND_LABELS));
    }
  }

  /** Exactly the containers with a usage sample and a wanted workload are analyzed. */
  lemma AnalyzedExactly(a: Analysis, lists: Lists, target: Target, policy: Policy, key: Key)
    requires Analyzes(a, lists, target, policy)
    ensures (exists r :: r in a.recommendations && RecKey(r) == key) <==> Analyzed(lists, target, key)
  {
    hide SummaryOf, RecommendationOf, Group, AllEvents, SamplesIn, First, SamplesAbout, LabelsOf, WorkloadFromLabels,
         KindWanted, WorkloadKindMatches, NamesWorkload, Selected;
    SelectedExactly(lists, target, policy, key);
    SamplesExactly(CPU, lists.cpu, key, target);
    SamplesExactly(Memory, lists.memory, key, target);
    if Measured(lists, key, target) {
      var labels := First(lists, key, target).metric;
      var workload := WorkloadFromLabels(labels, key.pod);
      FirstLabels(lists, key, target);
      WorkloadExactly(labels, key.pod);
      KindExactly(workload.0, target);
      if other, kind, name :| LabelsOf(lists, key, target, other) && NamesWorkload(other, key.pod, kind, name)
                              && KindWanted(target, kind) {
        LabelsOnce(lists, key, target, labels, other);
        WorkloadOnce(labels, key.pod, kind, name);
      }
    }
  }

  /** The workload that the first usage series names, and the language of the first override that fits. */
  ghost predicate Identifies(r: Recommendation, lists: Lists, target: Target, policy: Policy) {
    var key := RecKey(r);
    && (exists labels :: LabelsOf(lists, key, target, labels)
                         && NamesWorkload(labels, key.pod, r.workloadKind, r.workloadName))
    && (exists language :: SpokenBy(policy, key.namespace, r.workloadName, key.container, language)
                           && (TrimSpace(language) != "" ==> r.language == TrimSpace(language)))
  }

  /** The figures of all samples of the container. */
  predicate ShowsUsage(r: Recommendation, lists: Lists, target: Target) {
    var cpu, memory := SamplesAbout(lists.cpu, RecKey(r), target), SamplesAbout(lists.memory, RecKey(r), target);
    && r.usage == WindowsOf(cpu, memory)
    && r.observedCPU == ObservedOf(Values(cpu), Millicores) && r.observedMemory == ObservedOf(Values(memory), MiB)
  }

  /** The settings of the last request and limit series. */
  ghost predicate ShowsSettings(current: Resources, lists: Lists, key: Key, target: Target) {
    && SettingOf(lists.requestsCPU, RequestsCPU, key, target, current.cpuRequest)
    && SettingOf(lists.requestsMemory, RequestsMemory, key, target, current.memoryRequest)
    && SettingOf(lists.limitsCPU, LimitsCPU, key, target, current.cpuLimit)
    && SettingOf(lists.limitsMemory, LimitsMemory, key, target, current.memoryLimit)
  }

  lemma SizesShow(lists: Lists, key: Key, target: Target)
    ensures ShowsSettings(Sizes(lists, key, target), lists, key, target)
  {
    hide SettingOf, ListGroup, CurrentOfKind;
    SettingExactly(RequestsCPU, lists.requestsCPU, key, target);
    SettingExactly(RequestsMemory, lists.requestsMemory, key, target);
    SettingExactly(LimitsCPU, lists.limitsCPU, key, target);
    SettingExactly(LimitsMemory, lists.limitsMemory, key, target);
  }

  lemma ProfileIdentifies(lists: Lists, target: Target, policy: Policy, key: Key)
    requires Measured(lists, key, target)
    ensures var p := ProfileOf(lists, target, policy, key);
            && p.language != ""
            && (exists labels :: LabelsOf(lists, key, target, labels)
                                 && NamesWorkload(labels, key.pod, p.workloadKind, p.workloadName))
            && SpokenBy(policy, key.namespace, p.workloadName, key.container, p.language)
  {
    hide SamplesIn, First, LabelsOf, WorkloadFromLabels, NamesWorkload, WindowsOf, LanguageFor, SpokenBy, Sizes,
         Measured;
    var p, labels := ProfileOf(lists, target, policy, key), First(lists, key, target).metric;
    FirstLabels(lists, key, target);
    WorkloadExactly(labels, key.pod);
    LanguageExactly(policy, policy.overrides, key.namespace, p.workloadName, key.container);
    assert policy.(overrides := policy.overrides) == policy;
    LanguageNotEmpty(policy.overrides, policy.defaultLanguage, key.namespace, p.workloadName, key.container);
  }

  lemma ProfileShows(lists: Lists, target: Target, policy: Policy, key: Key)
    requires Measured(lists, key, target)
    ensures var p := ProfileOf(lists, target, policy, key);
            var cpu, memory := SamplesAbout(lists.cpu, key, target), SamplesAbout(lists.memory, key, target);
            && p.usage == WindowsOf(cpu, memory) && p.cpuCores == Values(cpu) && p.memoryBytes == Values(memory)
            && p.current == Sizes(lists, key, target)
            && Key(p.namespace, p.pod, p.container) == key
  {
    hide SamplesIn, SamplesAbout, First, WindowsOf, Sizes, Measured, LanguageFor, WorkloadFromLabels;
    SamplesExactly(CPU, lists.cpu, key, target);
    SamplesExactly(Memory, lists.memory, key, target);
  }

  /** What an analysis says about a container is what its series say. */
  lemma RecommendationDescribes(a: Analysis, lists: Lists, target: Target, policy: Policy, r: Recommendation)
    requires Analyzes(a, lists, target, policy) && r in a.recommendations
    ensures Identifies(r, lists, target, policy) && ShowsUsage(r, lists, target)
    ensures ShowsSettings(r.current, lists, RecKey(r), target)
  {
    var key := RecKey(r);
    assert Selected(lists, target, policy, key);
    assert r == RecommendationOf(lists, target, policy, key);
    hide *;
    SelectedExactly(lists, target, policy, key);
    RecommendationByLists(lists, target, policy, key);
    ProfileIdentifies(lists, target, policy, key);
    ProfileShows(lists, target, policy, key);
    SizesShow(lists, key, target);
    DescribedBy(r, lists, target, policy, ProfileOf(lists, target, policy, key), key);
  }

  lemma DescribedBy(r: Recommendation, lists: Lists, target: Target, policy: Policy, p: Profile, key: Key)
    requires r == RecommendationFor(p, policy) && Key(p.namespace, p.pod, p.container) == key && p.language != ""
    requires exists labels :: LabelsOf(lists, key, target, labels)
                              && NamesWorkload(labels, key.pod, p.workloadKind, p.workloadName)
    requires SpokenBy(policy, key.namespace, p.workloadName, key.container, p.language)
    requires var cpu, memory := SamplesAbout(lists.cpu, key, target), SamplesAbout(lists.memory, key, target);
             p.usage == WindowsOf(cpu, memory) && p.cpuCores == Values(cpu) && p.memoryBytes == Values(memory)
    ensures Identifies(r, lists, target, policy) && ShowsUsage(r, lists, target)
    ensures r.current == p.current && RecKey(r) == key
  {
    hide LabelsOf, NamesWorkload, SpokenBy, SamplesAbout, WindowsOf, ObservedOf, TrimSpace, RecommendationFor;
    RecommendMeaning.RecommendationCarries(p, policy);
  }

  lemma {:induction false} LanguageNotEmpty(overrides: seq<Override>, default: string, namespace: string,
          workload: string, container: string)
    ensures LanguageFor(overrides, default, namespace, workload, container) != ""
  {
    if overrides != [] {
      LanguageNotEmpty(overrides[1..], default, namespace, workload, container);
    }
  }

  // ----- inner samples of requests and limits -----

  /** The series have the same labels and end in the same value. */
  predicate SameEnd(s: Series, t: Series) {
    && s.metric == t.metric && (s.values == [] <==> t.values == [])
    && (s.values != [] ==> s.values[|s.values| - 1].value == t.values[|t.values| - 1].value)
  }

  predicate SameEnds(a: seq<Series>, b: seq<Series>) {
    |a| == |b| && forall i | 0 <= i < |a| :: SameEnd(a[i], b[i])
  }

  /** The same usage, and requests and limits that may differ in all samples but the last of each series. */
  predicate SameButInner(lists: Lists, other: Lists) {
    && lists.cpu == other.cpu && lists.memory == other.memory
    && SameEnds(lists.requestsCPU, other.requestsCPU) && SameEnds(lists.requestsMemory, other.requestsMemory)
    && SameEnds(lists.limitsCPU, other.limitsCPU) && SameEnds(lists.limitsMemory, other.limitsMemory)
  }

  lemma {:induction false} SameEndCurrent(kind: Kind, a: seq<Series>, b: seq<Series>, key: Key, target: Target)
    requires SameEnds(a, b)
    ensures CurrentOfKind(ListGroup(kind, a, key, target), kind, UnitOf(kind))
         == CurrentOfKind(ListGroup(kind, b, key, target), kind, UnitOf(kind))
  {
    hide ListGroup, InUnit, IsFor, CurrentOfKind;
    if a == [] {
      ListGroupNone(kind, a, key, target);
      ListGroupNone(kind, b, key, target);
    } else {
      var n := |a| - 1;
      assert a == a[..n] + [a[n]] && b == b[..n] + [b[n]] && SameEnd(a[n], b[n]);
      SameEndCurrent(kind, a[..n], b[..n], key, target);
      ListGroupStep(kind, a[..n], a[n], key, target);
      ListGroupStep(kind, b[..n], b[n], key, target);
      SameLabelsCount(kind, a[n], b[n], key, target);
      var ga, gb := ListGroup(kind, a[..n], key, target), ListGroup(kind, b[..n], key, target);
      ResourceAnalyzer.CurrentStep(ga, Event(kind, a[n]), kind, UnitOf(kind));
      ResourceAnalyzer.CurrentStep(gb, Event(kind, b[n]), kind, UnitOf(kind));
      assert ga + [] == ga && gb + [] == gb;
    }
  }

  lemma SameLabelsCount(kind: Kind, s: Series, t: Series, key: Key, target: Target)
    requires s.metric == t.metric
    ensures IsFor(Event(kind, s), key, target) <==> IsFor(Event(kind, t), key, target)
  {
  }

  lemma SameProfiles(lists: Lists, other: Lists, target: Target, policy: Policy, key: Key)
    requires SameButInner(lists, other) && Measured(lists, key, target)
    ensures Measured(other, key, target) && First(lists, key, target) == First(other, key, target)
    ensures ProfileOf(lists, target, policy, key) == ProfileOf(other, target, policy, key)
  {
    hide ListGroup, CurrentOfKind, SamplesIn, SameEnds, NewProfile;
    SameEndCurrent(RequestsCPU, lists.requestsCPU, other.requestsCPU, key, target);
    SameEndCurrent(RequestsMemory, lists.requestsMemory, other.requestsMemory, key, target);
    SameEndCurrent(LimitsCPU, lists.limitsCPU, other.limitsCPU, key, target);
    SameEndCurrent(LimitsMemory, lists.limitsMemory, other.limitsMemory, key, target);
  }

  lemma SameSelected(lists: Lists, other: Lists, target: Target, policy: Policy, key: Key)
    requires SameButInner(lists, other)
    ensures Selected(lists, target, policy, key) <==> Selected(other, target, policy, key)
    ensures Selected(lists, target, policy, key) ==>
              RecommendationOf(lists, target, policy, key) == RecommendationOf(other, target, policy, key)
  {
    hide *;
    SelectedExactly(lists, target, policy, key);
    SelectedExactly(other, target, policy, key);
    assert Measured(lists, key, target)
           <==> Measured(other, key, target) by { SameMeasured(lists, other, key, target); }
    if Measured(lists, key, target) {
      SameProfiles(lists, other, target, policy, key);
      RecommendationByLists(lists, target, policy, key);
      RecommendationByLists(other, target, policy, key);
    }
  }

  lemma SameMeasured(lists: Lists, other: Lists, key: Key, target: Target)
    requires SameButInner(lists, other)
    ensures Measured(lists, key, target) <==> Measured(other, key, target)
  {
    hide SamplesIn, SameEnds;
  }

  /** Of a request or limit series only the last sample matters. */
  lemma InnerSamplesIrrelevant(a: Analysis, b: Analysis, lists: Lists, other: Lists, target: Target, policy: Policy)
    requires SameButInner(lists, other) && Analyzes(a, lists, target, policy) && Analyzes(b, other, target, policy)
    ensures a == b
  {
    hide Selected, SameButInner, RecommendationOf, SummaryOf, Group, AllEvents;
    forall key
      ensures Selected(lists, target, policy, key) <==> Selected(other, target, policy, key)
      ensures Selected(lists, target, policy, key) ==>
                RecommendationOf(lists, target, policy, key) == RecommendationOf(other, target, policy, key)
    {
      SameSelected(lists, other, target, policy, key);
    }
    SelectionDecidesKeys(a, b, lists, other, target, policy);
    var ra, rb := a.recommendations, b.recommendations;
    forall i | 0 <= i < |ra| ensures ra[i] == rb[i] {
      assert ra[i] in ra && rb[i] in rb && Keys(ra)[i] == RecKey(ra[i]) == RecKey(rb[i]);
      assert Selected(lists, target, policy, RecKey(ra[i]));
    }
    assert ra == rb;
  }

  // ----- the summary -----

  function Total(recs: seq<Recommendation>, figure: Recommendation -> int): int {
    if recs == [] then 0 else Total(recs[..|recs| - 1], figure) + figure(recs[|recs| - 1])
  }

  /** The recommendations with current and recommended settings exchanged. */
  function Exchanged(recs: seq<Recommendation>): (r: seq<Recommendation>)
    ensures |r| == |recs|
    ensures forall i | 0 <= i < |r| :: r[i] == recs[i].(current := recs[i].recommended, recommended := recs[i].current)
  {
    seq(|recs|, i requires 0 <= i < |recs| => recs[i].(current := recs[i].recommended, recommended := recs[i].current))
  }

  /** Reductions minus growth is the net change of the requests. */
  lemma {:induction false} ReductionsBalance(recs: seq<Recommendation>)
    ensures CpuReduction(recs) - CpuReduction(Exchanged(recs))
         == Total(recs, (r: Recommendation) => r.current.cpuRequest - r.recommended.cpuRequest)
    ensures MemoryReduction(recs) - MemoryReduction(Exchanged(recs))
         == Total(recs, (r: Recommendation) => r.current.memoryRequest - r.recommended.memoryRequest)
  {
    if recs != [] {
      var last := |recs| - 1;
      ReductionsBalance(recs[..last]);
      assert Exchanged(recs)[..last] == Exchanged(recs[..last]);
    }
  }

  /** Nothing is reduced exactly if no request is recommended below the current one. */
  lemma {:induction false} NothingReduced(recs: seq<Recommendation>)
    ensures CpuReduction(recs) >= 0 && MemoryReduction(recs) >= 0
    ensures CpuReduction(recs) == 0 <==> forall r | r in recs :: r.current.cpuRequest <= r.recommended.cpuRequest
    ensures MemoryReduction(recs) == 0 <==> forall r | r in recs ::
              r.current.memoryRequest <= r.recommended.memoryRequest
  {
    if recs != [] {
      var front, last := recs[..|recs| - 1], recs[|recs| - 1];
      assert recs == front + [last];
      NothingReduced(front);
    }
  }

  /** The recommendations in which some figure differs from the current setting. */
  function Changes(recs: seq<Recommendation>): set<int> {
    set i | 0 <= i < |recs| && (recs[i].current.cpuRequest != recs[i].recommended.cpuRequest
                                || recs[i].current.cpuLimit != recs[i].recommended.cpuLimit
                                || recs[i].current.memoryRequest != recs[i].recommended.memoryRequest
                                || recs[i].current.memoryLimit != recs[i].recommended.memoryLimit)
  }

  lemma {:induction false} ChangesCounted(recs: seq<Recommendation>)
    ensures CountChanged(recs) == |Changes(recs)|
  {
    if recs == [] {
      assert Changes(recs) == {};
    } else {
      var last := |recs| - 1;
      ChangesCounted(recs[..last]);
      assert Changes(recs) == Changes(recs[..last]) + if Changed(recs[last]) then {last} else {};
    }
  }

  /** The summary of an analysis. */
  lemma SummaryExactly(a: Analysis, lists: Lists, target: Target, policy: Policy)
    requires Analyzes(a, lists, target, policy)
    ensures var recs, s := a.recommendations, a.summary;
            && s.containers == |recs| && s.changes == |Changes(recs)|
            && s.namespaces == |set r | r in recs :: r.namespace|
            && s.workloads == |set r | r in recs :: r.namespace + "/" + r.workloadKind + "/" + r.workloadName|
            && s.cpuReduction == CpuReduction(recs) && s.memoryReduction == MemoryReduction(recs)
  {
    hide Selected, RecommendationOf, Group, AllEvents;
    var recs := a.recommendations;
    ChangesCounted(recs);
    assert Workloads(recs) == set r | r in recs :: r.namespace + "/" + r.workloadKind + "/" + r.workloadName;
  }
}
