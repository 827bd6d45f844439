/** What `AnalyzeResourceSeries` (internal/analyzer/resource_series.go) computes, as a group-by: the series of the six
    lists are grouped by namespace, pod and container, and each group becomes one profile. */
module SeriesJoin {
  import opened Text
  import Sorting
  import opened Usage
  import opened Recommend

  datatype Key = Key(namespace: string, pod: string, container: string)

  type Labels = map<string, string>

  datatype Series = Series(metric: Labels, values: seq<Sample>)

  datatype Target = Target(namespaces: seq<string>, excludeNamespaces: seq<string>, workloadKinds: seq<string>)

  datatype Lists = Lists(cpu: seq<Series>, memory: seq<Series>, requestsCPU: seq<Series>, requestsMemory: seq<Series>,
                         limitsCPU: seq<Series>, limitsMemory: seq<Series>)

  /** Which of the six lists a series comes from. */
  datatype Kind = CPU | Memory | RequestsCPU | RequestsMemory | LimitsCPU | LimitsMemory

  datatype Event = Event(kind: Kind, series: Series)

  // ----- labels -----

  function Label(labels: Labels, name: string): string {
    if name in labels then labels[name] else ""
  }

  function KeyOf(metric: Labels): Key {
    Key(Label(metric, "namespace"), Label(metric, "pod"), Label(metric, "container"))
  }

  /** `keyFromMetric` accepts the labels. */
  predicate HasKey(metric: Labels) {
    var key := KeyOf(metric);
    key.namespace != "" && key.pod != "" && key.container != "" && key.container != "POD"
  }

  predicate TargetMatches(key: Key, target: Target) {
    key.namespace !in target.excludeNamespaces && (target.namespaces == [] || key.namespace in target.namespaces)
  }

  predicate Relevant(s: Series, target: Target) {
    HasKey(s.metric) && TargetMatches(KeyOf(s.metric), target)
  }

  function NormalizeKind(kind: string): string {
    var lower := ToLower(kind);
    if lower == "deployment" || lower == "deployments" then "Deployment"
    else if lower == "statefulset" || lower == "statefulsets" then "StatefulSet"
    else if lower == "daemonset" || lower == "daemonsets" then "DaemonSet"
    else if lower == "replicaset" || lower == "replicasets" then "ReplicaSet"
    else if kind == "" then "Pod" else kind
  }

  const KIND_LABELS := ["workload_kind", "workload_type", "owner_kind", "created_by_kind"]
  const NAME_LABELS := ["workload", "workload_name", "owner_name", "created_by_name"]

  /** The value of the first of the named labels that is not empty, or "". */
  function FirstLabel(labels: Labels, names: seq<string>): string {
    if names == [] then ""
    else if Label(labels, names[0]) != "" then Label(labels, names[0])
    else FirstLabel(labels, names[1..])
  }

  /** `workloadFromLabels`: the first pair of a kind label and a name label that are both set. */
  function WorkloadFromLabels(labels: Labels, pod: string): (string, string) {
    var kind, name := FirstLabel(labels, KIND_LABELS), FirstLabel(labels, NAME_LABELS);
    if kind != "" && name != "" then (NormalizeKind(kind), name)
    else if Label(labels, "deployment") != "" then ("Deployment", Label(labels, "deployment"))
    else if Label(labels, "statefulset") != "" then ("StatefulSet", Label(labels, "statefulset"))
    else if Label(labels, "daemonset") != "" then ("DaemonSet", Label(labels, "daemonset"))
    else ("Pod", pod)
  }

  predicate WorkloadKindMatches(kind: string, allowed: seq<string>) {
    allowed == [] || kind == "" || kind == "Pod" || exists i | 0 <= i < |allowed| :: EqualFold(allowed[i], kind)
  }

  predicate OverrideApplies(o: Override, namespace: string, workload: string, container: string) {
    && (o.namespace == "" || o.namespace == namespace)
    && (o.workload == "" || o.workload == workload)
    && (o.container == "" || o.container == container)
    && o.language != ""
  }

  /** `languageFor`: the first override that applies, else the default, else Go. */
  function LanguageFor(overrides: seq<Override>, default: string, namespace: string, workload: string,
          container: string): string {
    if overrides == [] then (if default != "" then default else "Go")
    else if OverrideApplies(overrides[0], namespace, workload, container) then overrides[0].language
    else LanguageFor(overrides[1..], default, namespace, workload, container)
  }

  function LatestValue(s: Series): real {
    if s.values == [] then 0.0 else s.values[|s.values| - 1].value
  }

  // ----- the group-by -----

  function Tagged(kind: Kind, list: seq<Series>): (events: seq<Event>)
    ensures |events| == |list|
    ensures forall i | 0 <= i < |events| :: events[i] == Event(kind, list[i])
  {
    seq(|list|, i requires 0 <= i < |list| => Event(kind, list[i]))
  }

  /** All series, in the order the six lists are read. */
  function AllEvents(lists: Lists): seq<Event> {
    Tagged(CPU, lists.cpu) + Tagged(Memory, lists.memory)
    + Tagged(RequestsCPU, lists.requestsCPU) + Tagged(RequestsMemory, lists.requestsMemory)
    + Tagged(LimitsCPU, lists.limitsCPU) + Tagged(LimitsMemory, lists.limitsMemory)
  }

  predicate IsFor(e: Event, key: Key, target: Target) {
    Relevant(e.series, target) && KeyOf(e.series.metric) == key
  }

  /** The group of a key: its relevant series, in order. */
  function Group(events: seq<Event>, key: Key, target: Target): seq<Event> {
    if events == [] then []
    else
      var last := |events| - 1;
      Group(events[..last], key, target) + if IsFor(events[last], key, target) then [events[last]] else []
  }

  /** All samples of one kind, concatenated. */
  function SamplesOf(group: seq<Event>, kind: Kind): seq<Sample> {
    if group == [] then []
    else
      var last := group[|group| - 1];
      SamplesOf(group[..|group| - 1], kind) + if last.kind == kind then last.series.values else []
  }

  /** The latest value of the last series of one kind, in whole units; 0 without such a series. */
  function CurrentOfKind(group: seq<Event>, kind: Kind, unit: Unit): int {
    if group == [] then 0
    else
      var last := group[|group| - 1];
      if last.kind == kind then InUnit(LatestValue(last.series), unit)
      else CurrentOfKind(group[..|group| - 1], kind, unit)
  }

  function CurrentResources(group: seq<Event>): Resources {
    Resources(CurrentOfKind(group, RequestsCPU, Millicores), CurrentOfKind(group, LimitsCPU, Millicores),
              CurrentOfKind(group, RequestsMemory, MiB), CurrentOfKind(group, LimitsMemory, MiB))
  }

  const NO_WINDOWS := Windows(NO_WINDOW, NO_WINDOW, NO_WINDOW)

  /** The identity part of a profile comes from the labels of the first series of its group. */
  function NewProfile(key: Key, labels: Labels, policy: Policy): Profile {
    var workload := WorkloadFromLabels(labels, key.pod);
    Profile(key.namespace, workload.0, workload.1, key.pod, key.container,
            LanguageFor(policy.overrides, policy.defaultLanguage, key.namespace, workload.1, key.container),
            [], [], [], [], NO_WINDOWS, Resources(0, 0, 0, 0))
  }

  /** The profile of a group, before its usage windows are computed. */
  function GroupProfile(key: Key, group: seq<Event>, policy: Policy): Profile
    requires group != []
  {
    var cpu, memory := SamplesOf(group, CPU), SamplesOf(group, Memory);
    NewProfile(key, group[0].series.metric, policy).(
      cpuCores := Values(cpu), memoryBytes := Values(memory), cpuSamples := cpu, memorySamples := memory,
      current := CurrentResources(group))
  }

  function WithUsage(p: Profile): Profile {
    p.(usage := WindowsOf(p.cpuSamples, p.memorySamples))
  }

  /** The key has a targeted series with a usage sample, and its workload kind is allowed. */
  ghost predicate Selected(lists: Lists, target: Target, policy: Policy, key: Key) {
    var group := Group(AllEvents(lists), key, target);
    && group != []
    && (SamplesOf(group, CPU) != [] || SamplesOf(group, Memory) != [])
    && WorkloadKindMatches(GroupProfile(key, group, policy).workloadKind, target.workloadKinds)
  }

  /** The recommendation of a key: from the profile of its group, with the windows over its samples. */
  ghost function RecommendationOf(lists: Lists, target: Target, policy: Policy, key: Key): Recommendation
    requires Group(AllEvents(lists), key, target) != []
  {
    RecommendationFor(WithUsage(GroupProfile(key, Group(AllEvents(lists), key, target), policy)), policy)
  }

  // ----- order of keys -----

  predicate KeyLe(a: Key, b: Key) {
    if a.namespace != b.namespace then StrLe(a.namespace, b.namespace)
    else if a.pod != b.pod then StrLe(a.pod, b.pod)
    else StrLe(a.container, b.container)
  }

  lemma KeyLeTotal(a: Key, b: Key)
    ensures KeyLe(a, b) || KeyLe(b, a)
    ensures KeyLe(a, b) && KeyLe(b, a) ==> a == b
  {
    StrLeTotal(a.namespace, b.namespace);
    StrLeTotal(a.pod, b.pod);
    StrLeTotal(a.container, b.container);
    if KeyLe(a, b) && KeyLe(b, a) {
      if a.namespace != b.namespace {
        StrLeAntisymmetric(a.namespace, b.namespace);
      } else if a.pod != b.pod {
        StrLeAntisymmetric(a.pod, b.pod);
      } else {
        StrLeAntisymmetric(a.container, b.container);
      }
    }
  }

  lemma KeyLeTransitive(a: Key, b: Key, c: Key)
    requires KeyLe(a, b) && KeyLe(b, c)
    ensures KeyLe(a, c)
  {
    if a.namespace != b.namespace && b.namespace != c.namespace {
      StrLeTransitive(a.namespace, b.namespace, c.namespace);
      if a.namespace == c.namespace {
        StrLeAntisymmetric(a.namespace, b.namespace);
      }
    } else if a.namespace == b.namespace == c.namespace {
      if a.pod != b.pod && b.pod != c.pod {
        StrLeTransitive(a.pod, b.pod, c.pod);
        if a.pod == c.pod {
          StrLeAntisymmetric(a.pod, b.pod);
        }
      } else if a.pod == b.pod == c.pod {
        StrLeTransitive(a.container, b.container, c.container);
      }
    }
  }

  lemma KeyLePreorder()
    ensures Sorting.Preorder(KeyLe)
    ensures forall keys: seq<Key> :: Sorting.Separates(KeyLe, keys)
  {
    forall a: Key, b: Key ensures KeyLe(a, b) || KeyLe(b, a) ensures KeyLe(a, b) && KeyLe(b, a) ==> a == b {
      KeyLeTotal(a, b);
    }
    forall a: Key, b: Key, c: Key | KeyLe(a, b) && KeyLe(b, c) ensures KeyLe(a, c) {
      KeyLeTransitive(a, b, c);
    }
  }

  // ----- the result -----

  datatype Summary = Summary(containers: nat, namespaces: nat, workloads: nat, changes: nat,
                             cpuReduction: int, memoryReduction: int)

  datatype Analysis = Analysis(summary: Summary, recommendations: seq<Recommendation>)

  function RecKey(r: Recommendation): Key {
    Key(r.namespace, r.pod, r.container)
  }

  function RecWorkload(r: Recommendation): string {
    r.namespace + "/" + r.workloadKind + "/" + r.workloadName
  }

  predicate Changed(r: Recommendation) {
    r.current != r.recommended
  }

  function Reduction(current: int, recommended: int): int {
    if current - recommended > 0 then current - recommended else 0
  }

  function CountChanged(recs: seq<Recommendation>): nat {
    if recs == [] then 0 else CountChanged(recs[..|recs| - 1]) + if Changed(recs[|recs| - 1]) then 1 else 0
  }

  function CpuReduction(recs: seq<Recommendation>): int {
    if recs == [] then 0
    else
      var last := recs[|recs| - 1];
      CpuReduction(recs[..|recs| - 1]) + Reduction(last.current.cpuRequest, last.recommended.cpuRequest)
  }

  function MemoryReduction(recs: seq<Recommendation>): int {
    if recs == [] then 0
    else
      var last := recs[|recs| - 1];
      MemoryReduction(recs[..|recs| - 1]) + Reduction(last.current.memoryRequest, last.recommended.memoryRequest)
  }

  function Namespaces(recs: seq<Recommendation>): set<string> {
    set r | r in recs :: r.namespace
  }

  function Workloads(recs: seq<Recommendation>): set<string> {
    set r | r in recs :: RecWorkload(r)
  }

  /** Every figure of the summary is a fold over the recommendations. */
  function SummaryOf(recs: seq<Recommendation>): Summary {
    Summary(|recs|, |Namespaces(recs)|, |Workloads(recs)|, CountChanged(recs), CpuReduction(recs),
            MemoryReduction(recs))
  }

  /** `a` is the analysis of the lists: one recommendation for each selected key and for no other, strictly sorted by
      key, each made from the group of its key, with the summary folded over them. */
  ghost predicate Analyzes(a: Analysis, lists: Lists, target: Target, policy: Policy) {
    var recs := a.recommendations;
    && (forall i, j | 0 <= i < j < |recs| ::
        KeyLe(RecKey(recs[i]), RecKey(recs[j])) && RecKey(recs[i]) != RecKey(recs[j]))
    && (forall key :: Selected(lists, target, policy, key) <==> exists r :: r in recs && RecKey(r) == key)
    && (forall r | r in recs ::
          Group(AllEvents(lists), RecKey(r), target) != [] && r == RecommendationOf(lists, target, policy, RecKey(r)))
    && a.summary == SummaryOf(recs)
  }
}
