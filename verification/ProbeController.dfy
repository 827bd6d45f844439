/** The reconciler of a NetworkProbeLab (`Reconcile`, `runNetworkProbe`, the artifact writers and the cleanup,
    internal/controller/networkprobelab_controller.go and finalizers.go). A pass sees the cluster through API calls,
    some of which may fail; what a pass did before a failing call stays done. */
module ProbeController {
  import Text
  import Sorting
  import opened Sequences
  import opened ProbeTypes
  import opened ProbeChecks
  import opened ProbeJobs
  import CheckLaws
  import Finalizers
  import Names

  const FINALIZER := "networkprobelabs.lab.smtx.io/finalizer"

  datatype Phase = Unset | Running | Succeeded | Failed

  datatype StatusResult = StatusResult(sourcePod: string, sourcePodIP: string, sourceNode: string, targetPod: string,
                                       targetPodIP: string, targetNode: string, targetService: string,
                                       serviceIP: string, protocol: string, port: int, path: string, success: bool,
                                       error: string, p50: real, p95: real)

  datatype NodeResult = NodeResult(node: string, snapshotRef: string)

  datatype Status = Status(observedGeneration: int, phase: Phase, totalTests: int, succeeded: int, failed: int,
                           nodeResults: seq<NodeResult>, results: seq<StatusResult>, rawNames: seq<string>)

  /** A report is enabled if its configured ConfigMap name, possibly empty, is there. */
  datatype Spec = Spec(traffic: Traffic, excel: Option<string>, html: Option<string>, retainRaw: bool)

  datatype Lab = Lab(generation: int, finalizers: seq<string>, deleting: bool, spec: Spec, status: Status)

  datatype ConfigMap = ConfigMap(labHash: string, keys: set<string>)

  /** The traffic settings, the check list and the reports behind the status. */
  datatype Basis = Basis(traffic: Traffic, checks: seq<Check>, readings: seq<Reading>)

  /** The cluster as far as the lab is concerned. `basis` and `removed` are history: what the written status rests on,
      and which of the lab's ConfigMaps others took away since it was written. */
  datatype State = State(lab: Option<Lab>, store: Store, pods: seq<ProbePod>, configMaps: map<string, ConfigMap>,
                         basis: Basis, removed: set<string>)

  /** What the rest of the cluster answers during one pass: the targets, the nodes that return a snapshot, the pod
      behind a service, and which API calls fail. */
  datatype World = World(targets: Option<seq<Pod>>, services: Option<seq<Service>>, snapshots: Option<seq<string>>,
                         backend: (string, string) -> Option<Pod>, faultyJobs: set<string>,
                         faultyConfigMaps: set<string>, listJobsFails: bool, listConfigMapsFails: bool,
                         updateFails: bool, statusFails: bool)

  /** Kubernetes names contain no bar, and one listing shows one version of an object. */
  predicate Legible(w: World) {
    && (w.targets.Some? ==> CheckLaws.PodsLegible(w.targets.value))
    && (w.services.Some? ==> CheckLaws.ServicesLegible(w.services.value))
  }

  // ----- results -----

  function DefaultString(value: string, fallback: string): string {
    if value == "" then fallback else value
  }

  /** `probeResultFromReport`, and the pod behind a service where the probe saw no pod address. */
  function StatusOf(e: Env, w: World, item: Result): StatusResult {
    var r := StatusResult(DefaultString(item.sourcePod, "job/" + JobName(e, item.sourceNode)), item.sourceIP,
                          item.sourceNode, item.targetPod, item.targetIP, item.targetNode, item.targetService,
                          item.serviceIP, item.protocol, item.port, item.path, item.success, item.error, item.p50,
                          item.p95);
    if item.targetService == "" || r.targetPodIP != "" then r
    else
      match w.backend(item.targetService, item.sourceNode)
      case None => r
      case Some(pod) => r.(targetPod := pod.namespace + "/" + pod.name, targetPodIP := pod.ip, targetNode := pod.node)
  }

  function Items(): Reading -> seq<Result> {
    (reading: Reading) => reading.report.results
  }

  function AsStatus(e: Env, w: World): Result -> seq<StatusResult> {
    (item: Result) => [StatusOf(e, w, item)]
  }

  /** One status result for every result of every report, in order. */
  function ResultsOf(e: Env, w: World, readings: seq<Reading>): seq<StatusResult> {
    Bind(Bind(readings, Items()), AsStatus(e, w))
  }

  function Successes(results: seq<StatusResult>): (n: nat)
    ensures n <= |results|
  {
    if results == [] then 0 else Successes(results[..|results| - 1]) + if results[|results| - 1].success then 1 else 0
  }

  lemma OneMoreResult(results: seq<StatusResult>, r: StatusResult)
    ensures Successes(results + [r]) == Successes(results) + if r.success then 1 else 0
  {
    assert (results + [r])[..|results|] == results;
  }

  /** The fold over the items of one report. */
  method FoldItems(e: Env, w: World, items: seq<Result>, before: seq<StatusResult>, wins: int, losses: int)
    returns (results: seq<StatusResult>, succeeded: int, failed: int)
    requires wins == Successes(before) && wins + losses == |before|
    ensures results == before + Bind(items, AsStatus(e, w))
    ensures succeeded == Successes(results) && succeeded + failed == |results|
  {
    hide Bind, StatusOf, Successes;
    results, succeeded, failed := before, wins, losses;
    BindAll(items, AsStatus(e, w));
    assert before + [] == before;
    for i := 0 to |items|
      invariant results == before + Bind(items[..i], AsStatus(e, w))
      invariant succeeded == Successes(results) && succeeded + failed == |results|
    {
      BindTake(items, i, AsStatus(e, w));
      var r := StatusOf(e, w, items[i]);
      Sorting.Associative(before, Bind(items[..i], AsStatus(e, w)), [r]);
      OneMoreResult(results, r);
      results := results + [r];
      if r.success {
        succeeded := succeeded + 1;
      } else {
        failed := failed + 1;
      }
    }
  }

  method FoldReports(e: Env, w: World, readings: seq<Reading>)
    returns (results: seq<StatusResult>, succeeded: int, failed: int)
    ensures results == ResultsOf(e, w, readings)
    ensures succeeded == Successes(results) && succeeded + failed == |results|
  {
    hide Bind, AsStatus;
    results, succeeded, failed := [], 0, 0;
    BindAll(readings, Items());
    BindAll([], AsStatus(e, w));
    for i := 0 to |readings|
      invariant results == Bind(Bind(readings[..i], Items()), AsStatus(e, w))
      invariant succeeded == Successes(results) && succeeded + failed == |results|
    {
      BindTake(readings, i, Items());
      BindConcat(Bind(readings[..i], Items()), readings[i].report.results, AsStatus(e, w));
      results, succeeded, failed := FoldItems(e, w, readings[i].report.results, results, succeeded, failed);
    }
  }

  // ----- artifacts -----

  const SNAPSHOT_KEY := "snapshot.json.gz"
  const EXCEL_KEY := "network-probe-results.xlsx"
  const HTML_KEY := "network-probe-results.html"

  /** Creates the ConfigMap, or adds the key and the label to the one that is there. */
  function Put(configMaps: map<string, ConfigMap>, name: string, labHash: string, key: string): map<string, ConfigMap> {
    configMaps[name := ConfigMap(labHash, (if name in configMaps then configMaps[name].keys else {}) + {key})]
  }

  datatype Written = Written(configMaps: map<string, ConfigMap>, failed: bool)

  function SnapshotName(e: Env): string -> string {
    (node: string) => Names.SnapshotConfigMapName(e.lab, node, e.short)
  }

  function MapAll<A, B>(xs: seq<A>, f: A -> B): (r: seq<B>)
    ensures |r| == |xs|
  {
    seq(|xs|, i requires 0 <= i < |xs| => f(xs[i]))
  }

  /** `writeRawSnapshotConfigMaps`: it stops at the first write that fails. */
  function WriteSnapshots(e: Env, w: World, configMaps: map<string, ConfigMap>, nodes: seq<string>): Written {
    if nodes == [] then Written(configMaps, false)
    else
      var before := WriteSnapshots(e, w, configMaps, nodes[..|nodes| - 1]);
      var name := SnapshotName(e)(nodes[|nodes| - 1]);
      if before.failed then before
      else if name in w.faultyConfigMaps then before.(failed := true)
      else Written(Put(before.configMaps, name, LabLabel(e), SNAPSHOT_KEY), false)
  }

  function ExcelName(e: Env, configured: string): string {
    if configured != "" then configured else e.lab + "-network-report"
  }

  function HTMLName(e: Env, configured: string): string {
    if configured != "" then configured else e.lab + "-network-html-report"
  }

  predicate NodeResultLe(a: NodeResult, b: NodeResult) {
    Text.StrLe(a.node, b.node)
  }

  lemma NodeResultLePreorder()
    ensures Sorting.Preorder(NodeResultLe)
  {
    forall a: NodeResult, b: NodeResult ensures NodeResultLe(a, b) || NodeResultLe(b, a) {
      Text.StrLeTotal(a.node, b.node);
    }
    forall a: NodeResult, b: NodeResult, c: NodeResult | NodeResultLe(a, b) && NodeResultLe(b, c)
      ensures NodeResultLe(a, c)
    {
      Text.StrLeTransitive(a.node, b.node, c.node);
    }
  }

  function NodeResultFor(e: Env, retainRaw: bool): string -> NodeResult {
    (node: string) => NodeResult(node, if retainRaw then SnapshotName(e)(node) else "")
  }

  // ----- one run -----

  datatype Run = Run(pending: bool, totalTests: int, succeeded: int, failed: int,
                     nodeResults: seq<NodeResult>, results: seq<StatusResult>, rawNames: seq<string>)

  /** What a run leaves behind, whether it ended in an error, and what its results are based on. */
  datatype Outcome = Outcome(store: Store, configMaps: map<string, ConfigMap>, run: Run, failed: bool, basis: Basis)

  const EMPTY_RUN := Run(false, 0, 0, 0, [], [], [])

  const NO_BASIS := Basis(Traffic([], [], false, false, false, false, 0, 0), [], [])

  /** The run with the results of the reports in it. */
  function Filled(e: Env, spec: Spec, w: World, total: int, readings: seq<Reading>, snapshots: seq<string>): Run {
    var results := ResultsOf(e, w, readings);
    Run(false, total, Successes(results), |results| - Successes(results),
        Sorting.Sort(MapAll(snapshots, NodeResultFor(e, spec.retainRaw)), NodeResultLe), results,
        if spec.retainRaw then Sorting.Sort(MapAll(snapshots, SnapshotName(e)), Text.StringLe) else [])
  }

  /** The reports: Excel before HTML. */
  function WriteReports(e: Env, spec: Spec, w: World, configMaps: map<string, ConfigMap>): Written {
    var excel :=
      if spec.excel.None? then Written(configMaps, false)
      else if ExcelName(e, spec.excel.value) in w.faultyConfigMaps then Written(configMaps, true)
      else Written(Put(configMaps, ExcelName(e, spec.excel.value), LabLabel(e), EXCEL_KEY), false);
    if excel.failed || spec.html.None? then excel
    else if HTMLName(e, spec.html.value) in w.faultyConfigMaps then excel.(failed := true)
    else Written(Put(excel.configMaps, HTMLName(e, spec.html.value), LabLabel(e), HTML_KEY), false)
  }

  /** What happens once all reports are there. */
  function Complete(e: Env, spec: Spec, w: World, store: Store, configMaps: map<string, ConfigMap>,
          checks: seq<Check>, readings: seq<Reading>): Outcome {
    var start := EMPTY_RUN.(totalTests := |checks|);
    if w.snapshots.None? then Outcome(store, configMaps, start, true, NO_BASIS)
    else
      var raw :=
        if spec.retainRaw then WriteSnapshots(e, w, configMaps, w.snapshots.value) else Written(configMaps, false);
      if raw.failed then Outcome(store, raw.configMaps, start, true, NO_BASIS)
      else
        var reports := WriteReports(e, spec, w, raw.configMaps);
        Outcome(store, reports.configMaps, Filled(e, spec, w, |checks|, readings, w.snapshots.value), reports.failed,
                Basis(spec.traffic, checks, readings))
  }

  /** `runNetworkProbe` */
  ghost function RunOf(e: Env, lab: Lab, w: World, s: State): Outcome {
    if w.targets.None? || w.services.None? || w.targets.value == []
    then Outcome(s.store, s.configMaps, EMPTY_RUN, true, NO_BASIS)
    else
      var checks := BuiltChecks(lab.spec.traffic, w.targets.value, w.services.value, e.id);
      if checks == [] then Outcome(s.store, s.configMaps, EMPTY_RUN, true, NO_BASIS)
      else
        var after := PassOver(e, Pass(lab.generation, lab.spec.traffic, checks, s.pods, w.faultyJobs), s.store);
        if after.failed || after.pending
        then Outcome(after.store, s.configMaps, EMPTY_RUN.(totalTests := |checks|, pending := after.pending),
                     after.failed, NO_BASIS)
        else Complete(e, lab.spec, w, after.store, s.configMaps, checks, after.readings)
  }

  function StatusAfter(generation: int, run: Run, failed: bool): Status {
    var phase :=
      if failed then Failed else if run.pending then Running else if run.failed > 0 then Failed else Succeeded;
    Status(generation, phase, run.totalTests, run.succeeded, run.failed, run.nodeResults, run.results, run.rawNames)
  }

  // ----- cleanup -----

  function LabelledJobs(e: Env, jobs: map<string, Job>): set<string> {
    set name | name in jobs && jobs[name].labHash == LabLabel(e)
  }

  function LabelledConfigMaps(e: Env, configMaps: map<string, ConfigMap>): set<string> {
    set name | name in configMaps && configMaps[name].labHash == LabLabel(e)
  }

  datatype Cleaned<T> = Cleaned(objects: map<string, T>, failed: bool)

  /** Deletes jobs in order until a call fails. */
  function DeleteJobs(jobs: map<string, Job>, names: seq<string>, faulty: set<string>): Cleaned<Job> {
    if names == [] then Cleaned(jobs, false)
    else
      var before, name := DeleteJobs(jobs, names[..|names| - 1], faulty), names[|names| - 1];
      if before.failed then before
      else if name in faulty then before.(failed := true)
      else if name !in before.objects then before
      else Cleaned(before.objects[name := before.objects[name].(deleting := true)], false)
  }

  function DeleteConfigMaps(configMaps: map<string, ConfigMap>, names: seq<string>,
          faulty: set<string>): Cleaned<ConfigMap> {
    if names == [] then Cleaned(configMaps, false)
    else
      var before, name := DeleteConfigMaps(configMaps, names[..|names| - 1], faulty), names[|names| - 1];
      if before.failed then before
      else if name in faulty then before.(failed := true)
      else Cleaned(before.objects - {name}, false)
  }

  ghost function CleanJobs(e: Env, w: World, jobs: map<string, Job>): Cleaned<Job> {
    if w.listJobsFails then Cleaned(jobs, true)
    else DeleteJobs(jobs, SortedSet(LabelledJobs(e, jobs), Text.StringLe), w.faultyJobs)
  }

  ghost function CleanConfigMaps(e: Env, w: World, configMaps: map<string, ConfigMap>): Cleaned<ConfigMap> {
    if w.listConfigMapsFails then Cleaned(configMaps, true)
    else DeleteConfigMaps(configMaps, SortedSet(LabelledConfigMaps(e, configMaps), Text.StringLe), w.faultyConfigMaps)
  }

  // ----- one pass -----

  /** The API server removes a deleted object with its last finalizer. */
  function Stored(lab: Lab): Option<Lab> {
    if lab.deleting && lab.finalizers == [] then None else Some(lab)
  }

  ghost function Finalize(e: Env, w: World, lab: Lab, s: State): State {
    var jobs := CleanJobs(e, w, s.store.jobs);
    var cleaned := s.(store := s.store.(jobs := jobs.objects));
    if jobs.failed then cleaned
    else
      var configMaps := CleanConfigMaps(e, w, s.configMaps);
      var all := cleaned.(configMaps := configMaps.objects);
      if configMaps.failed || w.updateFails then all
      else all.(lab := Stored(lab.(finalizers := Finalizers.Without(lab.finalizers, FINALIZER))))
  }

  ghost function Probed(e: Env, w: World, lab: Lab, s: State): State {
    var o := RunOf(e, lab, w, s);
    var after := s.(store := o.store, configMaps := o.configMaps);
    if w.statusFails then after
    else after.(lab := Some(lab.(status := StatusAfter(lab.generation, o.run, o.failed))), basis := o.basis,
                removed := {})
  }

  /** `Reconcile` */
  ghost function Reconciled(e: Env, w: World, s: State): State {
    if s.lab.None? then s
    else
      var lab := s.lab.value;
      if lab.deleting then if FINALIZER in lab.finalizers then Finalize(e, w, lab, s) else s
      else if FINALIZER !in lab.finalizers then
        if w.updateFails then s else s.(lab := Some(lab.(finalizers := lab.finalizers + [FINALIZER])))
      else Probed(e, w, lab, s)
  }
}
