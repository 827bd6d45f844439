/** What the reconciler writes: the report and snapshot ConfigMaps of a run
    (internal/controller/networkprobelab_controller.go). */
module ProbeArtifacts {
  import Names
  import Text
  import opened Sorting
  import opened ProbeTypes
  import ProbeChecks
  import opened ProbeJobs
  import opened ProbeController

  /** The ConfigMap is there with the lab's label, and the key is in it. */
  predicate Has(e: Env, configMaps: map<string, ConfigMap>, name: string, key: string) {
    name in configMaps && configMaps[name].labHash == LabLabel(e) && key in configMaps[name].keys
  }

  /** Nothing is taken away and no key is lost, what others own is touched only under the given names, and what is
      touched carries the lab's label. */
  ghost predicate Adds(e: Env, before: map<string, ConfigMap>, after: map<string, ConfigMap>, names: set<string>) {
    && (forall name | name in before :: name in after && before[name].keys <= after[name].keys)
    && (forall name | name in after && name !in names :: name in before && after[name] == before[name])
    && (forall name | name in after ::
        after[name].labHash == LabLabel(e) || (name in before && after[name] == before[name]))
  }

  lemma AddsNothing(e: Env, configMaps: map<string, ConfigMap>, names: set<string>)
    ensures Adds(e, configMaps, configMaps, names)
  {
  }

  lemma AddsTrans(e: Env, a: map<string, ConfigMap>, b: map<string, ConfigMap>, c: map<string, ConfigMap>,
          names: set<string>)
    requires Adds(e, a, b, names) && Adds(e, b, c, names)
    ensures Adds(e, a, c, names)
  {
  }

  lemma PutAdds(e: Env, configMaps: map<string, ConfigMap>, name: string, key: string, names: set<string>)
    requires name in names
    ensures var after := Put(configMaps, name, LabLabel(e), key);
            Adds(e, configMaps, after, names) && Has(e, after, name, key)
  {
    hide LabLabel;
  }

  /** What the lab has stays the lab's. */
  lemma HasLater(e: Env, before: map<string, ConfigMap>, after: map<string, ConfigMap>, names: set<string>,
          name: string, key: string)
    requires Adds(e, before, after, names) && Has(e, before, name, key)
    ensures Has(e, after, name, key)
  {
    hide LabLabel;
  }

  /** Writing what is there changes nothing. */
  lemma PutAgain(e: Env, configMaps: map<string, ConfigMap>, name: string, key: string)
    requires Has(e, configMaps, name, key)
    ensures Put(configMaps, name, LabLabel(e), key) == configMaps
  {
    hide LabLabel;
    var existing := configMaps[name];
    assert existing.keys + {key} == existing.keys;
    assert ConfigMap(LabLabel(e), existing.keys + {key}) == existing;
  }

  // ----- snapshots -----

  function SnapshotNames(e: Env, nodes: seq<string>): set<string> {
    set node | node in nodes :: SnapshotName(e)(node)
  }

  ghost predicate SomeFaulty(e: Env, w: World, nodes: seq<string>) {
    exists k :: 0 <= k < |nodes| && SnapshotName(e)(nodes[k]) in w.faultyConfigMaps
  }

  /** No write up to the i-th fails. */
  ghost predicate WritesUpTo(e: Env, w: World, nodes: seq<string>, i: int)
    requires i < |nodes|
  {
    forall k | 0 <= k <= i :: SnapshotName(e)(nodes[k]) !in w.faultyConfigMaps
  }

  lemma OneMoreSnapshot(e: Env, w: World, front: seq<string>, last: string)
    ensures SomeFaulty(e, w, front + [last]) <==> SomeFaulty(e, w, front) || SnapshotName(e)(last) in w.faultyConfigMaps
    ensures SnapshotNames(e, front + [last]) == SnapshotNames(e, front) + {SnapshotName(e)(last)}
    ensures forall i | 0 <= i < |front| :: WritesUpTo(e, w, front + [last], i) <==> WritesUpTo(e, w, front, i)
    ensures WritesUpTo(e, w, front + [last], |front|) <==> !SomeFaulty(e, w, front + [last])
  {
    hide SnapshotName;
    var nodes := front + [last];
    assert forall k | 0 <= k < |front| :: nodes[k] == front[k];
    assert nodes[|front|] == last;
  }

  /** The snapshots are written in order, each under its name, until the first write that fails; a write fails exactly
      if its API call does. */
  lemma {:induction false} SnapshotsWritten(e: Env, w: World, configMaps: map<string, ConfigMap>, nodes: seq<string>)
    ensures var r := WriteSnapshots(e, w, configMaps, nodes);
            && (r.failed <==> SomeFaulty(e, w, nodes))
            && Adds(e, configMaps, r.configMaps, SnapshotNames(e, nodes))
            && (forall i | 0 <= i < |nodes| && WritesUpTo(e, w, nodes, i) ::
                Has(e, r.configMaps, SnapshotName(e)(nodes[i]), SNAPSHOT_KEY))
  {
    hide SnapshotName, Adds, Has, Put, SomeFaulty, WritesUpTo, SnapshotNames;
    if nodes == [] {
      AddsNothing(e, configMaps, SnapshotNames(e, nodes));
      NoneFaulty(e, w, nodes);
    } else {
      var front, last := nodes[..|nodes| - 1], nodes[|nodes| - 1];
      assert nodes == front + [last];
      SnapshotsWritten(e, w, configMaps, front);
      OneMoreSnapshot(e, w, front, last);
      var r := WriteSnapshots(e, w, configMaps, front);
      AddsMore(e, configMaps, r.configMaps, SnapshotNames(e, front), SnapshotNames(e, nodes));
      if !r.failed && SnapshotName(e)(last) !in w.faultyConfigMaps {
        OneMoreWritten(e, w, configMaps, front, last);
      }
    }
  }

  lemma NoneFaulty(e: Env, w: World, nodes: seq<string>)
    requires nodes == []
    ensures !SomeFaulty(e, w, nodes)
  {
  }

  lemma OneMoreWritten(e: Env, w: World, configMaps: map<string, ConfigMap>, front: seq<string>, last: string)
    requires var r := WriteSnapshots(e, w, configMaps, front);
             && Adds(e, configMaps, r.configMaps, SnapshotNames(e, front + [last]))
             && (forall i | 0 <= i < |front| && WritesUpTo(e, w, front, i) ::
                 Has(e, r.configMaps, SnapshotName(e)(front[i]), SNAPSHOT_KEY))
    requires SnapshotName(e)(last) in SnapshotNames(e, front + [last])
    ensures var after :=
            Put(WriteSnapshots(e, w, configMaps, front).configMaps, SnapshotName(e)(last), LabLabel(e), SNAPSHOT_KEY);
            && Adds(e, configMaps, after, SnapshotNames(e, front + [last]))
            && Has(e, after, SnapshotName(e)(last), SNAPSHOT_KEY)
            && (forall i | 0 <= i < |front| && WritesUpTo(e, w, front, i) ::
                Has(e, after, SnapshotName(e)(front[i]), SNAPSHOT_KEY))
  {
    hide SnapshotName, Adds, Has, Put, WritesUpTo, SnapshotNames, WriteSnapshots;
    var r, names, name := WriteSnapshots(e, w, configMaps, front), SnapshotNames(e, front + [last]),
      SnapshotName(e)(last);
    var after := Put(r.configMaps, name, LabLabel(e), SNAPSHOT_KEY);
    PutAdds(e, r.configMaps, name, SNAPSHOT_KEY, names);
    AddsTrans(e, configMaps, r.configMaps, after, names);
    forall i | 0 <= i < |front| && WritesUpTo(e, w, front, i)
      ensures Has(e, after, SnapshotName(e)(front[i]), SNAPSHOT_KEY)
    {
      HasLater(e, r.configMaps, after, names, SnapshotName(e)(front[i]), SNAPSHOT_KEY);
    }
  }

  /** If no write fails, every snapshot is there. */
  lemma AllSnapshotsWritten(e: Env, w: World, configMaps: map<string, ConfigMap>, nodes: seq<string>)
    requires !WriteSnapshots(e, w, configMaps, nodes).failed
    ensures forall node | node in nodes ::
              Has(e, WriteSnapshots(e, w, configMaps, nodes).configMaps, SnapshotName(e)(node), SNAPSHOT_KEY)
  {
    hide SnapshotName, Has, Adds, WriteSnapshots, SnapshotNames;
    SnapshotsWritten(e, w, configMaps, nodes);
    forall node | node in nodes
      ensures Has(e, WriteSnapshots(e, w, configMaps, nodes).configMaps, SnapshotName(e)(node), SNAPSHOT_KEY)
    {
      var i :| 0 <= i < |nodes| && nodes[i] == node;
      assert WritesUpTo(e, w, nodes, i);
    }
  }

  lemma AddsMore(e: Env, before: map<string, ConfigMap>, after: map<string, ConfigMap>, names: set<string>,
          more: set<string>)
    requires Adds(e, before, after, names) && names <= more
    ensures Adds(e, before, after, more)
  {
  }

  // ----- reports -----

  /** The names under which the enabled reports are written. */
  function ReportNames(e: Env, spec: Spec): set<string> {
    (if spec.excel.Some? then {ExcelName(e, spec.excel.value)} else {})
    + if spec.html.Some? then {HTMLName(e, spec.html.value)} else {}
  }

  /** A report has its configured name, or one made from the name of the lab. */
  lemma ReportNamesExactly(e: Env, configured: string)
    ensures configured != "" ==> ExcelName(e, configured) == HTMLName(e, configured) == configured
    ensures configured == "" ==> ExcelName(e, configured) == e.lab + "-network-report"
    ensures configured == "" ==> HTMLName(e, configured) == e.lab + "-network-html-report"
  {
  }

  /** Jobs and snapshots are named after the lab and the digest of their node. */
  lemma NodeObjectNamesExactly(e: Env, node: string)
    requires Names.ShortHex(e.short)
    ensures |Names.Sanitized(e.lab)| <= 48 ==>
              JobName(e, node) == "npl-" + Names.Sanitized(e.lab) + "-" + e.short(node)
    ensures |Names.Sanitized(e.lab)| <= 39 ==>
              SnapshotName(e)(node) == "npl-snapshot-" + Names.Sanitized(e.lab) + "-" + e.short(node)
  {
    Names.GeneratedNamesExactly(e.lab, node, e.short);
  }

  predicate HasReports(e: Env, spec: Spec, configMaps: map<string, ConfigMap>) {
    && (spec.excel.Some? ==> Has(e, configMaps, ExcelName(e, spec.excel.value), EXCEL_KEY))
    && (spec.html.Some? ==> Has(e, configMaps, HTMLName(e, spec.html.value), HTML_KEY))
  }

  /** Writing the reports fails exactly if the API call for an enabled one does; otherwise each enabled report is a key
      of a ConfigMap with the lab's label. The Excel report is there even if the HTML report fails. */
  lemma ReportsWritten(e: Env, spec: Spec, w: World, configMaps: map<string, ConfigMap>)
    ensures var r := WriteReports(e, spec, w, configMaps);
            && (r.failed <==> ReportNames(e, spec) * w.faultyConfigMaps != {})
            && Adds(e, configMaps, r.configMaps, ReportNames(e, spec))
            && (!r.failed ==> HasReports(e, spec, r.configMaps))
            && (spec.excel.Some? && ExcelName(e, spec.excel.value) !in w.faultyConfigMaps ==>
                  Has(e, r.configMaps, ExcelName(e, spec.excel.value), EXCEL_KEY))
  {
    hide ExcelName, HTMLName, Adds, Has, Put, LabLabel;
    var names := ReportNames(e, spec);
    AddsNothing(e, configMaps, names);
    var between := configMaps;
    if spec.excel.Some? {
      var excel := ExcelName(e, spec.excel.value);
      assert excel in names;
      if excel in w.faultyConfigMaps {
        assert excel in names * w.faultyConfigMaps;
        return;
      }
      PutAdds(e, configMaps, excel, EXCEL_KEY, names);
      between := Put(configMaps, excel, LabLabel(e), EXCEL_KEY);
    }
    if spec.html.Some? {
      var html := HTMLName(e, spec.html.value);
      assert html in names;
      if html in w.faultyConfigMaps {
        assert html in names * w.faultyConfigMaps;
        return;
      }
      PutAdds(e, between, html, HTML_KEY, names);
      var after := Put(between, html, LabLabel(e), HTML_KEY);
      AddsTrans(e, configMaps, between, after, names);
      if spec.excel.Some? {
        HasLater(e, between, after, names, ExcelName(e, spec.excel.value), EXCEL_KEY);
      }
    }
    assert names * w.faultyConfigMaps == {};
  }

  // ----- a run -----

  /** Everything a run may write. */
  function ArtifactNames(e: Env, spec: Spec, w: World): set<string> {
    ReportNames(e, spec) + if spec.retainRaw && w.snapshots.Some? then SnapshotNames(e, w.snapshots.value) else {}
  }

  predicate HasSnapshots(e: Env, spec: Spec, w: World, configMaps: map<string, ConfigMap>) {
    spec.retainRaw && w.snapshots.Some? ==>
      forall node | node in w.snapshots.value :: Has(e, configMaps, SnapshotName(e)(node), SNAPSHOT_KEY)
  }

  /** A run with its results in has written its snapshots, and its reports too unless it failed. */
  lemma CompleteWrites(e: Env, spec: Spec, w: World, store: Store, configMaps: map<string, ConfigMap>,
          checks: seq<Check>, readings: seq<Reading>)
    requires checks != []
    ensures var o := Complete(e, spec, w, store, configMaps, checks, readings);
            && Adds(e, configMaps, o.configMaps, ArtifactNames(e, spec, w))
            && (o.basis.checks != [] ==> HasSnapshots(e, spec, w, o.configMaps))
            && (!o.failed ==> HasReports(e, spec, o.configMaps))
            && (o.failed <==> w.snapshots.None? || ArtifactNames(e, spec, w) * w.faultyConfigMaps != {})
  {
    hide Adds, Has, WriteSnapshots, WriteReports, Filled, SnapshotName, ReportNames, HasReports, SomeFaulty, WritesUpTo;
    var names := ArtifactNames(e, spec, w);
    AddsNothing(e, configMaps, names);
    if w.snapshots.Some? {
      var nodes := w.snapshots.value;
      var raw := if spec.retainRaw then WriteSnapshots(e, w, configMaps, nodes) else Written(configMaps, false);
      if spec.retainRaw {
        SnapshotsWritten(e, w, configMaps, nodes);
        AddsMore(e, configMaps, raw.configMaps, SnapshotNames(e, nodes), names);
        FaultySnapshot(e, w, nodes);
      }
      if !raw.failed {
        if spec.retainRaw {
          AllSnapshotsWritten(e, w, configMaps, nodes);
        }
        var reports := WriteReports(e, spec, w, raw.configMaps);
        ReportsWritten(e, spec, w, raw.configMaps);
        AddsMore(e, raw.configMaps, reports.configMaps, ReportNames(e, spec), names);
        AddsTrans(e, configMaps, raw.configMaps, reports.configMaps, names);
        if spec.retainRaw {
          forall node | node in nodes ensures Has(e, reports.configMaps, SnapshotName(e)(node), SNAPSHOT_KEY) {
            HasLater(e, raw.configMaps, reports.configMaps, names, SnapshotName(e)(node), SNAPSHOT_KEY);
          }
        }
      }
    }
  }

  lemma FaultySnapshot(e: Env, w: World, nodes: seq<string>)
    ensures SomeFaulty(e, w, nodes) <==> SnapshotNames(e, nodes) * w.faultyConfigMaps != {}
  {
    hide SnapshotName;
    if k :| 0 <= k < |nodes| && SnapshotName(e)(nodes[k]) in w.faultyConfigMaps {
      assert nodes[k] in nodes;
      assert SnapshotName(e)(nodes[k]) in SnapshotNames(e, nodes) * w.faultyConfigMaps;
    }
    if SnapshotNames(e, nodes) * w.faultyConfigMaps != {} {
      var name :| name in SnapshotNames(e, nodes) * w.faultyConfigMaps;
      var node :| node in nodes && SnapshotName(e)(node) == name;
      var k :| 0 <= k < |nodes| && nodes[k] == node;
      assert SnapshotName(e)(nodes[k]) in w.faultyConfigMaps;
    }
  }

  /** The ConfigMaps a status refers to. */
  function NamedBy(st: Status): set<string> {
    (set name | name in st.rawNames) + set r | r in st.nodeResults && r.snapshotRef != "" :: r.snapshotRef
  }

  predicate AllLabelled(e: Env, configMaps: map<string, ConfigMap>, names: set<string>) {
    forall name | name in names :: name in configMaps && configMaps[name].labHash == LabLabel(e)
  }

  lemma SortedRefs(e: Env, nodes: seq<string>, retainRaw: bool)
    ensures forall r | r in Sort(MapAll(nodes, NodeResultFor(e, retainRaw)), NodeResultLe) && r.snapshotRef != "" ::
              retainRaw && r.snapshotRef in SnapshotNames(e, nodes)
  {
    hide SnapshotName, Sort;
    var results := MapAll(nodes, NodeResultFor(e, retainRaw));
    SortContents(results, NodeResultLe);
    SameMembers(Sort(results, NodeResultLe), results);
    forall r | r in results && r.snapshotRef != "" ensures retainRaw && r.snapshotRef in SnapshotNames(e, nodes) {
      var i :| 0 <= i < |results| && results[i] == r;
      assert nodes[i] in nodes;
    }
  }

  lemma SortedNames(e: Env, nodes: seq<string>)
    ensures forall name | name in Sort(MapAll(nodes, SnapshotName(e)), Text.StringLe) :: name in SnapshotNames(e, nodes)
  {
    hide SnapshotName, Sort;
    var names := MapAll(nodes, SnapshotName(e));
    SortContents(names, Text.StringLe);
    SameMembers(Sort(names, Text.StringLe), names);
    forall name | name in names ensures name in SnapshotNames(e, nodes) {
      var i :| 0 <= i < |names| && names[i] == name;
      assert nodes[i] in nodes;
    }
  }

  lemma FilledNames(e: Env, spec: Spec, w: World, total: int, readings: seq<Reading>, nodes: seq<string>,
          generation: int, failed: bool)
    ensures NamedBy(StatusAfter(generation, Filled(e, spec, w, total, readings, nodes), failed))
         <= if spec.retainRaw then SnapshotNames(e, nodes) else {}
  {
    hide SnapshotName, ResultsOf, Successes, Sort, MapAll, NodeResultFor, SnapshotNames;
    SortedRefs(e, nodes, spec.retainRaw);
    SortedNames(e, nodes);
  }

  /** The status of a run refers only to ConfigMaps that the run has written with the lab's label. */
  lemma CompleteNames(e: Env, lab: Lab, w: World, store: Store, configMaps: map<string, ConfigMap>, checks: seq<Check>,
          readings: seq<Reading>)
    requires checks != []
    ensures var o := Complete(e, lab.spec, w, store, configMaps, checks, readings);
            AllLabelled(e, o.configMaps, NamedBy(StatusAfter(lab.generation, o.run, o.failed)))
  {
    hide Adds, HasReports, WriteSnapshots, WriteReports, Filled, SnapshotName, NamedBy;
    var o := Complete(e, lab.spec, w, store, configMaps, checks, readings);
    CompleteWrites(e, lab.spec, w, store, configMaps, checks, readings);
    if o.basis.checks != [] {
      FilledNames(e, lab.spec, w, |checks|, readings, w.snapshots.value, lab.generation, o.failed);
    } else {
      BlankNames(StatusAfter(lab.generation, o.run, o.failed));
    }
  }

  lemma BlankNames(st: Status)
    requires st.rawNames == [] && st.nodeResults == []
    ensures NamedBy(st) == {}
  {
  }

  /** A run only adds ConfigMaps under its own names; once its results are in, its snapshots are there, and its reports
      too unless it failed; its status refers only to what is there; and a run without results writes nothing. */
  lemma RunWrites(e: Env, lab: Lab, w: World, s: State)
    ensures var o := RunOf(e, lab, w, s);
            && Adds(e, s.configMaps, o.configMaps, ArtifactNames(e, lab.spec, w))
            && AllLabelled(e, o.configMaps, NamedBy(StatusAfter(lab.generation, o.run, o.failed)))
            && (o.basis.checks != [] ==> HasSnapshots(e, lab.spec, w, o.configMaps))
            && (o.basis.checks != [] && !o.failed ==> HasReports(e, lab.spec, o.configMaps))
            && (o.run.pending ==> o.configMaps == s.configMaps)
  {
    hide Adds, AllLabelled, NamedBy, HasSnapshots, HasReports, ArtifactNames, ProbeChecks.BuiltChecks, PassOver,
         Complete;
    var o := RunOf(e, lab, w, s);
    AddsNothing(e, s.configMaps, ArtifactNames(e, lab.spec, w));
    if w.targets.Some? && w.services.Some? && w.targets.value != [] {
      var checks := ProbeChecks.BuiltChecks(lab.spec.traffic, w.targets.value, w.services.value, e.id);
      if checks != [] {
        var after := PassOver(e, ProbeJobs.Pass(lab.generation, lab.spec.traffic, checks, s.pods, w.faultyJobs),
                              s.store);
        if !after.failed && !after.pending {
          CompleteWrites(e, lab.spec, w, after.store, s.configMaps, checks, after.readings);
          CompleteNames(e, lab, w, after.store, s.configMaps, checks, after.readings);
          CompleteNotPending(e, lab.spec, w, after.store, s.configMaps, checks, after.readings);
          return;
        }
      }
    }
    BlankNames(StatusAfter(lab.generation, o.run, o.failed));
    assert AllLabelled(e, o.configMaps, {}) by { NothingLabelled(e, o.configMaps); }
  }

  lemma NothingLabelled(e: Env, configMaps: map<string, ConfigMap>)
    ensures AllLabelled(e, configMaps, {})
  {
  }

  lemma CompleteNotPending(e: Env, spec: Spec, w: World, store: Store, configMaps: map<string, ConfigMap>,
          checks: seq<Check>, readings: seq<Reading>)
    ensures !Complete(e, spec, w, store, configMaps, checks, readings).run.pending
    ensures Complete(e, spec, w, store, configMaps, checks, readings).store == store
  {
    hide WriteSnapshots, WriteReports, ResultsOf, Sort;
  }

  // ----- writing again -----

  lemma {:induction false} SnapshotsAgain(e: Env, w: World, configMaps: map<string, ConfigMap>, nodes: seq<string>)
    requires forall i | 0 <= i < |nodes| && WritesUpTo(e, w, nodes, i) ::
               Has(e, configMaps, SnapshotName(e)(nodes[i]), SNAPSHOT_KEY)
    ensures WriteSnapshots(e, w, configMaps, nodes).configMaps == configMaps
  {
    hide SnapshotName, Has, Put, WritesUpTo, SomeFaulty, SnapshotNames;
    if nodes != [] {
      var front, last := nodes[..|nodes| - 1], nodes[|nodes| - 1];
      OneMoreSnapshot(e, w, front, last);
      assert nodes == front + [last];
      SnapshotsAgain(e, w, configMaps, front);
      SnapshotsWritten(e, w, configMaps, front);
      if !WriteSnapshots(e, w, configMaps, front).failed && SnapshotName(e)(last) !in w.faultyConfigMaps {
        assert WritesUpTo(e, w, nodes, |front|);
        assert Has(e, configMaps, SnapshotName(e)(nodes[|front|]), SNAPSHOT_KEY);
        PutAgain(e, configMaps, SnapshotName(e)(last), SNAPSHOT_KEY);
      }
    }
  }

  lemma ReportsAgain(e: Env, spec: Spec, w: World, configMaps: map<string, ConfigMap>)
    requires spec.excel.Some? && ExcelName(e, spec.excel.value) !in w.faultyConfigMaps ==>
               Has(e, configMaps, ExcelName(e, spec.excel.value), EXCEL_KEY)
    requires ReportNames(e, spec) * w.faultyConfigMaps == {} ==> HasReports(e, spec, configMaps)
    ensures WriteReports(e, spec, w, configMaps).configMaps == configMaps
  {
    hide ExcelName, HTMLName, Has, Put;
    ReportsWritten(e, spec, w, configMaps);
    if spec.excel.Some? && ExcelName(e, spec.excel.value) !in w.faultyConfigMaps {
      PutAgain(e, configMaps, ExcelName(e, spec.excel.value), EXCEL_KEY);
    }
    if spec.html.Some? && !WriteReports(e, spec, w, configMaps).failed {
      PutAgain(e, configMaps, HTMLName(e, spec.html.value), HTML_KEY);
    }
  }

  /** Completing the same run again writes what is there already. */
  lemma CompleteAgain(e: Env, spec: Spec, w: World, store: Store, configMaps: map<string, ConfigMap>,
          checks: seq<Check>, readings: seq<Reading>)
    ensures var o := Complete(e, spec, w, store, configMaps, checks, readings);
            Complete(e, spec, w, store, o.configMaps, checks, readings) == o
  {
    hide Adds, Has, WriteSnapshots, WriteReports, Filled, SnapshotName, ReportNames, HasReports, ExcelName,
         HTMLName, WritesUpTo, SomeFaulty;
    if w.snapshots.Some? {
      var nodes := w.snapshots.value;
      var raw := if spec.retainRaw then WriteSnapshots(e, w, configMaps, nodes) else Written(configMaps, false);
      var reports := WriteReports(e, spec, w, raw.configMaps);
      ReportsWritten(e, spec, w, raw.configMaps);
      var last := if raw.failed then raw.configMaps else reports.configMaps;
      if spec.retainRaw {
        SnapshotsWritten(e, w, configMaps, nodes);
        AddsMore(e, raw.configMaps, reports.configMaps, ReportNames(e, spec), ReportNames(e, spec));
        forall i | 0 <= i < |nodes| && WritesUpTo(e, w, nodes, i)
          ensures Has(e, last, SnapshotName(e)(nodes[i]), SNAPSHOT_KEY)
        {
          assert Has(e, raw.configMaps, SnapshotName(e)(nodes[i]), SNAPSHOT_KEY);
          HasLater(e, raw.configMaps, reports.configMaps, ReportNames(e, spec), SnapshotName(e)(nodes[i]),
                   SNAPSHOT_KEY);
        }
        SnapshotsAgain(e, w, last, nodes);
        SnapshotsWritten(e, w, last, nodes);
        assert WriteSnapshots(e, w, last, nodes) == Written(last, raw.failed);
      }
      if !raw.failed {
        ReportsAgain(e, spec, w, last);
        ReportsWritten(e, spec, w, last);
        assert WriteReports(e, spec, w, last) == Written(last, reports.failed);
      }
    }
  }
}
