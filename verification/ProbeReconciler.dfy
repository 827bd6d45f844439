/** The reconciler as it runs: its loops change the jobs and the ConfigMaps one call at a time and stop at the first
    error (internal/controller/networkprobelab_controller.go, finalizers.go). */
module ProbeReconciler {
  import opened Text
  import opened Sorting
  import opened ProbeTypes
  import opened ProbeChecks
  import opened ProbeJobs
  import opened ProbeController
  import opened ProbeArtifacts
  import CheckLaws
  import Finalizers

  /** Two results of one node are the same, so the unstable sort leaves no choice. */
  lemma NodeResultsSeparate(e: Env, nodes: seq<string>, retainRaw: bool)
    ensures Separates(NodeResultLe, MapAll(nodes, NodeResultFor(e, retainRaw)))
  {
    hide SnapshotName;
    var all := MapAll(nodes, NodeResultFor(e, retainRaw));
    forall x, y | x in all && y in all && NodeResultLe(x, y) && NodeResultLe(y, x) ensures x == y {
      StrLeAntisymmetric(x.node, y.node);
      assert x == NodeResultFor(e, retainRaw)(x.node) && y == NodeResultFor(e, retainRaw)(y.node);
    }
  }

  method CollectNodeResults(e: Env, nodes: seq<string>, refs: map<string, string>,
          ghost retainRaw: bool) returns (out: seq<NodeResult>)
    requires if retainRaw
             then forall node | node in nodes :: node in refs && refs[node] == SnapshotName(e)(node)
             else refs == map[]
    ensures out == Sort(MapAll(nodes, NodeResultFor(e, retainRaw)), NodeResultLe)
  {
    hide SnapshotName;
    out := [];
    for i := 0 to |nodes|
      invariant out == MapAll(nodes[..i], NodeResultFor(e, retainRaw))
    {
      out := out + [NodeResult(nodes[i], if nodes[i] in refs then refs[nodes[i]] else "")];
    }
    assert nodes[..|nodes|] == nodes;
    NodeResultLePreorder();
    NodeResultsSeparate(e, nodes, retainRaw);
    ghost var unsorted := out;
    out := SortSlice(out, NodeResultLe);
    SortUnique(unsorted, out, NodeResultLe);
  }

  lemma {:induction false} WritesStop(e: Env, w: World, configMaps: map<string, ConfigMap>, nodes: seq<string>, i: nat)
    requires i <= |nodes| && WriteSnapshots(e, w, configMaps, nodes[..i]).failed
    ensures WriteSnapshots(e, w, configMaps, nodes) == WriteSnapshots(e, w, configMaps, nodes[..i])
    decreases |nodes|
  {
    if i < |nodes| {
      var rest := nodes[..|nodes| - 1];
      assert rest[..i] == nodes[..i];
      WritesStop(e, w, configMaps, rest, i);
    } else {
      assert nodes[..i] == nodes;
    }
  }

  lemma {:induction false} JobsStop(jobs: map<string, Job>, names: seq<string>, faulty: set<string>, i: nat)
    requires i <= |names| && DeleteJobs(jobs, names[..i], faulty).failed
    ensures DeleteJobs(jobs, names, faulty) == DeleteJobs(jobs, names[..i], faulty)
    decreases |names|
  {
    if i < |names| {
      var rest := names[..|names| - 1];
      assert rest[..i] == names[..i];
      JobsStop(jobs, rest, faulty, i);
    } else {
      assert names[..i] == names;
    }
  }

  lemma {:induction false} ConfigMapsStop(configMaps: map<string, ConfigMap>, names: seq<string>,
          faulty: set<string>, i: nat)
    requires i <= |names| && DeleteConfigMaps(configMaps, names[..i], faulty).failed
    ensures DeleteConfigMaps(configMaps, names, faulty) == DeleteConfigMaps(configMaps, names[..i], faulty)
    decreases |names|
  {
    if i < |names| {
      var rest := names[..|names| - 1];
      assert rest[..i] == names[..i];
      ConfigMapsStop(configMaps, rest, faulty, i);
    } else {
      assert names[..i] == names;
    }
  }

  class Cluster {
    const jobStore: JobStore
    var lab: Option<Lab>
    var configMaps: map<string, ConfigMap>
    ghost var basis: Basis
    ghost var removed: set<string>

    constructor (jobs: JobStore, first: Option<Lab>)
      ensures jobStore == jobs && lab == first && configMaps == map[] && basis == NO_BASIS && removed == {}
    {
      jobStore, lab, configMaps, basis, removed := jobs, first, map[], NO_BASIS, {};
    }

    ghost function Now(): State
      reads this, jobStore
    {
      State(lab, jobStore.Content(), jobStore.pods, configMaps, basis, removed)
    }

    /** Creates the ConfigMap, or adds the label and the key to it. */
    method WriteConfigMap(e: Env, name: string, key: string)
      modifies this`configMaps
      ensures configMaps == Put(old(configMaps), name, LabLabel(e), key)
    {
      assert {} + {key} == {key};
      if name !in configMaps {
        configMaps := configMaps[name := ConfigMap(LabLabel(e), {key})];
      } else {
        var existing := configMaps[name];
        existing := existing.(labHash := LabLabel(e));
        existing := existing.(keys := existing.keys + {key});
        configMaps := configMaps[name := existing];
      }
    }

    method WriteRawSnapshotConfigMaps(e: Env, w: World, nodes: seq<string>)
      returns (refs: map<string, string>, names: seq<string>, failed: bool)
      modifies this`configMaps
      ensures Written(configMaps, failed) == WriteSnapshots(e, w, old(configMaps), nodes)
      ensures failed ==> refs == map[] && names == []
      ensures !failed ==> names == Sort(MapAll(nodes, SnapshotName(e)), StringLe)
      ensures !failed ==> forall node | node in nodes :: node in refs && refs[node] == SnapshotName(e)(node)
      ensures !failed ==> forall node | node in nodes :: Has(e, configMaps, SnapshotName(e)(node), SNAPSHOT_KEY)
      ensures Adds(e, old(configMaps), configMaps, SnapshotNames(e, nodes))
    {
      hide SnapshotName, Put, Has, Adds, WritesUpTo, SomeFaulty, SnapshotNames;
      SnapshotsWritten(e, w, configMaps, nodes);
      if !WriteSnapshots(e, w, configMaps, nodes).failed {
        AllSnapshotsWritten(e, w, configMaps, nodes);
      }
      refs, names, failed := map[], [], false;
      for i := 0 to |nodes|
        invariant Written(configMaps, false) == WriteSnapshots(e, w, old(configMaps), nodes[..i])
        invariant names == MapAll(nodes[..i], SnapshotName(e))
        invariant forall k | 0 <= k < i :: nodes[k] in refs
        invariant forall node | node in refs :: refs[node] == SnapshotName(e)(node)
      {
        assert nodes[..i + 1][..i] == nodes[..i];
        var name := SnapshotName(e)(nodes[i]);
        if name in w.faultyConfigMaps {
          WritesStop(e, w, old(configMaps), nodes, i + 1);
          return map[], [], true;
        }
        WriteConfigMap(e, name, SNAPSHOT_KEY);
        refs := refs[nodes[i] := name];
        names := names + [name];
      }
      assert nodes[..|nodes|] == nodes;
      StringLePreorder();
      ghost var unsorted := names;
      names := SortSlice(names, StringLe);
      SortUnique(unsorted, names, StringLe);
    }

    method WriteReportConfigMaps(e: Env, spec: Spec, w: World) returns (failed: bool)
      modifies this`configMaps
      ensures Written(configMaps, failed) == WriteReports(e, spec, w, old(configMaps))
      ensures failed <==> ReportNames(e, spec) * w.faultyConfigMaps != {}
      ensures !failed ==> HasReports(e, spec, configMaps)
      ensures Adds(e, old(configMaps), configMaps, ReportNames(e, spec))
    {
      hide Has, Adds, ReportNames, HasReports;
      ReportsWritten(e, spec, w, configMaps);
      if spec.excel.Some? {
        var name := ExcelName(e, spec.excel.value);
        if name in w.faultyConfigMaps {
          return true;
        }
        WriteConfigMap(e, name, EXCEL_KEY);
      }
      if spec.html.Some? {
        var name := HTMLName(e, spec.html.value);
        if name in w.faultyConfigMaps {
          return true;
        }
        WriteConfigMap(e, name, HTML_KEY);
      }
      return false;
    }

    /** The second half of `runNetworkProbe`. */
    method FinishRun(e: Env, spec: Spec, w: World, checks: seq<Check>, readings: seq<Reading>)
      returns (run: Run, failed: bool, ghost ground: Basis)
      modifies this`configMaps
      ensures Outcome(jobStore.Content(), configMaps, run, failed, ground)
           == Complete(e, spec, w, jobStore.Content(), old(configMaps), checks, readings)
    {
      hide WriteSnapshots, WriteReports, SnapshotName;
      run, failed, ground := EMPTY_RUN.(totalTests := |checks|), true, NO_BASIS;
      if w.snapshots.None? {
        return;
      }
      var nodes := w.snapshots.value;
      var refs, names: seq<string> := map[], [];
      if spec.retainRaw {
        var writeFailed;
        refs, names, writeFailed := WriteRawSnapshotConfigMaps(e, w, nodes);
        if writeFailed {
          return;
        }
      }
      var nodeResults := CollectNodeResults(e, nodes, refs, spec.retainRaw);
      var results, succeeded, losses := FoldReports(e, w, readings);
      run := Run(false, |checks|, succeeded, losses, nodeResults, results, names);
      ground := Basis(spec.traffic, checks, readings);
      failed := WriteReportConfigMaps(e, spec, w);
    }

    method RunNetworkProbe(e: Env, w: World, current: Lab) returns (run: Run, failed: bool, ghost ground: Basis)
      requires Legible(w) && CheckLaws.Injective(e.id)
      modifies this`configMaps, jobStore`jobs, jobStore`nextUid, jobStore`created
      ensures Outcome(jobStore.Content(), configMaps, run, failed, ground) == RunOf(e, current, w, old(Now()))
    {
      hide BuiltChecks, PassOver, Complete, CheckLaws.PodsLegible, CheckLaws.ServicesLegible;
      run, failed, ground := EMPTY_RUN, true, NO_BASIS;
      if w.targets.None? {
        return;
      }
      if w.services.None? {
        return;
      }
      if |w.targets.value| == 0 {
        return;
      }
      var traffic := current.spec.traffic;
      CheckLaws.IdsTellChecks(traffic, w.targets.value, w.services.value, e.id);
      var checks := BuildProbeChecks(traffic, w.targets.value, w.services.value, e.id);
      BuiltIdsTell(traffic, w.targets.value, w.services.value, e.id);
      if |checks| == 0 {
        return;
      }
      run := run.(totalTests := |checks|);
      var readings, pending, jobsFailed :=
        jobStore.EnsureAndReadProbeJobs(e, current.generation, traffic, checks, w.faultyJobs);
      if jobsFailed {
        run := run.(pending := pending);
        return;
      }
      if pending {
        run, failed := run.(pending := true), false;
        return;
      }
      run, failed, ground := FinishRun(e, current.spec, w, checks, readings);
    }

    method DeleteJobsByLabels(e: Env, w: World) returns (failed: bool)
      modifies jobStore`jobs
      ensures Cleaned(jobStore.jobs, failed) == CleanJobs(e, w, old(jobStore.jobs))
    {
      hide SortedSet;
      if w.listJobsFails {
        return true;
      }
      StringLePreorder();
      var names := ListSorted(LabelledJobs(e, jobStore.jobs), StringLe);
      for i := 0 to |names|
        invariant Cleaned(jobStore.jobs, false) == DeleteJobs(old(jobStore.jobs), names[..i], w.faultyJobs)
      {
        assert names[..i + 1][..i] == names[..i];
        if names[i] in w.faultyJobs {
          JobsStop(old(jobStore.jobs), names, w.faultyJobs, i + 1);
          return true;
        }
        jobStore.DeleteJob(names[i]);
      }
      assert names[..|names|] == names;
      return false;
    }

    method DeleteConfigMapsByLabels(e: Env, w: World) returns (failed: bool)
      modifies this`configMaps
      ensures Cleaned(configMaps, failed) == CleanConfigMaps(e, w, old(configMaps))
    {
      hide SortedSet;
      if w.listConfigMapsFails {
        return true;
      }
      StringLePreorder();
      var names := ListSorted(LabelledConfigMaps(e, configMaps), StringLe);
      for i := 0 to |names|
        invariant Cleaned(configMaps, false) == DeleteConfigMaps(old(configMaps), names[..i], w.faultyConfigMaps)
      {
        assert names[..i + 1][..i] == names[..i];
        if names[i] in w.faultyConfigMaps {
          ConfigMapsStop(old(configMaps), names, w.faultyConfigMaps, i + 1);
          return true;
        }
        configMaps := configMaps - {names[i]};
      }
      assert names[..|names|] == names;
      return false;
    }

    method CleanupNetworkProbeArtifacts(e: Env, w: World) returns (failed: bool)
      modifies this`configMaps, jobStore`jobs
      ensures var jobs := CleanJobs(e, w, old(jobStore.jobs));
              && jobStore.jobs == jobs.objects
              && Cleaned(configMaps, failed)
                 == if jobs.failed then Cleaned(old(configMaps), true) else CleanConfigMaps(e, w, old(configMaps))
    {
      hide CleanJobs, CleanConfigMaps;
      failed := DeleteJobsByLabels(e, w);
      if failed {
        return;
      }
      failed := DeleteConfigMapsByLabels(e, w);
    }

    /** One pass of the controller. */
    method Reconcile(e: Env, w: World)
      requires Legible(w) && CheckLaws.Injective(e.id)
      modifies this, jobStore`jobs, jobStore`nextUid, jobStore`created
      ensures Now() == Reconciled(e, w, old(Now()))
    {
      hide CleanJobs, CleanConfigMaps, RunOf, Finalizers.Without;
      if lab.None? {
        return;
      }
      var current := lab.value;
      var meta := new Finalizers.ObjectMeta(current.finalizers);
      if current.deleting {
        var has := meta.HasFinalizer(FINALIZER);
        if has {
          var failed := CleanupNetworkProbeArtifacts(e, w);
          if failed {
            return;
          }
          var _ := meta.RemoveFinalizer(FINALIZER);
          var items := meta.Read();
          if !w.updateFails {
            lab := Stored(current.(finalizers := items));
          }
        }
        return;
      }
      var added := meta.AddFinalizer(FINALIZER);
      if added {
        var items := meta.Read();
        if !w.updateFails {
          lab := Some(current.(finalizers := items));
        }
        return;
      }
      var run, failed;
      ghost var ground;
      run, failed, ground := RunNetworkProbe(e, w, current);
      var next := current.status.(observedGeneration := current.generation, totalTests := run.totalTests,
                                  succeeded := run.succeeded, failed := run.failed, nodeResults := run.nodeResults,
                                  results := run.results, rawNames := run.rawNames);
      if failed {
        next := next.(phase := Phase.Failed);
      } else if run.pending {
        next := next.(phase := Phase.Running);
      } else if run.failed > 0 {
        next := next.(phase := Phase.Failed);
      } else {
        next := next.(phase := Phase.Succeeded);
      }
      if !w.statusFails {
        basis, removed := ground, {};
      }
      if current.status == next {
        return;
      }
      if !w.statusFails {
        lab := Some(current.(status := next));
      }
    }
  }

  lemma BuiltIdsTell(traffic: Traffic, pods: seq<Pod>, services: seq<Service>, digest: Digest)
    requires IdsTell(ListedChecks(traffic, pods, services, digest))
    ensures IdsTell(BuiltChecks(traffic, pods, services, digest))
  {
    hide ListedChecks;
    SortContents(ListedChecks(traffic, pods, services, digest), IdLe);
    SameMembers(ListedChecks(traffic, pods, services, digest), BuiltChecks(traffic, pods, services, digest));
  }
}
