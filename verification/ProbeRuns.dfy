/** The probe protocol as a transition system: passes of the controller interleaved with the steps of users, of the job
    controller and of everybody else (internal/controller/networkprobelab_controller.go, cmd/probe/main.go). */
module ProbeRuns {
  import Sorting
  import opened ProbeTypes
  import ProbeBinary
  import opened ProbeChecks
  import opened ProbeJobs
  import opened JobLaws
  import opened ProbeController
  import Names

  datatype Step =
    | ControllerPass(world: World)
    | CreateLab(lab: Lab)
    | EditSpec(spec: Spec)
    | EditFinalizers(finalizers: seq<string>)
    | DeleteLab
    | JobReports(name: string, succeeded: int, failed: int)
    | DeletionTakesEffect(name: string)
    | JobExpires(name: string)
    | PodsChange(pods: seq<ProbePod>)
    | OthersAct

  const FRESH := Status(0, Unset, 0, 0, 0, [], [], [])

  /** What kubelets run: a pod of a job of ours belongs to a job that was created before, and if it has a readable
      report, that is what the probe program writes for the payload of its job (`ProbeBinary.RunProbe`). */
  ghost predicate PodsHonest(pods: seq<ProbePod>, store: Store) {
    forall pod, uid | pod in pods && OwnedByJob(pod, uid) :: HonestPod(pod, uid, store)
  }

  ghost predicate HonestPod(pod: ProbePod, uid: nat, store: Store) {
    && uid < store.nextUid
    && (uid in store.created && ProbeMessage(pod.statuses).Some? && ProbeMessage(pod.statuses).value.Readable? ==>
          ProbeBinary.Reported(ProbeMessage(pod.statuses).value.report, store.created[uid].sourceNode,
                               store.created[uid].payload, store.created[uid].budget.count))
  }

  /** Others leave the lab's jobs alone and put its label on nothing; they may take ConfigMaps away from it, which the
      history records. */
  ghost predicate Foreign(e: Env, s: State, t: State) {
    && t.lab == s.lab && t.pods == s.pods && t.basis == s.basis
    && t.store.created == s.store.created && s.store.nextUid <= t.store.nextUid
    && (forall node | node in e.nodes :: SameJob(s.store.jobs, t.store.jobs, JobName(e, node)))
    && (forall name | LabelledLive(e, t.store.jobs, name) :: LabelledLive(e, s.store.jobs, name))
    && (forall name | Labelled(e, t.configMaps, name) :: Labelled(e, s.configMaps, name))
    && t.removed == s.removed + (LabelledConfigMaps(e, s.configMaps) - LabelledConfigMaps(e, t.configMaps))
  }

  predicate LabelledLive(e: Env, jobs: map<string, Job>, name: string) {
    name in jobs && jobs[name].labHash == LabLabel(e) && !jobs[name].deleting
  }

  predicate Labelled(e: Env, configMaps: map<string, ConfigMap>, name: string) {
    name in configMaps && configMaps[name].labHash == LabLabel(e)
  }

  /** Pods run on nodes of the cluster. */
  predicate Located(e: Env, w: World) {
    w.targets.Some? ==> forall pod | pod in w.targets.value :: pod.node in e.nodes
  }

  ghost predicate Next(e: Env, s: State, step: Step, t: State) {
    match step
    case ControllerPass(w) =>
      Legible(w) && Located(e, w) && t == Reconciled(e, w, s)
    case CreateLab(lab) =>
      s.lab.None? && !lab.deleting && lab.status == FRESH && t == s.(lab := Some(lab), basis := NO_BASIS)
    case EditSpec(spec) =>
      s.lab.Some? && t == s.(lab := Some(s.lab.value.(spec := spec, generation := s.lab.value.generation + 1)))
    case EditFinalizers(finalizers) =>
      && s.lab.Some? && (FINALIZER in s.lab.value.finalizers ==> FINALIZER in finalizers)
      && t == s.(lab := Stored(s.lab.value.(finalizers := finalizers)))
    case DeleteLab =>
      s.lab.Some? && t == s.(lab := Stored(s.lab.value.(deleting := true)))
    case JobReports(name, succeeded, failed) =>
      && name in s.store.jobs
      && t == s.(store := s.store.(jobs :=
                                   s.store.jobs[name := s.store.jobs[name].(succeeded := succeeded, failed := failed)]))
    case DeletionTakesEffect(name) =>
      name in s.store.jobs && s.store.jobs[name].deleting && t == s.(store := s.store.(jobs := s.store.jobs - {name}))
    case JobExpires(name) =>
      name in s.store.jobs && t == s.(store := s.store.(jobs := s.store.jobs - {name}))
    case PodsChange(pods) =>
      PodsHonest(pods, s.store) && t == s.(pods := pods)
    case OthersAct =>
      Foreign(e, s, t)
  }

  ghost predicate Initial(e: Env, s: State) {
    && s.lab.None? && s.store.created == map[] && PodsHonest(s.pods, s.store)
    && (forall node | node in e.nodes :: JobName(e, node) !in s.store.jobs)
    && (forall name :: !LabelledLive(e, s.store.jobs, name) && !Labelled(e, s.configMaps, name))
  }

  /** A run: states joined by steps. */
  ghost predicate IsRun(e: Env, states: seq<State>, steps: seq<Step>) {
    && |states| == |steps| + 1 && Initial(e, states[0])
    && forall i | 0 <= i < |steps| :: Next(e, states[i], steps[i], states[i + 1])
  }

  // ----- the records of jobs -----

  /** The job is the one that was created under its UID; only its deletion mark and its counters may differ. */
  predicate Made(job: Job, record: Job) {
    job.(deleting := record.deleting, succeeded := record.succeeded, failed := record.failed) == record
  }

  ghost predicate Sane(e: Env, uid: nat, record: Job) {
    record.uid == uid && record.labHash == LabLabel(e) && record.hash == ChecksHash(e, record.payload)
      && Sorting.Sorted(record.payload, IdLe)
  }

  predicate Recorded(store: Store, name: string, node: string) {
    && name in store.jobs && store.jobs[name].uid in store.created
    && Made(store.jobs[name], store.created[store.jobs[name].uid])
    && store.created[store.jobs[name].uid].sourceNode == node
  }

  ghost predicate Records(e: Env, store: Store) {
    && UidsBelow(store)
    && (forall uid | uid in store.created :: Sane(e, uid, store.created[uid]))
    && (forall node | node in e.nodes && JobName(e, node) in store.jobs :: Recorded(store, JobName(e, node), node))
  }

  /** Only jobs with new UIDs are added to the records. */
  ghost predicate Grows(a: Store, b: Store) {
    && a.nextUid <= b.nextUid
    && (forall uid | uid in a.created :: uid in b.created && b.created[uid] == a.created[uid])
    && (forall uid | uid in b.created && uid !in a.created :: uid >= a.nextUid)
  }

  lemma SameName(e: Env, a: string, b: string)
    requires Collisionless(e) && a in e.nodes && b in e.nodes && JobName(e, a) == JobName(e, b)
    ensures a == b
  {
    Names.JobNamesDiffer(e.lab, a, b, e.short);
  }

  lemma CreateRecords(e: Env, store: Store, node: string, job: Job)
    requires Collisionless(e) && Records(e, store) && Sane(e, store.nextUid, job) && job.sourceNode == node
        && node in e.nodes
    ensures var after :=
            Store(store.jobs[JobName(e, node) := job], store.nextUid + 1, store.created[store.nextUid := job]);
            Records(e, after) && Grows(store, after)
  {
    hide JobName, Sane;
    var after := Store(store.jobs[JobName(e, node) := job], store.nextUid + 1, store.created[store.nextUid := job]);
    assert store.nextUid !in store.created;
    forall other | other in e.nodes && JobName(e, other) in after.jobs
      ensures Recorded(after, JobName(e, other), other)
    {
      if JobName(e, other) == JobName(e, node) {
        SameName(e, other, node);
        assert job.uid == store.nextUid by { SaneUid(e, store.nextUid, job); }
      } else {
        assert Recorded(store, JobName(e, other), other);
      }
    }
  }

  lemma SaneUid(e: Env, uid: nat, job: Job)
    requires Sane(e, uid, job)
    ensures job.uid == uid
  {
  }

  /** A job may change its deletion mark and its counters, and it may go away. */
  ghost predicate OnlyProgress(a: Store, b: Store) {
    && b.created == a.created && a.nextUid <= b.nextUid
    && forall name | name in b.jobs :: name in a.jobs && Made(b.jobs[name], a.jobs[name])
  }

  lemma ProgressRecords(e: Env, a: Store, b: Store)
    requires Records(e, a) && OnlyProgress(a, b)
    ensures Records(e, b) && Grows(a, b)
  {
    hide JobName, Sane;
    forall node | node in e.nodes && JobName(e, node) in b.jobs ensures Recorded(b, JobName(e, node), node) {
      assert Recorded(a, JobName(e, node), node);
    }
  }

  lemma VisitRecords(e: Env, p: Pass, s: Progress, node: string)
    requires Collisionless(e) && Records(e, s.store) && Sorting.Sorted(p.checks, IdLe) && node in e.nodes
    ensures Records(e, Visit(e, p, s, node).store) && Grows(s.store, Visit(e, p, s, node).store)
  {
    hide JobName, Records, GroupOf, ChecksHash, ReadReport, Sorting.Sorted, Current, Grows;
    var after := Visit(e, p, s, node).store;
    match Decide(e, p, s.store.jobs, node)
    case Create =>
      GroupSorted(p.checks, node);
      CreateRecords(e, s.store, node, NewJob(e, p, node, s.store.nextUid));
    case _ =>
      ProgressRecords(e, s.store, after);
  }

  lemma GrowsTrans(a: Store, b: Store, c: Store)
    requires Grows(a, b) && Grows(b, c)
    ensures Grows(a, c)
  {
  }

  lemma {:induction false} VisitsRecords(e: Env, p: Pass, store: Store, nodes: seq<string>)
    requires Collisionless(e) && Records(e, store) && Sorting.Sorted(p.checks, IdLe)
        && forall node | node in nodes :: node in e.nodes
    ensures Records(e, Visits(e, p, store, nodes).store) && Grows(store, Visits(e, p, store, nodes).store)
  {
    hide Visit, Records;
    if nodes != [] {
      var s := Visits(e, p, store, nodes[..|nodes| - 1]);
      VisitsRecords(e, p, store, nodes[..|nodes| - 1]);
      VisitRecords(e, p, s, nodes[|nodes| - 1]);
      GrowsTrans(store, s.store, Visit(e, p, s, nodes[|nodes| - 1]).store);
    }
  }

  // ----- the jobs of the current generation -----

  /** A job that is not being deleted is not of a later generation, and one of this generation was made for these
      traffic settings. */
  ghost predicate Fits(e: Env, jobs: map<string, Job>, generation: int, traffic: Traffic) {
    forall node | node in e.nodes && JobName(e, node) in jobs :: FitsOne(jobs[JobName(e, node)], generation, traffic)
  }

  predicate FitsOne(job: Job, generation: int, traffic: Traffic) {
    && (!job.deleting ==> job.generation <= generation)
    && (!job.deleting && job.generation == generation ==> job.budget == BudgetOf(traffic, |job.payload|))
  }

  lemma VisitFits(e: Env, p: Pass, s: Progress, node: string)
    requires Fits(e, s.store.jobs, p.generation, p.traffic)
    ensures Fits(e, Visit(e, p, s, node).store.jobs, p.generation, p.traffic)
  {
    hide JobName, GroupOf, ChecksHash, BudgetOf, ReadReport, Current;
    var name, after := JobName(e, node), Visit(e, p, s, node).store;
    forall other | other in e.nodes && JobName(e, other) in after.jobs
      ensures FitsOne(after.jobs[JobName(e, other)], p.generation, p.traffic)
    {
      if JobName(e, other) in s.store.jobs {
        assert FitsOne(s.store.jobs[JobName(e, other)], p.generation, p.traffic);
      }
    }
  }

  lemma {:induction false} VisitsFit(e: Env, p: Pass, store: Store, nodes: seq<string>)
    requires Fits(e, store.jobs, p.generation, p.traffic)
    ensures Fits(e, Visits(e, p, store, nodes).store.jobs, p.generation, p.traffic)
  {
    hide Visit, Fits;
    if nodes != [] {
      VisitsFit(e, p, store, nodes[..|nodes| - 1]);
      VisitFits(e, p, Visits(e, p, store, nodes[..|nodes| - 1]), nodes[|nodes| - 1]);
    }
  }

  /** Marking jobs as deleted, or taking them away, keeps them fitting. */
  lemma FewerFit(e: Env, a: map<string, Job>, b: map<string, Job>, generation: int, traffic: Traffic)
    requires Fits(e, a, generation, traffic)
    requires forall name | name in b :: name in a && Made(b[name], a[name]) && (a[name].deleting ==> b[name].deleting)
    ensures Fits(e, b, generation, traffic)
  {
    hide JobName, BudgetOf;
    forall node | node in e.nodes && JobName(e, node) in b ensures FitsOne(b[JobName(e, node)], generation, traffic) {
      assert FitsOne(a[JobName(e, node)], generation, traffic);
    }
  }

  /** A new generation has no jobs yet. */
  lemma NextGenerationFits(e: Env, jobs: map<string, Job>, generation: int, traffic: Traffic, next: Traffic)
    requires Fits(e, jobs, generation, traffic)
    ensures Fits(e, jobs, generation + 1, next)
  {
    hide JobName, BudgetOf;
    forall node | node in e.nodes && JobName(e, node) in jobs
      ensures FitsOne(jobs[JobName(e, node)], generation + 1, next)
    {
      assert FitsOne(jobs[JobName(e, node)], generation, traffic);
    }
  }
}
