/** Which termination message decides about a job, stated without the loops (`readProbeJobReport`,
    internal/controller/networkprobelab_controller.go). */
module ReadingLaws {
  import opened ProbeTypes
  import opened ProbeJobs

  /** The k-th container is the first one called "probe" that has terminated. */
  predicate FirstTerminated(statuses: seq<ContainerStatus>, k: nat) {
    && k < |statuses| && statuses[k].name == "probe" && statuses[k].terminated.Some?
    && forall j | 0 <= j < k :: statuses[j].name == "probe" ==> statuses[j].terminated.None?
  }

  predicate HasTerminated(statuses: seq<ContainerStatus>) {
    exists k | 0 <= k < |statuses| :: statuses[k].name == "probe" && statuses[k].terminated.Some?
  }

  /** The pod belongs to the job and has a terminated probe container. */
  predicate Speaks(pod: ProbePod, name: string, uid: nat) {
    && pod.jobName == name && HasTerminated(pod.statuses)
    && exists j | 0 <= j < |pod.owners| :: pod.owners[j].kind == "Job" && pod.owners[j].uid == uid
  }

  /** The i-th pod is the first that speaks for the job. */
  predicate FirstToSpeak(pods: seq<ProbePod>, name: string, uid: nat, i: nat) {
    i < |pods| && Speaks(pods[i], name, uid) && forall j | 0 <= j < i :: !Speaks(pods[j], name, uid)
  }

  /** The report with the name and the address of the pod in every result, and otherwise as it was. */
  predicate FromPod(report: Report, raw: Report, pod: ProbePod) {
    && report.sourceNode == raw.sourceNode && |report.results| == |raw.results|
    && forall j | 0 <= j < |raw.results| ::
         report.results[j] == raw.results[j].(sourcePod := pod.namespace + "/" + pod.name, sourceIP := pod.ip)
  }

  /** The message of the first pod that speaks for the job is this report. */
  ghost predicate Decides(pods: seq<ProbePod>, name: string, uid: nat, i: nat, k: nat, reading: Reading) {
    && FirstToSpeak(pods, name, uid, i) && FirstTerminated(pods[i].statuses, k)
    && var message := pods[i].statuses[k].terminated.value;
    && message.Readable? && reading.uid == uid && reading.pod == pods[i]
    && FromPod(reading.report, message.report, pods[i])
  }

  lemma {:induction false} MessageExactly(statuses: seq<ContainerStatus>)
    ensures ProbeMessage(statuses).Some? <==> HasTerminated(statuses)
    ensures ProbeMessage(statuses).Some? ==>
              exists k: nat :: FirstTerminated(statuses, k) && ProbeMessage(statuses) == statuses[k].terminated
  {
    if statuses != [] {
      var rest := statuses[1..];
      MessageExactly(rest);
      if statuses[0].name == "probe" && statuses[0].terminated.Some? {
        assert FirstTerminated(statuses, 0);
      } else {
        if HasTerminated(statuses) {
          var j :| 0 <= j < |statuses| && statuses[j].name == "probe" && statuses[j].terminated.Some?;
          assert rest[j - 1] == statuses[j];
        }
        if HasTerminated(rest) {
          var k: nat :| FirstTerminated(rest, k) && ProbeMessage(rest) == rest[k].terminated;
          assert forall j | 0 < j < k + 1 :: statuses[j] == rest[j - 1];
          assert FirstTerminated(statuses, k + 1);
        }
      }
    }
  }

  lemma OnlyOneFirst(statuses: seq<ContainerStatus>, k: nat, j: nat)
    requires FirstTerminated(statuses, k) && FirstTerminated(statuses, j)
    ensures k == j
  {
  }

  lemma SpeaksExactly(pod: ProbePod, name: string, uid: nat)
    ensures Speaks(pod, name, uid) <==> pod.jobName == name && OwnedByJob(pod, uid) && ProbeMessage(pod.statuses).Some?
  {
    MessageExactly(pod.statuses);
    if OwnedByJob(pod, uid) {
      var j :| 0 <= j < |pod.owners| && pod.owners[j] == OwnerRef("Job", uid);
    }
  }

  lemma {:induction false} ReadFirst(pods: seq<ProbePod>, name: string, uid: nat, i: nat)
    requires FirstToSpeak(pods, name, uid, i)
    ensures var message := ProbeMessage(pods[i].statuses);
            && message.Some?
            && ReadReport(pods, name, uid)
               == match message.value
                  case Unreadable => None
                  case Readable(report) => Some(Reading(uid, pods[i], Stamped(report, pods[i])))
    decreases i
  {
    hide Speaks, ProbeMessage, Stamped, OwnedByJob;
    SpeaksExactly(pods[0], name, uid);
    if i > 0 {
      assert forall j | 0 <= j < i :: pods[1..][j] == pods[j + 1];
      ReadFirst(pods[1..], name, uid, i - 1);
    }
  }

  lemma {:induction false} ReadNone(pods: seq<ProbePod>, name: string, uid: nat)
    requires forall j | 0 <= j < |pods| :: !Speaks(pods[j], name, uid)
    ensures ReadReport(pods, name, uid) == None
  {
    hide Speaks, ProbeMessage, Stamped, OwnedByJob;
    if pods != [] {
      SpeaksExactly(pods[0], name, uid);
      assert forall j | 0 <= j < |pods| - 1 :: pods[1..][j] == pods[j + 1];
      ReadNone(pods[1..], name, uid);
    }
  }

  lemma {:induction false} FirstSpeaker(pods: seq<ProbePod>, name: string, uid: nat, n: nat) returns (i: nat)
    requires n <= |pods|
    ensures i <= n && forall j | 0 <= j < i :: !Speaks(pods[j], name, uid)
    ensures i < n ==> FirstToSpeak(pods, name, uid, i)
  {
    hide Speaks;
    i := 0;
    while i < n && !Speaks(pods[i], name, uid)
      invariant i <= n && forall j | 0 <= j < i :: !Speaks(pods[j], name, uid)
    {
      i := i + 1;
    }
  }

  lemma StampedFromPod(report: Report, raw: Report, pod: ProbePod)
    ensures FromPod(report, raw, pod) <==> report == Stamped(raw, pod)
  {
    if FromPod(report, raw, pod) {
      assert report.results == Stamped(raw, pod).results;
    }
  }

  /** A report is read for a job if and only if the first pod of the job whose probe container has terminated has one; a
      pod without such a container is passed over, and a message that is no report is not replaced by a later one. */
  lemma ReadExactly(pods: seq<ProbePod>, name: string, uid: nat, reading: Reading)
    ensures ReadReport(pods, name, uid) == Some(reading) <==> exists i: nat, k: nat ::
              Decides(pods, name, uid, i, k, reading)
  {
    hide Speaks, HasTerminated, FromPod, Stamped;
    var i := FirstSpeaker(pods, name, uid, |pods|);
    if i == |pods| {
      ReadNone(pods, name, uid);
    } else {
      ReadFirst(pods, name, uid, i);
      MessageExactly(pods[i].statuses);
      var k: nat :| FirstTerminated(pods[i].statuses, k)
        && ProbeMessage(pods[i].statuses) == pods[i].statuses[k].terminated;
      var message := pods[i].statuses[k].terminated.value;
      if ReadReport(pods, name, uid) == Some(reading) {
        StampedFromPod(reading.report, message.report, pods[i]);
        assert Decides(pods, name, uid, i, k, reading);
      }
      if i', k': nat :| i' >= 0 && Decides(pods, name, uid, i', k', reading) {
        assert i' == i;
        OnlyOneFirst(pods[i].statuses, k, k');
        StampedFromPod(reading.report, message.report, pods[i]);
      }
    }
  }
}
