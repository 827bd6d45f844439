/** The payload exchanged between the controller and the probe binary (internal/probe/types.go). */
module ProbeTypes {
  import Text

  datatype Option<+T> = None | Some(value: T)

  datatype Check = Check(id: string, sourceNode: string, targetPod: string, targetNode: string, targetService: string,
                         protocol: string, address: string, port: int, path: string, targetIP: string,
                         serviceIP: string)

  datatype Result = Result(checkID: string, sourcePod: string, sourceIP: string, sourceNode: string, targetPod: string,
                           targetNode: string, targetService: string, protocol: string, address: string, port: int,
                           path: string, targetIP: string, serviceIP: string,
                           success: bool, error: string, p50: real, p95: real)

  datatype Report = Report(sourceNode: string, results: seq<Result>)

  /** The result carries the identity of the check. */
  predicate Answers(r: Result, c: Check) {
    && r.checkID == c.id && r.sourceNode == c.sourceNode && r.targetPod == c.targetPod && r.targetNode == c.targetNode
    && r.targetService == c.targetService && r.protocol == Text.ToUpper(c.protocol) && r.address == c.address
    && r.port == c.port && r.path == c.path && r.targetIP == c.targetIP && r.serviceIP == c.serviceIP
  }

  /** The report answers every check of the list once, in the order of the list. */
  ghost predicate AnswersAll(report: Report, node: string, checks: seq<Check>) {
    && report.sourceNode == node && |report.results| == |checks|
    && forall i | 0 <= i < |checks| :: Answers(report.results[i], checks[i])
  }
}
