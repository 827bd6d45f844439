/** The probe binary (cmd/probe/main.go): it runs every check of its payload a number of times and reports one result
    per check. What the network answers is an oracle. */
module ProbeBinary {
  import Text
  import opened Percentiles
  import opened ProbeTypes

  /** One call of `probeOnce`: its latency, or its error. */
  datatype Attempt = Ok(latency: real) | Err(message: string)

  /** The answer to the n-th attempt of a check. */
  type Network = (Check, nat) -> Attempt

  /** The first attempt that fails, or `count`. */
  function FirstFailure(check: Check, count: nat, network: Network): (n: nat)
    ensures n <= count
    ensures forall i | 0 <= i < n :: network(check, i).Ok?
    ensures n < count ==> network(check, n).Err?
  {
    if count == 0 then 0
    else
      var n := FirstFailure(check, count - 1, network);
      if n < count - 1 then n else if network(check, count - 1).Err? then count - 1 else count
  }

  function Latencies(check: Check, n: nat, network: Network): seq<real>
    requires forall i | 0 <= i < n :: network(check, i).Ok?
  {
    seq(n, i requires 0 <= i < n => network(check, i).latency)
  }

  /** The result of a check: a success exactly if every attempt succeeds, else the error of the first failure; the
      latencies are those of the attempts before it. */
  function ResultOf(check: Check, count: nat, network: Network): Result {
    var n := FirstFailure(check, count, network);
    var latencies := Latencies(check, n, network);
    Result(check.id, "", "", check.sourceNode, check.targetPod, check.targetNode, check.targetService,
           Text.ToUpper(check.protocol), check.address, check.port, check.path, check.targetIP, check.serviceIP,
           n == count, if n < count then network(check, n).message else "",
           PercentileOf(latencies, 0.50), PercentileOf(latencies, 0.95))
  }

  function ReportOf(node: string, checks: seq<Check>, count: int, network: Network): Report {
    var times := if count <= 0 then 1 else count;
    Report(node, seq(|checks|, i requires 0 <= i < |checks| => ResultOf(checks[i], times, network)))
  }

  /** What the program may report for these checks and this number of attempts: what it does report for some answers of
      the network. */
  ghost predicate Reported(report: Report, node: string, checks: seq<Check>, count: int) {
    exists network: Network :: report == ReportOf(node, checks, count, network)
  }

  lemma ReportedAnswers(report: Report, node: string, checks: seq<Check>, count: int)
    requires Reported(report, node, checks, count)
    ensures AnswersAll(report, node, checks)
  {
    var network: Network :| report == ReportOf(node, checks, count, network);
  }

  /** Every one of at least one attempts got through. */
  ghost predicate GetsThrough(check: Check, count: int, network: Network) {
    count >= 1 && forall n: nat | n < count :: network(check, n).Ok?
  }

  /** A success in the report of the program means that every attempt got through. */
  lemma SuccessExactly(node: string, checks: seq<Check>, count: int, network: Network, i: nat)
    requires i < |checks|
    ensures ReportOf(node, checks, count, network).results[i].success
            <==> GetsThrough(checks[i], if count <= 0 then 1 else count, network)
  {
    var times := if count <= 0 then 1 else count;
    var n := FirstFailure(checks[i], times, network);
    assert ReportOf(node, checks, count, network).results[i] == ResultOf(checks[i], times, network);
    assert n < times ==> network(checks[i], n).Err?;
  }

  /** The latencies of the attempts before the first failure. */
  ghost predicate LatenciesBefore(check: Check, n: nat, network: Network, latencies: seq<real>) {
    |latencies| == n && forall i: nat | i < n :: network(check, i) == Ok(latencies[i])
  }

  /** The n-th attempt is the first that fails, or all of the `count` attempts get through and `n` is their number. */
  ghost predicate StopsAt(check: Check, count: nat, network: Network, n: nat) {
    n <= count && (forall i: nat | i < n :: network(check, i).Ok?) && (n < count ==> network(check, n).Err?)
  }

  /** So many of the latencies lie on each side of the figure. */
  ghost predicate Quantile(latencies: seq<real>, p: real, x: real)
    requires latencies != []
  {
    && CountAtMost(latencies, x) >= Rank(|latencies|, p).Floor + 1
    && CountAtLeast(latencies, x) >= |latencies| - Ceil(Rank(|latencies|, p))
  }

  /** What a result says: its error is that of the first attempt that fails, and its figures are the median and the 95th
      percentile of the latencies before it; none of either is 0. */
  lemma ResultExactly(check: Check, count: nat, network: Network)
    ensures exists n: nat, latencies ::
              && StopsAt(check, count, network, n) && LatenciesBefore(check, n, network, latencies)
              && var r := ResultOf(check, count, network);
              && Answers(r, check) && r.sourcePod == r.sourceIP == ""
              && r.success == (n == count) && r.error == (if n == count then "" else network(check, n).message)
              && r.p50 <= r.p95
              && if n == 0 then r.p50 == r.p95 == 0.0
                 else Quantile(latencies, 0.50, r.p50) && Quantile(latencies, 0.95, r.p95)
  {
    hide PercentileOf, Rank, CountAtMost, CountAtLeast;
    var n := FirstFailure(check, count, network);
    var latencies := Latencies(check, n, network);
    assert LatenciesBefore(check, n, network, latencies);
    PercentileMonotoneInP(latencies, 0.50, 0.95);
    if n == 0 {
      NoLatencies(latencies, 0.50);
      NoLatencies(latencies, 0.95);
    } else {
      PercentileMeaning(latencies, 0.50);
      PercentileMeaning(latencies, 0.95);
    }
    assert StopsAt(check, count, network, n);
  }

  lemma NoLatencies(latencies: seq<real>, p: real)
    requires latencies == []
    ensures PercentileOf(latencies, p) == 0.0
  {
  }

  /** The probe's own percentile, which truncates the rank; for a fraction `p` it is the analyzer's. */
  method ProbePercentile(values: array<real>, p: real) returns (r: real)
    requires 0.0 <= p <= 1.0
    ensures r == PercentileOf(values[..], p)
  {
    if values.Length == 0 {
      return 0.0;
    }
    var copied := new real[values.Length];
    forall i | 0 <= i < values.Length {
      copied[i] := values[i];
    }
    assert copied[..] == values[..];
    SortFloat64s(copied);
    if copied.Length == 1 {
      RankOfOne(p);
      return copied[0];
    }
    var count := copied.Length;
    var rank := Times(p, (count - 1) as real);
    assert rank == Rank(values.Length, p);
    CeilBounds(rank);
    var lower := rank.Floor;
    var upper := lower;
    if lower as real != rank {
      upper := upper + 1;
    }
    if upper >= count {
      upper := count - 1;
    }
    var weight := rank - lower as real;
    r := Mix(copied[lower], copied[upper], weight);
  }

  method RunCheck(check: Check, count: nat, network: Network) returns (result: Result)
    ensures result == ResultOf(check, count, network)
  {
    result := Result(check.id, "", "", check.sourceNode, check.targetPod, check.targetNode, check.targetService,
                     Text.ToUpper(check.protocol), check.address, check.port, check.path, check.targetIP,
                     check.serviceIP, true, "", 0.0, 0.0);
    var start := result;
    var latencies: seq<real> := [];
    var i := 0;
    while i < count
      invariant 0 <= i <= count
      invariant forall k | 0 <= k < i :: network(check, k).Ok?
      invariant latencies == Latencies(check, i, network)
      invariant result == start
    {
      var attempt := network(check, i);
      if attempt.Err? {
        result := result.(success := false, error := attempt.message);
        break;
      }
      latencies := latencies + [attempt.latency];
      i := i + 1;
    }
    assert i == FirstFailure(check, count, network);
    var samples := new real[|latencies|](k requires 0 <= k < |latencies| => latencies[k]);
    assert samples[..] == latencies;
    var p50 := ProbePercentile(samples, 0.50);
    var p95 := ProbePercentile(samples, 0.95);
    result := result.(p50 := p50, p95 := p95);
  }

  /** The program: one result per check, in order. */
  method RunProbe(node: string, checks: seq<Check>, count: int, network: Network) returns (report: Report)
    ensures report == ReportOf(node, checks, count, network)
    ensures AnswersAll(report, node, checks)
  {
    var times := count;
    if times <= 0 {
      times := 1;
    }
    report := Report(node, []);
    for i := 0 to |checks|
      invariant report.sourceNode == node && |report.results| == i
      invariant forall k | 0 <= k < i :: report.results[k] == ResultOf(checks[k], times, network)
    {
      var result := RunCheck(checks[i], times, network);
      report := report.(results := report.results + [result]);
    }
  }
}
