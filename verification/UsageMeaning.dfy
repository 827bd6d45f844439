/** What the figures of a usage window are, stated from the samples (internal/analyzer/resource_series.go). */
module UsageMeaning {
  import opened Percentiles
  import opened Usage

  // ----- units -----

  /** A figure is the least number of whole millicores or MiB that is not below the value. */
  lemma UnitsExactly(value: real, unit: Unit, n: int)
    ensures var one := if unit == Millicores then 0.001 else 1048576.0;
            InUnit(value, unit) == n <==> (n - 1) as real * one < value <= n as real * one
  {
    CeilBounds(Scaled(value, unit));
  }

  // ----- the mean -----

  lemma SumOne(x: real)
    ensures Sum([x]) == x
  {
  }

  /** How far each value is from `x`. */
  function Deviations(values: seq<real>, x: real): (r: seq<real>)
    ensures |r| == |values| && forall i | 0 <= i < |r| :: r[i] == values[i] - x
  {
    seq(|values|, i requires 0 <= i < |values| => values[i] - x)
  }

  lemma {:induction false} SumDeviations(values: seq<real>, x: real)
    ensures Sum(Deviations(values, x)) == Sum(values) - Times(|values| as real, x)
  {
    if values != [] {
      var last := |values| - 1;
      assert Deviations(values, x)[..last] == Deviations(values[..last], x);
      SumDeviations(values[..last], x);
      assert Times(|values| as real, x) == Times(last as real, x) + x;
    }
  }

  lemma OverTimes(total: real, n: nat)
    requires n > 0
    ensures Times(n as real, Over(total, n)) == total
  {
  }

  /** The average is the value from which the deviations cancel out, and the only one. */
  lemma MeanBalances(values: seq<real>, x: real)
    requires values != []
    ensures Sum(Deviations(values, x)) == 0.0 <==> x == AvgOf(values)
  {
    hide Times, Sum, Over;
    SumDeviations(values, x);
    OverTimes(Sum(values), |values|);
    if Times(|values| as real, x) == Sum(values) && x != AvgOf(values) {
      TimesTells(|values|, x, AvgOf(values));
    }
  }

  lemma TimesTells(n: nat, x: real, y: real)
    requires n > 0 && Times(n as real, x) == Times(n as real, y)
    ensures x == y
  {
    assert Times(n as real, x - y) == Times(n as real, x) - Times(n as real, y);
  }

  // ----- what a window contains -----

  lemma {:induction false} WindowConcat(a: seq<Sample>, b: seq<Sample>, start: int, end: int)
    ensures ValuesIn(a + b, start, end) == ValuesIn(a, start, end) + ValuesIn(b, start, end)
  {
    if b == [] {
      assert a + b == a;
    } else {
      var last := |b| - 1;
      assert (a + b)[..|a| + last] == a + b[..last];
      WindowConcat(a, b[..last], start, end);
    }
  }

  lemma WindowOfOne(s: Sample, start: int, end: int)
    ensures ValuesIn([s], start, end) == if start <= s.timestamp && s.timestamp <= end then [s.value] else []
  {
    assert [s][..0] == [];
  }

  /** The samples not older than so many days before `end`. */
  function NotBefore(samples: seq<Sample>, end: int, days: int): set<int> {
    set i | 0 <= i < |samples| && samples[i].timestamp >= end - 86400 * days
  }

  lemma {:induction false} NotBeforeCounts(samples: seq<Sample>, end: int, days: int)
    requires forall s | s in samples :: s.timestamp <= end
    ensures |ValuesIn(samples, end - 86400 * days, end)| == |NotBefore(samples, end, days)|
  {
    if samples == [] {
      assert NotBefore(samples, end, days) == {};
    } else {
      var last := |samples| - 1;
      var front := samples[..last];
      assert samples[last] in samples && forall s | s in front :: s in samples;
      NotBeforeCounts(front, end, days);
      assert NotBefore(samples, end, days)
          == NotBefore(front, end, days) + if samples[last].timestamp >= end - 86400 * days then {last} else {};
    }
  }

  function Most(a: int, b: int): int {
    if a >= b then a else b
  }

  /** The windows count the samples of the last 7 and 14 days, of the metric that has more of them; without a positive
      timestamp there are no windows. */
  lemma WindowCounts(cpu: seq<Sample>, memory: seq<Sample>)
    ensures var end, w := End(cpu, memory), WindowsOf(cpu, memory);
            if end == 0 then w == Windows(NO_WINDOW, NO_WINDOW, NO_WINDOW)
            else
              && w.current.sampleCount == 1
              && w.last7d.sampleCount == Most(|NotBefore(cpu, end, 7)|, |NotBefore(memory, end, 7)|)
              && w.last14d.sampleCount == Most(|NotBefore(cpu, end, 14)|, |NotBefore(memory, end, 14)|)
  {
    hide StatsOf, CurrentOf, ValuesIn, NotBefore, LatestTimestamp;
    var end := End(cpu, memory);
    if end != 0 {
      assert forall s | s in cpu :: s in cpu + memory;
      assert forall s | s in memory :: s in cpu + memory;
      NotBeforeCounts(cpu, end, 7);
      NotBeforeCounts(memory, end, 7);
      NotBeforeCounts(cpu, end, 14);
      NotBeforeCounts(memory, end, 14);
    }
  }
}
