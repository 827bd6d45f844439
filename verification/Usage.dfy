/** Usage windows over timestamped samples (internal/analyzer/resource_series.go): current value, last 7 days, last 14
    days, each as minimum, average and maximum in millicores and MiB. */
module Usage {
  import opened Percentiles

  datatype Sample = Sample(timestamp: int, value: real)

  datatype Stats = Stats(min: int, avg: int, max: int)

  datatype WindowStats = WindowStats(sampleCount: nat, cpu: Stats, memory: Stats)

  datatype Windows = Windows(current: WindowStats, last7d: WindowStats, last14d: WindowStats)

  const NO_STATS := Stats(0, 0, 0)
  const NO_WINDOW := WindowStats(0, NO_STATS, NO_STATS)
  const WEEK := 604800       // seconds in 7 days
  const FORTNIGHT := 1209600 // seconds in 14 days

  /** The unit a metric is reported in. */
  datatype Unit = Millicores | MiB

  /** Cores as millicores, bytes as MiB. */
  function Scaled(value: real, unit: Unit): real {
    match unit
    case Millicores => value * 1000.0
    case MiB => value / 1024.0 / 1024.0
  }

  /** `coresToMillicores` and `bytesToMiB`: whole units, rounded up. */
  function InUnit(value: real, unit: Unit): int {
    Ceil(Scaled(value, unit))
  }

  function Values(samples: seq<Sample>): (values: seq<real>)
    ensures |values| == |samples|
    ensures forall i | 0 <= i < |values| :: values[i] == samples[i].value
  {
    seq(|samples|, i requires 0 <= i < |samples| => samples[i].value)
  }

  // ----- specifications of the loops -----

  /** The largest timestamp, or 0 if none is positive. */
  function LatestTimestamp(samples: seq<Sample>): (latest: int)
    ensures latest >= 0
    ensures forall s | s in samples :: s.timestamp <= latest
    ensures latest > 0 ==> exists s :: s in samples && s.timestamp == latest
  {
    if samples == [] then 0
    else
      var before, last := LatestTimestamp(samples[..|samples| - 1]), samples[|samples| - 1];
      if last.timestamp > before then last.timestamp else before
  }

  predicate InWindow(s: Sample, start: int, end: int) {
    start <= s.timestamp <= end
  }

  /** The values of the samples in a window, in order. */
  function ValuesIn(samples: seq<Sample>, start: int, end: int): seq<real> {
    if samples == [] then []
    else
      var last := samples[|samples| - 1];
      ValuesIn(samples[..|samples| - 1], start, end) + if InWindow(last, start, end) then [last.value] else []
  }

  function Sum(values: seq<real>): real {
    if values == [] then 0.0 else Sum(values[..|values| - 1]) + values[|values| - 1]
  }

  function Over(total: real, n: nat): real
    requires n > 0
  {
    total / n as real
  }

  ghost predicate IsMin(m: real, values: seq<real>) {
    m in values && forall v | v in values :: m <= v
  }

  ghost predicate IsMax(m: real, values: seq<real>) {
    m in values && forall v | v in values :: v <= m
  }

  function MinOf(values: seq<real>): (m: real)
    ensures if values == [] then m == 0.0 else IsMin(m, values)
  {
    if |values| <= 1 then if values == [] then 0.0 else values[0]
    else
      var before, last := MinOf(values[..|values| - 1]), values[|values| - 1];
      assert values == values[..|values| - 1] + [last];
      if last < before then last else before
  }

  function MaxOf(values: seq<real>): (m: real)
    ensures if values == [] then m == 0.0 else IsMax(m, values)
  {
    if |values| <= 1 then if values == [] then 0.0 else values[0]
    else
      var before, last := MaxOf(values[..|values| - 1]), values[|values| - 1];
      assert values == values[..|values| - 1] + [last];
      if last > before then last else before
  }

  function AvgOf(values: seq<real>): real {
    if values == [] then 0.0 else Over(Sum(values), |values|)
  }

  function StatsOf(values: seq<real>, unit: Unit): Stats {
    Stats(InUnit(MinOf(values), unit), InUnit(AvgOf(values), unit), InUnit(MaxOf(values), unit))
  }

  /** The position of the last sample that carries the largest timestamp. */
  function LatestIndex(samples: seq<Sample>): (k: nat)
    requires samples != []
    ensures k < |samples|
    ensures forall i | 0 <= i < |samples| :: samples[i].timestamp <= samples[k].timestamp
    ensures forall i | k < i < |samples| :: samples[i].timestamp < samples[k].timestamp
  {
    if |samples| == 1 then 0
    else
      var last := |samples| - 1;
      var k := LatestIndex(samples[..last]);
      if samples[last].timestamp >= samples[k].timestamp then last else k
  }

  function CurrentOf(samples: seq<Sample>, unit: Unit): Stats {
    if samples == [] then NO_STATS
    else
      var value := InUnit(samples[LatestIndex(samples)].value, unit);
      Stats(value, value, value)
  }

  function WindowOf(cpu: seq<Sample>, memory: seq<Sample>, start: int, end: int): WindowStats {
    var cpuValues, memoryValues := ValuesIn(cpu, start, end), ValuesIn(memory, start, end);
    WindowStats(if |cpuValues| > |memoryValues| then |cpuValues| else |memoryValues|,
                StatsOf(cpuValues, Millicores), StatsOf(memoryValues, MiB))
  }

  function End(cpu: seq<Sample>, memory: seq<Sample>): int {
    LatestTimestamp(cpu + memory)
  }

  function WindowsOf(cpu: seq<Sample>, memory: seq<Sample>): Windows {
    var end := End(cpu, memory);
    if end == 0 then Windows(NO_WINDOW, NO_WINDOW, NO_WINDOW)
    else
      Windows(WindowStats(if cpu != [] || memory != [] then 1 else 0,
                          CurrentOf(cpu, Millicores), CurrentOf(memory, MiB)),
              WindowOf(cpu, memory, end - WEEK, end),
              WindowOf(cpu, memory, end - FORTNIGHT, end))
  }

  // ----- the loops -----

  method LatestTimestampOf(cpu: seq<Sample>, memory: seq<Sample>) returns (latest: int)
    ensures latest == End(cpu, memory)
  {
    latest := 0;
    var samples := cpu + memory;
    for i := 0 to |samples|
      invariant latest == LatestTimestamp(samples[..i])
    {
      assert samples[..i + 1][..i] == samples[..i];
      if samples[i].timestamp > latest {
        latest := samples[i].timestamp;
      }
    }
    assert samples[..|samples|] == samples;
  }

  method LatestSample(samples: seq<Sample>) returns (latest: Sample, found: bool)
    ensures found <==> samples != []
    ensures found ==> latest == samples[LatestIndex(samples)]
  {
    if |samples| == 0 {
      return Sample(0, 0.0), false;
    }
    latest, found := samples[0], true;
    for i := 1 to |samples|
      invariant latest == samples[LatestIndex(samples[..i])]
    {
      assert samples[..i + 1][..i] == samples[..i];
      if samples[i].timestamp >= latest.timestamp {
        latest := samples[i];
      }
    }
    assert samples[..|samples|] == samples;
  }

  method ValuesInWindow(samples: seq<Sample>, start: int, end: int) returns (values: seq<real>)
    ensures values == ValuesIn(samples, start, end)
  {
    values := [];
    for i := 0 to |samples|
      invariant values == ValuesIn(samples[..i], start, end)
    {
      assert samples[..i + 1][..i] == samples[..i];
      if samples[i].timestamp >= start && samples[i].timestamp <= end {
        values := values + [samples[i].value];
      }
    }
    assert samples[..|samples|] == samples;
  }

  method MinAvgMax(values: seq<real>) returns (minValue: real, avgValue: real, maxValue: real)
    ensures values == [] ==> minValue == avgValue == maxValue == 0.0
    ensures values != [] ==> IsMin(minValue, values) && IsMax(maxValue, values)
    ensures minValue == MinOf(values) && avgValue == AvgOf(values) && maxValue == MaxOf(values)
  {
    if |values| == 0 {
      return 0.0, 0.0, 0.0;
    }
    minValue, maxValue := values[0], values[0];
    var sum := 0.0;
    for i := 0 to |values|
      invariant i > 0 ==> minValue == MinOf(values[..i]) && maxValue == MaxOf(values[..i])
      invariant i == 0 ==> minValue == maxValue == values[0]
      invariant sum == Sum(values[..i])
    {
      assert values[..i + 1][..i] == values[..i];
      if values[i] < minValue {
        minValue := values[i];
      }
      if values[i] > maxValue {
        maxValue := values[i];
      }
      sum := sum + values[i];
    }
    assert values[..|values|] == values;
    avgValue := Over(sum, |values|);
  }

  method CurrentUsageStats(cpu: seq<Sample>, memory: seq<Sample>) returns (stats: WindowStats)
    ensures stats == WindowStats(if cpu != [] || memory != [] then 1 else 0,
                                 CurrentOf(cpu, Millicores), CurrentOf(memory, MiB))
  {
    var cpuSample, hasCPU := LatestSample(cpu);
    var memorySample, hasMemory := LatestSample(memory);
    stats := NO_WINDOW;
    if hasCPU || hasMemory {
      stats := stats.(sampleCount := 1);
    }
    if hasCPU {
      var value := InUnit(cpuSample.value, Millicores);
      stats := stats.(cpu := Stats(value, value, value));
    }
    if hasMemory {
      var value := InUnit(memorySample.value, MiB);
      stats := stats.(memory := Stats(value, value, value));
    }
  }

  method WindowUsageStats(cpu: seq<Sample>, memory: seq<Sample>, start: int, end: int) returns (stats: WindowStats)
    ensures stats == WindowOf(cpu, memory, start, end)
  {
    var cpuValues := ValuesInWindow(cpu, start, end);
    var memoryValues := ValuesInWindow(memory, start, end);
    var cpuMin, cpuAvg, cpuMax := MinAvgMax(cpuValues);
    var memoryMin, memoryAvg, memoryMax := MinAvgMax(memoryValues);
    stats := WindowStats(if |cpuValues| > |memoryValues| then |cpuValues| else |memoryValues|,
                         Stats(InUnit(cpuMin, Millicores), InUnit(cpuAvg, Millicores), InUnit(cpuMax, Millicores)),
                         Stats(InUnit(memoryMin, MiB), InUnit(memoryAvg, MiB), InUnit(memoryMax, MiB)));
  }

  method BuildUsageWindows(cpu: seq<Sample>, memory: seq<Sample>) returns (windows: Windows)
    ensures windows == WindowsOf(cpu, memory)
  {
    hide WindowOf, CurrentOf, LatestTimestamp;
    var end := LatestTimestampOf(cpu, memory);
    if end == 0 {
      return Windows(NO_WINDOW, NO_WINDOW, NO_WINDOW);
    }
    var current := CurrentUsageStats(cpu, memory);
    var last7d := WindowUsageStats(cpu, memory, end - WEEK, end);
    var last14d := WindowUsageStats(cpu, memory, end - FORTNIGHT, end);
    windows := Windows(current, last7d, last14d);
  }

  // ----- windows nest -----

  lemma InUnitMonotone(a: real, b: real, unit: Unit)
    requires a <= b
    ensures InUnit(a, unit) <= InUnit(b, unit)
  {
  }

  lemma OverMonotone(a: real, b: real, n: nat)
    requires n > 0 && a <= b
    ensures Over(a, n) <= Over(b, n)
  {
  }

  lemma OverScaled(m: real, n: nat)
    requires n > 0
    ensures Over(Times(m, n as real), n) == m
  {
  }

  lemma TimesNext(m: real, n: nat)
    ensures Times(m, (n + 1) as real) == Times(m, n as real) + m
  {
    assert (n + 1) as real == n as real + 1.0;
  }

  lemma {:induction false} SumBounds(values: seq<real>, lo: real, hi: real)
    requires forall v | v in values :: lo <= v <= hi
    ensures Times(lo, |values| as real) <= Sum(values) <= Times(hi, |values| as real)
  {
    if values != [] {
      var last := |values| - 1;
      assert values[last] in values;
      assert forall v | v in values[..last] :: v in values;
      SumBounds(values[..last], lo, hi);
      TimesNext(lo, last);
      TimesNext(hi, last);
    }
  }

  lemma AvgBetween(values: seq<real>)
    requires values != []
    ensures MinOf(values) <= AvgOf(values) <= MaxOf(values)
  {
    var n, lo, hi := |values|, MinOf(values), MaxOf(values);
    SumBounds(values, lo, hi);
    OverMonotone(Times(lo, n as real), Sum(values), n);
    OverMonotone(Sum(values), Times(hi, n as real), n);
    OverScaled(lo, n);
    OverScaled(hi, n);
  }

  lemma {:induction false} ValuesInHas(samples: seq<Sample>, s: Sample, start: int, end: int)
    requires s in samples && InWindow(s, start, end)
    ensures s.value in ValuesIn(samples, start, end)
  {
    var last := |samples| - 1;
    if s != samples[last] {
      assert s in samples[..last];
      ValuesInHas(samples[..last], s, start, end);
    }
  }

  ghost predicate Includes(outer: seq<real>, inner: seq<real>) {
    forall i | 0 <= i < |inner| :: inner[i] in outer
  }

  lemma {:induction false} WindowSubset(samples: seq<Sample>, start: int, earlier: int, end: int)
    requires earlier <= start
    ensures |ValuesIn(samples, start, end)| <= |ValuesIn(samples, earlier, end)|
    ensures Includes(ValuesIn(samples, earlier, end), ValuesIn(samples, start, end))
  {
    if samples != [] {
      WindowSubset(samples[..|samples| - 1], start, earlier, end);
    }
  }

  /** One metric's statistics over a window are ordered, and those of a longer window enclose them. */
  ghost predicate Nested(inner: Stats, outer: Stats) {
    outer.min <= inner.min <= inner.avg <= inner.max <= outer.max
  }

  lemma StatsNested(samples: seq<Sample>, end: int, unit: Unit)
    requires ValuesIn(samples, end - WEEK, end) != []
    ensures Nested(StatsOf(ValuesIn(samples, end - WEEK, end), unit),
                   StatsOf(ValuesIn(samples, end - FORTNIGHT, end), unit))
  {
    var inner, outer := ValuesIn(samples, end - WEEK, end), ValuesIn(samples, end - FORTNIGHT, end);
    WindowSubset(samples, end - WEEK, end - FORTNIGHT, end);
    assert inner[0] in outer;
    assert MinOf(inner) in outer && MaxOf(inner) in outer;
    AvgBetween(inner);
    InUnitMonotone(MinOf(outer), MinOf(inner), unit);
    InUnitMonotone(MinOf(inner), AvgOf(inner), unit);
    InUnitMonotone(AvgOf(inner), MaxOf(inner), unit);
    InUnitMonotone(MaxOf(inner), MaxOf(outer), unit);
  }

  /** The metric's latest sample is the latest of all. */
  predicate HasLatest(samples: seq<Sample>, end: int) {
    samples != [] && samples[LatestIndex(samples)].timestamp == end
  }

  lemma CurrentWithin(samples: seq<Sample>, end: int, unit: Unit)
    requires HasLatest(samples, end)
    ensures var current := CurrentOf(samples, unit);
            var week := StatsOf(ValuesIn(samples, end - WEEK, end), unit);
            current.min == current.avg == current.max && week.min <= current.avg <= week.max
  {
    var latest := samples[LatestIndex(samples)];
    var values := ValuesIn(samples, end - WEEK, end);
    ValuesInHas(samples, latest, end - WEEK, end);
    InUnitMonotone(MinOf(values), latest.value, unit);
    InUnitMonotone(latest.value, MaxOf(values), unit);
  }

  /** One metric over the windows ending at `end`: the 7 day window nests in the 14 day window, and a current value
      taken at `end` lies within the 7 day range. */
  ghost predicate MetricNests(samples: seq<Sample>, end: int, current: Stats, week: Stats, fortnight: Stats) {
    && (ValuesIn(samples, end - WEEK, end) != [] ==> Nested(week, fortnight))
    && (HasLatest(samples, end) ==> current.min == current.avg == current.max && week.min <= current.avg <= week.max)
  }

  lemma MetricNest(samples: seq<Sample>, end: int, unit: Unit)
    ensures MetricNests(samples, end, CurrentOf(samples, unit), StatsOf(ValuesIn(samples, end - WEEK, end), unit),
                        StatsOf(ValuesIn(samples, end - FORTNIGHT, end), unit))
  {
    if ValuesIn(samples, end - WEEK, end) != [] {
      StatsNested(samples, end, unit);
    }
    if HasLatest(samples, end) {
      CurrentWithin(samples, end, unit);
    }
  }

  lemma LatestHolds(samples: seq<Sample>, latest: Sample)
    requires latest in samples && forall s | s in samples :: s.timestamp <= latest.timestamp
    ensures HasLatest(samples, latest.timestamp)
  {
    var i :| 0 <= i < |samples| && samples[i] == latest;
    assert samples[LatestIndex(samples)] in samples;
  }

  lemma SomeMetricHasLatest(cpu: seq<Sample>, memory: seq<Sample>)
    requires End(cpu, memory) > 0
    ensures HasLatest(cpu, End(cpu, memory)) || HasLatest(memory, End(cpu, memory))
  {
    var all := cpu + memory;
    var latest :| latest in all && latest.timestamp == End(cpu, memory);
    forall s | s in cpu || s in memory ensures s.timestamp <= latest.timestamp {
      assert s in all;
    }
    LatestHolds(if latest in cpu then cpu else memory, latest);
  }

  /** The windows of a container nest for both metrics, sample counts included; if some timestamp is positive, the
      current value of at least one metric is taken at the end of the windows. */
  lemma WindowsNest(cpu: seq<Sample>, memory: seq<Sample>)
    ensures var end, w := End(cpu, memory), WindowsOf(cpu, memory);
            && w.last7d.sampleCount <= w.last14d.sampleCount
            && MetricNests(cpu, end, w.current.cpu, w.last7d.cpu, w.last14d.cpu)
            && MetricNests(memory, end, w.current.memory, w.last7d.memory, w.last14d.memory)
            && (end > 0 ==> HasLatest(cpu, end) || HasLatest(memory, end))
  {
    var end := End(cpu, memory);
    if end > 0 {
      hide StatsOf, CurrentOf, LatestTimestamp;
      WindowSubset(cpu, end - WEEK, end - FORTNIGHT, end);
      WindowSubset(memory, end - WEEK, end - FORTNIGHT, end);
      MetricNest(cpu, end, Millicores);
      MetricNest(memory, end, MiB);
      SomeMetricHasLatest(cpu, memory);
    }
  }

  // ----- raising samples -----

  /** The same timestamps with values that are nowhere lower. */
  ghost predicate Raised(a: seq<Sample>, b: seq<Sample>) {
    |a| == |b| && forall i | 0 <= i < |a| :: a[i].timestamp == b[i].timestamp && a[i].value <= b[i].value
  }

  lemma {:induction false} RaisedTimestamp(a: seq<Sample>, b: seq<Sample>)
    requires Raised(a, b)
    ensures LatestTimestamp(a) == LatestTimestamp(b)
  {
    if a != [] {
      RaisedTimestamp(a[..|a| - 1], b[..|b| - 1]);
    }
  }

  lemma {:induction false} RaisedValues(a: seq<Sample>, b: seq<Sample>, start: int, end: int)
    requires Raised(a, b)
    ensures Dominated(ValuesIn(a, start, end), ValuesIn(b, start, end))
  {
    if a != [] {
      var last := |a| - 1;
      RaisedValues(a[..last], b[..last], start, end);
      assert a[last].timestamp == b[last].timestamp && a[last].value <= b[last].value;
      var va, vb := ValuesIn(a[..last], start, end), ValuesIn(b[..last], start, end);
      assert Dominated(va, vb);
      if InWindow(a[last], start, end) {
        assert ValuesIn(a, start, end) == va + [a[last].value] && ValuesIn(b, start, end) == vb + [b[last].value];
      } else {
        assert ValuesIn(a, start, end) == va && ValuesIn(b, start, end) == vb;
      }
    }
  }

  lemma {:induction false} SumMonotone(a: seq<real>, b: seq<real>)
    requires Dominated(a, b)
    ensures Sum(a) <= Sum(b)
  {
    if a != [] {
      SumMonotone(a[..|a| - 1], b[..|b| - 1]);
    }
  }

  /** Raising samples raises the average and the maximum of a window. */
  lemma StatsMonotone(a: seq<real>, b: seq<real>, unit: Unit)
    requires Dominated(a, b)
    ensures StatsOf(a, unit).avg <= StatsOf(b, unit).avg && StatsOf(a, unit).max <= StatsOf(b, unit).max
  {
    if a != [] {
      SumMonotone(a, b);
      OverMonotone(Sum(a), Sum(b), |a|);
      InUnitMonotone(AvgOf(a), AvgOf(b), unit);
      var i :| 0 <= i < |a| && a[i] == MaxOf(a);
      assert b[i] in b;
      InUnitMonotone(MaxOf(a), MaxOf(b), unit);
    }
  }

  lemma RaisedEnd(cpu: seq<Sample>, cpu': seq<Sample>, memory: seq<Sample>, memory': seq<Sample>)
    requires Raised(cpu, cpu') && Raised(memory, memory')
    ensures End(cpu, memory) == End(cpu', memory')
  {
    RaisedTimestamp(cpu + memory, cpu' + memory');
  }

  /** No average and no maximum of the window is lower. */
  ghost predicate WindowNoLower(w: WindowStats, w': WindowStats) {
    && w.cpu.avg <= w'.cpu.avg && w.cpu.max <= w'.cpu.max
    && w.memory.avg <= w'.memory.avg && w.memory.max <= w'.memory.max
  }

  lemma WindowMonotone(cpu: seq<Sample>, cpu': seq<Sample>, memory: seq<Sample>, memory': seq<Sample>, start: int,
          end: int)
    requires Raised(cpu, cpu') && Raised(memory, memory')
    ensures WindowNoLower(WindowOf(cpu, memory, start, end), WindowOf(cpu', memory', start, end))
  {
    hide StatsOf;
    RaisedValues(cpu, cpu', start, end);
    RaisedValues(memory, memory', start, end);
    StatsMonotone(ValuesIn(cpu, start, end), ValuesIn(cpu', start, end), Millicores);
    StatsMonotone(ValuesIn(memory, start, end), ValuesIn(memory', start, end), MiB);
  }

  lemma WindowsAt(cpu: seq<Sample>, memory: seq<Sample>, end: int)
    requires end == End(cpu, memory)
    ensures WindowsOf(cpu, memory).last7d == if end == 0 then NO_WINDOW else WindowOf(cpu, memory, end - WEEK, end)
    ensures WindowsOf(cpu, memory).last14d
         == if end == 0 then NO_WINDOW else WindowOf(cpu, memory, end - FORTNIGHT, end)
  {
    hide End, WindowOf, CurrentOf;
  }

  /** Raising samples, at the same times, lowers no average and no maximum of either window. */
  lemma WindowsMonotone(cpu: seq<Sample>, cpu': seq<Sample>, memory: seq<Sample>, memory': seq<Sample>)
    requires Raised(cpu, cpu') && Raised(memory, memory')
    ensures WindowNoLower(WindowsOf(cpu, memory).last7d, WindowsOf(cpu', memory').last7d)
    ensures WindowNoLower(WindowsOf(cpu, memory).last14d, WindowsOf(cpu', memory').last14d)
  {
    assert WindowNoLower(NO_WINDOW, NO_WINDOW);
    hide WindowOf, WindowsOf, WindowNoLower, End, Raised;
    RaisedEnd(cpu, cpu', memory, memory');
    var end := End(cpu, memory);
    WindowsAt(cpu, memory, end);
    WindowsAt(cpu', memory', end);
    WindowMonotone(cpu, cpu', memory, memory', end - WEEK, end);
    WindowMonotone(cpu, cpu', memory, memory', end - FORTNIGHT, end);
  }
}
