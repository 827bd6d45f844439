/** When the guarantees about limits hold. `BuildUsageWindows` takes a latest timestamp of 0 for "no samples"
    (internal/analyzer/resource_series.go); the 14-day maximum is then 0 and a limit rests on its percentile alone
    (internal/analyzer/resource.go). With windows, a percentile matters only if about one
    in a hundred samples is older. */
module LimitConditions {
  import opened Text
  import Sorting
  import opened Percentiles
  import opened Usage
  import opened Recommend

  // ----- one metric of a profile -----

  function SamplesFor(p: Profile, unit: Unit): seq<Sample> {
    match unit
    case Millicores => p.cpuSamples
    case MiB => p.memorySamples
  }

  function LimitFor(p: Profile, policy: Policy, unit: Unit): int {
    match unit
    case Millicores => RecommendedFor(p, policy).cpuLimit
    case MiB => RecommendedFor(p, policy).memoryLimit
  }

  function LimitName(policy: Policy, unit: Unit): string {
    match unit
    case Millicores => policy.cpu.limitPercentile
    case MiB => policy.memory.limitPercentile
  }

  function WithLimitName(policy: Policy, unit: Unit, name: string): Policy {
    match unit
    case Millicores => policy.(cpu := policy.cpu.(limitPercentile := name))
    case MiB => policy.(memory := policy.memory.(limitPercentile := name))
  }

  /** The headroom over a sample that every language gets at least. */
  function Least(unit: Unit): real {
    match unit
    case Millicores => 1.2
    case MiB => 1.25
  }

  function EndOf(p: Profile): int {
    End(p.cpuSamples, p.memorySamples)
  }

  predicate Recent(p: Profile, s: Sample) {
    InWindow(s, EndOf(p) - FORTNIGHT, EndOf(p))
  }

  function Revalue(samples: seq<Sample>, values: seq<real>): (r: seq<Sample>)
    requires |values| == |samples|
    ensures |r| == |samples|
    ensures forall i | 0 <= i < |r| :: r[i] == Sample(samples[i].timestamp, values[i])
  {
    seq(|samples|, i requires 0 <= i < |samples| => Sample(samples[i].timestamp, values[i]))
  }

  /** The profile with other values of one metric at the same times. */
  function Revalued(p: Profile, unit: Unit, values: seq<real>): Profile
    requires |values| == |SamplesFor(p, unit)|
  {
    match unit
    case Millicores =>
      var samples := Revalue(p.cpuSamples, values);
      p.(cpuSamples := samples, cpuCores := values, usage := WindowsOf(samples, p.memorySamples))
    case MiB =>
      var samples := Revalue(p.memorySamples, values);
      p.(memorySamples := samples, memoryBytes := values, usage := WindowsOf(p.cpuSamples, samples))
  }

  lemma {:induction false} SameTimesSameLatest(a: seq<Sample>, b: seq<Sample>)
    requires |a| == |b| && forall i | 0 <= i < |a| :: a[i].timestamp == b[i].timestamp
    ensures LatestTimestamp(a) == LatestTimestamp(b)
  {
    if a != [] {
      SameTimesSameLatest(a[..|a| - 1], b[..|b| - 1]);
    }
  }

  lemma RevaluedBuilt(p: Profile, unit: Unit, values: seq<real>)
    requires Built(p) && |values| == |SamplesFor(p, unit)|
    ensures var q := Revalued(p, unit, values);
            && Built(q) && EndOf(q) == EndOf(p) && Values(SamplesFor(q, unit)) == values
            && SamplesFor(q, unit) == Revalue(SamplesFor(p, unit), values)
  {
    hide WindowsOf, LatestTimestamp;
    var q := Revalued(p, unit, values);
    SameTimesSameLatest(p.cpuSamples + p.memorySamples, q.cpuSamples + q.memorySamples);
    assert Values(SamplesFor(q, unit)) == values;
  }

  // ----- what a limit covers in any case -----

  lemma BaseCovers(base: int, scaled: real, unit: Unit, ratio: real, least: real, request: int)
    requires scaled <= base as real && ratio >= least >= 1.0
    ensures Times(scaled, least) <= Clamped(Round(ApplyHeadroom(base, ratio, 0), unit), request) as real
  {
    var need := ApplyHeadroom(base, ratio, 0);
    RoundUpBounds(need, StepAt(need, unit));
    if scaled > 0.0 {
      HeadroomCovers(base, ratio, least, 0, scaled);
    } else {
      ScaleMonotone(scaled, 0.0, least);
    }
  }

  function LimitPercentileOf(p: Profile, policy: Policy, unit: Unit): real {
    PercentileOf(Values(SamplesFor(p, unit)), PercentileName(LimitName(policy, unit), "p99"))
  }

  /** Whatever the timestamps, a limit covers its own percentile with the least headroom, and so every sample up to it;
      that is at least floor(p(n-1))+1 of the n samples. */
  lemma LimitCoversPercentile(p: Profile, policy: Policy, unit: Unit)
    requires Built(p)
    ensures Times(Scaled(LimitPercentileOf(p, policy, unit), unit), Least(unit)) <= LimitFor(p, policy, unit) as real
    ensures forall s | s in SamplesFor(p, unit) && s.value <= LimitPercentileOf(p, policy, unit) ::
              Times(Scaled(s.value, unit), Least(unit)) <= LimitFor(p, policy, unit) as real
    ensures var values := Values(SamplesFor(p, unit));
            values != [] ==> CountAtMost(values, LimitPercentileOf(p, policy, unit))
                             >= Rank(|values|, PercentileName(LimitName(policy, unit), "p99")).Floor + 1
  {
    hide PercentileOf, PercentileName, ApplyHeadroom, Round, WindowsOf, Clamped, CountAtMost, Rank;
    var r := LimitPercentileOf(p, policy, unit);
    CeilBounds(Scaled(r, unit));
    match unit {
      case Millicores =>
        BaseCovers(Larger(InUnit(r, unit), p.usage.last14d.cpu.max), Scaled(r, unit), unit,
                   CpuLimitHeadroom(LanguageOf(p, policy), policy.cpu.limitHeadroom), 1.2,
                   RecommendedFor(p, policy).cpuRequest);
      case MiB =>
        BaseCovers(Larger(InUnit(r, unit), p.usage.last14d.memory.max), Scaled(r, unit), unit,
                   MemoryLimitHeadroom(LanguageOf(p, policy), policy.memory.limitHeadroom), 1.25,
                   RecommendedFor(p, policy).memoryRequest);
    }
    forall s | s in SamplesFor(p, unit) && s.value <= r
      ensures Times(Scaled(s.value, unit), Least(unit)) <= LimitFor(p, policy, unit) as real
    {
      ScaleMonotone(Scaled(s.value, unit), Scaled(r, unit), Least(unit));
    }
    if Values(SamplesFor(p, unit)) != [] {
      PercentileMeaning(Values(SamplesFor(p, unit)), PercentileName(LimitName(policy, unit), "p99"));
    }
  }

  // ----- values that climb -----

  /** A value worth 100000 whole units. */
  function Grid(unit: Unit): real {
    match unit
    case Millicores => 100.0
    case MiB => 104857600000.0
  }

  lemma GridScaled(x: real, unit: Unit)
    ensures Scaled(Times(x, Grid(unit)), unit) == 100000.0 * x
  {
  }

  /** 0, 1, .., n - 1 grid values. */
  function Climb(n: nat, unit: Unit): (r: seq<real>)
    ensures |r| == n
    ensures forall k | 0 <= k < n :: r[k] == Times(k as real, Grid(unit))
  {
    seq(n, k requires 0 <= k < n => Times(k as real, Grid(unit)))
  }

  lemma MixGrid(k: int, w: real, unit: Unit)
    ensures Mix(Times(k as real, Grid(unit)), Times((k + 1) as real, Grid(unit)), w) == Times(k as real + w, Grid(unit))
  {
    var g := Grid(unit);
    assert Times((k + 1) as real, g) == Times(k as real, g) + g;
    MixStep(Times(k as real, g), g, w);
    assert Times(k as real + w, g) == Times(k as real, g) + Times(w, g);
    assert Times(g, w) == Times(w, g);
  }

  lemma MixStep(x: real, d: real, w: real)
    ensures Mix(x, x + d, w) == x + Times(d, w)
  {
  }

  /** The percentiles of climbing values are their ranks. */
  lemma ClimbPercentile(n: nat, p: real, unit: Unit)
    requires n > 0
    ensures PercentileOf(Climb(n, unit), p) == Times(Rank(n, p), Grid(unit))
  {
    hide Times, Mix, Rank;
    var values, rank := Climb(n, unit), Rank(n, p);
    ClimbSorted(n, unit);
    Sorting.SortFixed(values, RealLe);
    CeilBounds(rank);
    if rank.Floor == Ceil(rank) {
      assert rank == rank.Floor as real;
    } else {
      MixGrid(rank.Floor, rank - rank.Floor as real, unit);
    }
  }

  lemma ClimbSorted(n: nat, unit: Unit)
    ensures Sorting.Sorted(Climb(n, unit), RealLe)
  {
    var values := Climb(n, unit);
    forall i, j | 0 <= i < j < n ensures RealLe(values[i], values[j]) {
      ScaleMonotone(i as real, j as real, Grid(unit));
    }
  }

  function Swapped(s: seq<real>, i: nat, j: nat): seq<real>
    requires i < |s| && j < |s|
  {
    s[i := s[j]][j := s[i]]
  }

  lemma SwappedContents(s: seq<real>, i: nat, j: nat)
    requires i < |s| && j < |s|
    ensures multiset(Swapped(s, i, j)) == multiset(s)
  {
  }

  // ----- a limit from climbing values without windows -----

  /** Percentile p50 for requests, `name` for limits, no configured headroom, the least minimum. */
  function Lenient(name: string): Policy {
    Policy(Rule("p50", name, 0.0, 0.0, 1), Rule("p50", name, 0.0, 0.0, 1), "", [])
  }

  lemma PercentileNames()
    ensures PercentileName("p50", "p99") == 0.50 && PercentileName("p99", "p99") == 0.99
    ensures PercentileName("p50", "p95") == 0.50
  {
    assert TrimSpace("p50") == "p50" && TrimSpace("p99") == "p99";
    assert ToLower("p50") == "p50" && ToLower("p99") == "p99";
  }

  lemma HeadroomBelow(x: int, ratio: real, minValue: int)
    requires x >= 0 && 0.0 <= ratio <= 1.5 && minValue <= 1
    ensures ApplyHeadroom(x, ratio, minValue) as real < 1.5 * x as real + 2.0
  {
    var r := if ratio <= 0.0 then 1.0 else ratio;
    assert Times(x as real, r) <= 1.5 * x as real by {
      assert Times(x as real, r) == Times(r, x as real);
      ScaleMonotone(r, 1.5, x as real);
    }
    CeilBounds(Times(x as real, r));
  }

  /** Without windows, a limit is at most one and a half times the larger of the two percentiles, up to one rounding. */
  lemma LimitBelow(x: int, y: int, unit: Unit, ratio: real, requestRatio: real, minValue: int)
    requires 0 < y <= x && 0.0 <= ratio <= 1.5 && 0.0 <= requestRatio <= 1.5 && minValue <= 1
    ensures Clamped(Round(ApplyHeadroom(x, ratio, 0), unit),
                    Round(ApplyHeadroom(y, requestRatio, minValue), unit)) as real
         < 1.5 * x as real + 130.0
  {
    hide ApplyHeadroom, Round;
    HeadroomBelow(x, ratio, 0);
    HeadroomBelow(y, requestRatio, minValue);
    RoundedBelow(ApplyHeadroom(x, ratio, 0), unit);
    RoundedBelow(ApplyHeadroom(y, requestRatio, minValue), unit);
  }

  lemma RoundedBelow(need: int, unit: Unit)
    ensures need <= Round(need, unit)
    ensures Round(need, unit) <= 0 || Round(need, unit) < need + 128
  {
    RoundUpBounds(need, StepAt(need, unit));
  }

  /** Without a positive timestamp there are no windows, so the median decides a p50 limit. */
  lemma MedianLimit(p: Profile, unit: Unit, values: seq<real>)
    requires Built(p) && EndOf(p) == 0 && |values| == |SamplesFor(p, unit)|
    requires InUnit(PercentileOf(values, 0.50), unit) > 0
    ensures LimitFor(Revalued(p, unit, values), Lenient("p50"), unit) as real
         < 1.5 * InUnit(PercentileOf(values, 0.50), unit) as real + 130.0
  {
    hide PercentileOf, PercentileName, ApplyHeadroom, Round, Clamped, InUnit, LatestTimestamp;
    var q, policy := Revalued(p, unit, values), Lenient("p50");
    RevaluedBuilt(p, unit, values);
    PercentileNames();
    var x, language := InUnit(PercentileOf(values, 0.50), unit), LanguageOf(q, policy);
    assert q.usage == Windows(NO_WINDOW, NO_WINDOW, NO_WINDOW);
    match unit {
      case Millicores => LimitBelow(x, x, unit, CpuLimitHeadroom(language, 0.0), 0.0, 1);
      case MiB => LimitBelow(x, x, unit, MemoryLimitHeadroom(language, 0.0), MemoryRequestHeadroom(language, 0.0), 1);
    }
  }

  /** The climbing values with the largest of them at a chosen place. */
  function ClimbTo(n: nat, top: nat, unit: Unit): seq<real>
    requires top < n
  {
    Swapped(Climb(n, unit), top, n - 1)
  }

  lemma PlainRank(n: nat, p: real)
    requires n > 0 && (p == 0.50 || p == 0.99)
    ensures Rank(n, p) == p * (n - 1) as real
  {
  }

  lemma ClimbToPercentile(n: nat, top: nat, p: real, unit: Unit)
    requires top < n && (p == 0.50 || p == 0.99)
    ensures |ClimbTo(n, top, unit)| == n
    ensures Scaled(PercentileOf(ClimbTo(n, top, unit), p), unit) == 100000.0 * p * (n - 1) as real
    ensures Scaled(ClimbTo(n, top, unit)[top], unit) == 100000.0 * (n - 1) as real
  {
    hide PercentileOf, Scaled, Grid, Rank, Times;
    assert Rank(n, p) == p * (n - 1) as real by { PlainRank(n, p); }
    SwappedContents(Climb(n, unit), top, n - 1);
    PercentilePermutation(ClimbTo(n, top, unit), Climb(n, unit), p);
    ClimbPercentile(n, p, unit);
    GridScaled(Rank(n, p), unit);
    GridScaled((n - 1) as real, unit);
  }

  lemma ClimbMedian(n: nat, top: nat, unit: Unit)
    requires top < n
    ensures InUnit(PercentileOf(ClimbTo(n, top, unit), 0.50), unit) == 50000 * (n - 1)
  {
    hide PercentileOf, Scaled, ClimbTo;
    ClimbToPercentile(n, top, 0.50, unit);
    CeilBounds(Scaled(PercentileOf(ClimbTo(n, top, unit), 0.50), unit));
  }

  // ----- when the limit covers every recent sample -----

  /** The limit covers every sample of the last 14 days. */
  ghost predicate CoversRecent(p: Profile, policy: Policy, unit: Unit) {
    forall s | s in SamplesFor(p, unit) && Recent(p, s) ::
      Times(Scaled(s.value, unit), Least(unit)) <= LimitFor(p, policy, unit) as real
  }

  /** Whatever the values and the policy, the limit covers every sample of the last 14 days. */
  ghost predicate AlwaysCoversRecent(p: Profile, unit: Unit) {
    forall values: seq<real>, policy: Policy | |values| == |SamplesFor(p, unit)| ::
      CoversRecent(Revalued(p, unit, values), policy, unit)
  }

  lemma CoveredWithWindows(p: Profile, policy: Policy, unit: Unit)
    requires Built(p) && EndOf(p) > 0
    ensures CoversRecent(p, policy, unit)
  {
    hide RecommendedFor, LatestTimestamp, WindowsOf;
    forall s | s in SamplesFor(p, unit) && Recent(p, s)
      ensures Times(Scaled(s.value, unit), Least(unit)) <= LimitFor(p, policy, unit) as real
    {
      LimitsCoverSamples(p, policy, s);
    }
  }

  lemma OneSampleCovered(p: Profile, policy: Policy, unit: Unit)
    requires Built(p) && |SamplesFor(p, unit)| <= 1
    ensures CoversRecent(p, policy, unit)
  {
    hide RecommendedFor, LatestTimestamp, WindowsOf, PercentileName;
    if |SamplesFor(p, unit)| == 1 {
      var values := Values(SamplesFor(p, unit));
      LimitCoversPercentile(p, policy, unit);
      PercentileMeaning(values, PercentileName(LimitName(policy, unit), "p99"));
      assert LimitPercentileOf(p, policy, unit) == values[0];
    }
  }

  lemma UncoveredExample(p: Profile, unit: Unit, i: nat)
    requires Built(p) && EndOf(p) == 0 && |SamplesFor(p, unit)| >= 2
    requires i < |SamplesFor(p, unit)| && Recent(p, SamplesFor(p, unit)[i])
    ensures !CoversRecent(Revalued(p, unit, ClimbTo(|SamplesFor(p, unit)|, i, unit)), Lenient("p50"), unit)
  {
    hide PercentileOf, ClimbTo, LimitFor, Scaled, LatestTimestamp, InUnit, WindowsOf;
    var n := |SamplesFor(p, unit)|;
    var values := ClimbTo(n, i, unit);
    ClimbToPercentile(n, i, 0.50, unit);
    ClimbMedian(n, i, unit);
    MedianLimit(p, unit, values);
    RevaluedBuilt(p, unit, values);
    var q := Revalued(p, unit, values);
    var s := SamplesFor(q, unit)[i];
    assert s in SamplesFor(q, unit) && Recent(q, s) && s.value == values[i];
    assert Times(Scaled(s.value, unit), Least(unit)) >= 120000.0 * (n - 1) as real;
  }

  /** For given timestamps, the limit covers every sample of the last 14 days for all values and policies if and only if
      some timestamp of the container is positive, or the metric has at most one sample, or none of the last 14 days. */
  lemma CoverageExactly(p: Profile, unit: Unit)
    requires Built(p)
    ensures AlwaysCoversRecent(p, unit)
            <==> EndOf(p) > 0 || |SamplesFor(p, unit)| <= 1 || forall s | s in SamplesFor(p, unit) :: !Recent(p, s)
  {
    hide CoversRecent, LatestTimestamp, WindowsOf, ClimbTo;
    var samples := SamplesFor(p, unit);
    if EndOf(p) > 0 || |samples| <= 1 || forall s | s in samples :: !Recent(p, s) {
      forall values: seq<real>, policy: Policy | |values| == |samples|
        ensures CoversRecent(Revalued(p, unit, values), policy, unit)
      {
        var q := Revalued(p, unit, values);
        RevaluedBuilt(p, unit, values);
        if EndOf(p) > 0 {
          CoveredWithWindows(q, policy, unit);
        } else if |samples| <= 1 {
          OneSampleCovered(q, policy, unit);
        } else {
          NoneRecent(p, unit, values, policy);
        }
      }
    } else {
      var s :| s in samples && Recent(p, s);
      var i :| 0 <= i < |samples| && samples[i] == s;
      UncoveredExample(p, unit, i);
      ClimbToPercentile(|samples|, i, 0.50, unit);
    }
  }

  lemma NoneRecent(p: Profile, unit: Unit, values: seq<real>, policy: Policy)
    requires Built(p) && |values| == |SamplesFor(p, unit)| && forall s | s in SamplesFor(p, unit) :: !Recent(p, s)
    ensures CoversRecent(Revalued(p, unit, values), policy, unit)
  {
    hide RecommendedFor, LatestTimestamp, WindowsOf;
    RevaluedBuilt(p, unit, values);
    var q := Revalued(p, unit, values);
    forall s | s in SamplesFor(q, unit) ensures !Recent(q, s) {
      var i :| 0 <= i < |SamplesFor(q, unit)| && SamplesFor(q, unit)[i] == s;
      assert !Recent(p, SamplesFor(p, unit)[i]);
    }
  }

  // ----- when the limit percentile does not matter -----

  /** Whatever the values, the policy and the other name, the limit does not depend on the name of the limit
      percentile. */
  ghost predicate NameIrrelevant(p: Profile, unit: Unit) {
    forall values: seq<real>, policy: Policy, name: string | |values| == |SamplesFor(p, unit)| ::
      SameLimit(Revalued(p, unit, values), policy, WithLimitName(policy, unit, name), unit)
  }

  predicate SameLimit(p: Profile, policy: Policy, other: Policy, unit: Unit) {
    LimitFor(p, policy, unit) == LimitFor(p, other, unit)
  }

  /** At most about one in a hundred of the metric's samples is older than 14 days, or there is at most one. */
  predicate MostlyRecent(p: Profile, unit: Unit) {
    MostlyIn(SamplesFor(p, unit), EndOf(p) - FORTNIGHT, EndOf(p))
  }

  lemma NameIrrelevantWithWindows(p: Profile, policy: Policy, unit: Unit, name: string)
    requires Built(p) && EndOf(p) > 0 && MostlyRecent(p, unit)
    ensures SameLimit(p, policy, WithLimitName(policy, unit, name), unit)
  {
    hide PercentileOf, PercentileName, WindowsOf, ApplyHeadroom, Round, Larger, LatestTimestamp, Clamped, MostlyIn;
    match unit {
      case Millicores => CpuLimitPercentileIrrelevant(p, policy, WithLimitName(policy, unit, name));
      case MiB => MemoryLimitPercentileIrrelevant(p, policy, WithLimitName(policy, unit, name));
    }
  }

  lemma NameIrrelevantForOne(p: Profile, policy: Policy, unit: Unit, name: string)
    requires Built(p) && |SamplesFor(p, unit)| <= 1
    ensures SameLimit(p, policy, WithLimitName(policy, unit, name), unit)
  {
    hide PercentileOf, PercentileName, WindowsOf, ApplyHeadroom, Round, Larger, LatestTimestamp, Clamped;
    OnePercentile(Values(SamplesFor(p, unit)), PercentileName(LimitName(policy, unit), "p99"),
                  PercentileName(name, "p99"));
  }

  lemma {:induction false} SameTimesSameCount(a: seq<Sample>, b: seq<Sample>, start: int, end: int)
    requires |a| == |b| && forall i | 0 <= i < |a| :: a[i].timestamp == b[i].timestamp
    ensures |ValuesIn(a, start, end)| == |ValuesIn(b, start, end)|
  {
    if a != [] {
      SameTimesSameCount(a[..|a| - 1], b[..|b| - 1], start, end);
    }
  }

  lemma RevaluedRecent(p: Profile, unit: Unit, values: seq<real>)
    requires Built(p) && |values| == |SamplesFor(p, unit)|
    ensures MostlyRecent(Revalued(p, unit, values), unit) <==> MostlyRecent(p, unit)
  {
    hide LatestTimestamp, WindowsOf, Revalued, ValuesIn;
    RevaluedBuilt(p, unit, values);
    SameTimesSameCount(SamplesFor(p, unit), SamplesFor(Revalued(p, unit, values), unit), EndOf(p) - FORTNIGHT,
                       EndOf(p));
  }

  // ----- values that make it matter -----

  /** The grid values from `low` on. */
  function Span(low: int, n: nat, unit: Unit): (r: seq<real>)
    ensures |r| == n
    ensures forall k | 0 <= k < n :: r[k] == Times((low + k) as real, Grid(unit))
  {
    seq(n, k requires 0 <= k < n => Times((low + k) as real, Grid(unit)))
  }

  /** The samples in the window climb from 0, the others from `high`. */
  function Arranged(samples: seq<Sample>, start: int, end: int, high: nat, unit: Unit): (r: seq<real>)
    ensures |r| == |samples|
  {
    if samples == [] then []
    else
      var front, last := samples[..|samples| - 1], samples[|samples| - 1];
      var k := |ValuesIn(front, start, end)|;
      Arranged(front, start, end, high, unit)
      + [Times((if InWindow(last, start, end) then k else high + |front| - k) as real, Grid(unit))]
  }

  lemma SpanStep(low: int, n: nat, unit: Unit)
    ensures Span(low, n + 1, unit) == Span(low, n, unit) + [Times((low + n) as real, Grid(unit))]
  {
  }

  /** The values are the grid values below `k`, and `m` from `high` on. */
  ghost predicate Mixes(values: seq<real>, k: nat, high: nat, m: nat, unit: Unit) {
    multiset(values) == multiset(Span(0, k, unit)) + multiset(Span(high, m, unit))
  }

  lemma MixesMore(values: seq<real>, k: nat, high: nat, m: nat, unit: Unit)
    requires Mixes(values, k, high, m, unit)
    ensures Mixes(values + [Times(k as real, Grid(unit))], k + 1, high, m, unit)
    ensures Mixes(values + [Times((high + m) as real, Grid(unit))], k, high, m + 1, unit)
  {
    hide Grid, Times, Span;
    SpanStep(0, k, unit);
    SpanStep(high, m, unit);
  }

  lemma {:induction false} ArrangedContents(samples: seq<Sample>, start: int, end: int, high: nat, unit: Unit)
    ensures var k := |ValuesIn(samples, start, end)|;
            k <= |samples| && Mixes(Arranged(samples, start, end, high, unit), k, high, |samples| - k, unit)
  {
    hide Grid, Times, Mixes;
    if samples == [] {
      NothingMixes(high, unit);
    } else {
      var front := samples[..|samples| - 1];
      var k := |ValuesIn(front, start, end)|;
      ArrangedContents(front, start, end, high, unit);
      MixesMore(Arranged(front, start, end, high, unit), k, high, |front| - k, unit);
    }
  }

  lemma NothingMixes(high: nat, unit: Unit)
    ensures Mixes([], 0, high, 0, unit)
  {
    assert Span(0, 0, unit) == [] && Span(high, 0, unit) == [];
  }

  lemma SpansClimb(k: nat, n: nat, unit: Unit)
    requires k <= n
    ensures Span(0, k, unit) + Span(k, n - k, unit) == Climb(n, unit)
  {
    hide Grid, Times;
  }

  lemma {:induction false} ArrangedRecent(samples: seq<Sample>, start: int, end: int, high: nat, unit: Unit)
    ensures forall i | 0 <= i < |samples| && InWindow(samples[i], start, end) ::
              Arranged(samples, start, end, high, unit)[i]
                <= Times((|ValuesIn(samples, start, end)| - 1) as real, Grid(unit))
  {
    if samples != [] {
      var front, last := samples[..|samples| - 1], samples[|samples| - 1];
      ArrangedRecent(front, start, end, high, unit);
      var before, now := |ValuesIn(front, start, end)|, |ValuesIn(samples, start, end)|;
      ScaleMonotone((before - 1) as real, (now - 1) as real, Grid(unit));
    }
  }

  lemma {:induction false} RecentBelow(samples: seq<Sample>, start: int, end: int, x: real)
    requires forall i | 0 <= i < |samples| && InWindow(samples[i], start, end) :: samples[i].value <= x
    ensures forall v | v in ValuesIn(samples, start, end) :: v <= x
  {
    if samples != [] {
      RecentBelow(samples[..|samples| - 1], start, end, x);
    }
  }

  /** Values that put the older samples on top. */
  function Contrast(p: Profile, unit: Unit): (values: seq<real>)
    ensures |values| == |SamplesFor(p, unit)|
  {
    var samples, start, end := SamplesFor(p, unit), EndOf(p) - FORTNIGHT, EndOf(p);
    Arranged(samples, start, end, |ValuesIn(samples, start, end)|, unit)
  }

  lemma ContrastPercentile(p: Profile, unit: Unit, r: real)
    requires |SamplesFor(p, unit)| > 0 && (r == 0.50 || r == 0.99)
    ensures Scaled(PercentileOf(Contrast(p, unit), r), unit) == 100000.0 * r * (|SamplesFor(p, unit)| - 1) as real
  {
    hide PercentileOf, Scaled, Rank, Times, Grid, LatestTimestamp, ValuesIn, Arranged, Span, Climb;
    var samples, start, end := SamplesFor(p, unit), EndOf(p) - FORTNIGHT, EndOf(p);
    var n, k := |samples|, |ValuesIn(samples, start, end)|;
    ArrangedContents(samples, start, end, k, unit);
    SpansClimb(k, n, unit);
    PercentilePermutation(Contrast(p, unit), Climb(n, unit), r);
    ClimbPercentile(n, r, unit);
    GridScaled(Rank(n, r), unit);
    PlainRank(n, r);
  }

  function WindowFor(p: Profile, unit: Unit): Stats {
    match unit
    case Millicores => p.usage.last14d.cpu
    case MiB => p.usage.last14d.memory
  }

  /** The recent samples take the lowest values. */
  lemma ContrastRecent(p: Profile, unit: Unit)
    requires Built(p)
    ensures var recent :=
            ValuesIn(SamplesFor(Revalued(p, unit, Contrast(p, unit)), unit), EndOf(p) - FORTNIGHT, EndOf(p));
            && |recent| == |ValuesIn(SamplesFor(p, unit), EndOf(p) - FORTNIGHT, EndOf(p))|
            && forall v | v in recent :: v <= Times((|recent| - 1) as real, Grid(unit))
  {
    hide LatestTimestamp, Grid, Times, Arranged, Revalued, ValuesIn, Built;
    var values, start, end := Contrast(p, unit), EndOf(p) - FORTNIGHT, EndOf(p);
    var before, samples := SamplesFor(p, unit), SamplesFor(Revalued(p, unit, values), unit);
    RevaluedBuilt(p, unit, values);
    SameTimesSameCount(before, samples, start, end);
    var k := |ValuesIn(before, start, end)|;
    ArrangedRecent(before, start, end, k, unit);
    forall i | 0 <= i < |samples| && InWindow(samples[i], start, end)
      ensures samples[i].value <= Times((k - 1) as real, Grid(unit))
    {
      assert InWindow(before[i], start, end);
    }
    RecentBelow(samples, start, end, Times((k - 1) as real, Grid(unit)));
  }

  /** The 14-day maximum stays clearly below the 99th percentile. */
  lemma ContrastWindow(p: Profile, unit: Unit)
    requires Built(p) && |SamplesFor(p, unit)| >= 2 && (EndOf(p) == 0 || !MostlyRecent(p, unit))
    ensures var w := WindowFor(Revalued(p, unit, Contrast(p, unit)), unit);
            w.avg <= w.max <= 99000 * (|SamplesFor(p, unit)| - 1) - 1000
  {
    hide LatestTimestamp, Revalued, Contrast, ValuesIn, StatsOf, Built, WindowFor, MostlyRecent, EndOf, Grid, Times;
    var q := Revalued(p, unit, Contrast(p, unit));
    RevaluedBuilt(p, unit, Contrast(p, unit));
    if EndOf(p) > 0 {
      ContrastRecent(p, unit);
      WindowOfMetric(q, unit);
      FewRecent(p, unit);
      RecentMaximum(ValuesIn(SamplesFor(q, unit), EndOf(p) - FORTNIGHT, EndOf(p)), unit);
    } else {
      EndNotNegative(p);
      NoWindow(q, unit);
    }
  }

  lemma FewRecent(p: Profile, unit: Unit)
    requires |SamplesFor(p, unit)| >= 2 && !MostlyRecent(p, unit)
    ensures 100 * (|ValuesIn(SamplesFor(p, unit), EndOf(p) - FORTNIGHT, EndOf(p))| - 1)
         <= 99 * (|SamplesFor(p, unit)| - 1) - 1
  {
  }

  lemma EndNotNegative(p: Profile)
    ensures EndOf(p) >= 0
  {
  }

  lemma NoWindow(p: Profile, unit: Unit)
    requires Built(p) && EndOf(p) == 0
    ensures WindowFor(p, unit) == NO_STATS
  {
    hide LatestTimestamp;
  }

  lemma WindowOfMetric(p: Profile, unit: Unit)
    requires Built(p) && EndOf(p) > 0
    ensures WindowFor(p, unit) == StatsOf(ValuesIn(SamplesFor(p, unit), EndOf(p) - FORTNIGHT, EndOf(p)), unit)
  {
    hide LatestTimestamp, StatsOf, ValuesIn, CurrentOf;
  }

  lemma RecentMaximum(recent: seq<real>, unit: Unit)
    requires forall v | v in recent :: v <= Times((|recent| - 1) as real, Grid(unit))
    ensures StatsOf(recent, unit).avg <= StatsOf(recent, unit).max
    ensures StatsOf(recent, unit).max <= if recent == [] then 0 else 100000 * (|recent| - 1)
  {
    hide Grid, Times, Sum;
    if recent != [] {
      AvgBetween(recent);
      InUnitMonotone(AvgOf(recent), MaxOf(recent), unit);
      InUnitMonotone(MaxOf(recent), Times((|recent| - 1) as real, Grid(unit)), unit);
      GridScaled((|recent| - 1) as real, unit);
      CeilBounds(Scaled(Times((|recent| - 1) as real, Grid(unit)), unit));
    } else {
      CeilBounds(0.0);
    }
  }

  /** Bases that lie far enough apart give different limits, with the same headroom and a request that exceeds
      neither. */
  lemma LimitsApart(x: int, y: int, z: int, unit: Unit, ratio: real, requestRatio: real, minValue: int)
    requires x > 0 && y >= x + 1000 && z <= x && 1.2 <= ratio && requestRatio <= ratio && minValue <= 1
    ensures var request := Round(ApplyHeadroom(z, requestRatio, minValue), unit);
            Clamped(Round(ApplyHeadroom(x, ratio, 0), unit), request)
              < Clamped(Round(ApplyHeadroom(y, ratio, 0), unit), request)
  {
    hide Round, Times, Ceil;
    var r := if requestRatio <= 0.0 then 1.0 else requestRatio;
    var low, high, need := ApplyHeadroom(x, ratio, 0), ApplyHeadroom(y, ratio, 0),
      ApplyHeadroom(z, requestRatio, minValue);
    CeilBounds(Times(x as real, ratio));
    CeilBounds(Times(y as real, ratio));
    ScaleMonotone((x + 1000) as real, y as real, ratio);
    TimesShift(x, ratio);
    ScaleMonotone(1.0, x as real, ratio);
    assert low >= 1 && high >= low + 1199;
    ScaleMonotone(z as real, x as real, r);
    TimesCommutes(x as real, r);
    TimesCommutes(x as real, ratio);
    ScaleMonotone(r, ratio, x as real);
    CeilMonotone(Times(z as real, r), Times(x as real, ratio));
    assert need <= low;
    RoundMonotone(need, low, unit);
    RoundedBelow(low, unit);
    RoundedBelow(high, unit);
  }

  lemma TimesShift(x: int, ratio: real)
    ensures Times((x + 1000) as real, ratio) == Times(x as real, ratio) + 1000.0 * ratio
    ensures Times(1.0, ratio) == ratio
  {
  }

  lemma TimesCommutes(a: real, b: real)
    ensures Times(a, b) == Times(b, a)
  {
  }

  lemma RequestHeadroomSmaller(language: string)
    ensures MemoryRequestHeadroom(language, 0.0) <= MemoryLimitHeadroom(language, 0.0)
    ensures CpuLimitHeadroom(language, 0.0) >= 1.2 && MemoryLimitHeadroom(language, 0.0) >= 1.2
  {
  }

  /** p50 and p99 give different limits. */
  lemma NameMattersExample(p: Profile, unit: Unit)
    requires Built(p) && |SamplesFor(p, unit)| >= 2 && (EndOf(p) == 0 || !MostlyRecent(p, unit))
    ensures !SameLimit(Revalued(p, unit, Contrast(p, unit)), Lenient("p50"), WithLimitName(Lenient("p50"), unit, "p99"),
                       unit)
  {
    hide PercentileOf, Contrast, LatestTimestamp, WindowsOf, PercentileName, Round, ApplyHeadroom, Clamped, Scaled,
         CpuLimitHeadroom, MemoryLimitHeadroom, MemoryRequestHeadroom, MostlyIn;
    var n, values := |SamplesFor(p, unit)|, Contrast(p, unit);
    var q := Revalued(p, unit, values);
    RevaluedBuilt(p, unit, values);
    ContrastPercentile(p, unit, 0.50);
    ContrastPercentile(p, unit, 0.99);
    CeilBounds(Scaled(PercentileOf(values, 0.50), unit));
    CeilBounds(Scaled(PercentileOf(values, 0.99), unit));
    var w := WindowFor(q, unit);
    ContrastWindow(p, unit);
    PercentileNames();
    var language := LanguageOf(q, Lenient("p50"));
    RequestHeadroomSmaller(language);
    var x, y, z := Larger(InUnit(PercentileOf(values, 0.50), unit), w.max),
      Larger(InUnit(PercentileOf(values, 0.99), unit), w.max), Larger(InUnit(PercentileOf(values, 0.50), unit), w.avg);
    assert y >= x + 1000 && z <= x && x > 0;
    match unit {
      case Millicores => LimitsApart(x, y, z, unit, CpuLimitHeadroom(language, 0.0), 0.0, MinMillicores(1));
      case MiB => LimitsApart(x, y, z, unit, MemoryLimitHeadroom(language, 0.0), MemoryRequestHeadroom(language, 0.0),
                              MinMiB(1));
    }
  }

  /** For given timestamps, the name of the limit percentile is irrelevant for all values and policies if and only if
      there is at most one sample, or some timestamp of the container is positive and at most about one in a hundred of
      the metric's samples is older than 14 days. */
  lemma NameIrrelevantExactly(p: Profile, unit: Unit)
    requires Built(p)
    ensures NameIrrelevant(p, unit) <==> |SamplesFor(p, unit)| <= 1 || (EndOf(p) > 0 && MostlyRecent(p, unit))
  {
    hide SameLimit, LatestTimestamp, WindowsOf, Contrast, MostlyRecent, Revalued;
    var samples := SamplesFor(p, unit);
    if |samples| <= 1 || (EndOf(p) > 0 && MostlyRecent(p, unit)) {
      forall values: seq<real>, policy: Policy, name: string | |values| == |samples|
        ensures SameLimit(Revalued(p, unit, values), policy, WithLimitName(policy, unit, name), unit)
      {
        var q := Revalued(p, unit, values);
        RevaluedBuilt(p, unit, values);
        RevaluedRecent(p, unit, values);
        if |samples| <= 1 {
          NameIrrelevantForOne(q, policy, unit, name);
        } else {
          NameIrrelevantWithWindows(q, policy, unit, name);
        }
      }
    } else {
      NameMattersExample(p, unit);
    }
  }

  // ----- an instance -----

  /** A container with three CPU samples, all at time 0. */
  function AtTimeZero(): Profile {
    var samples := [Sample(0, 0.0), Sample(0, 0.0), Sample(0, 1.0)];
    Profile("ns", "Pod", "web", "web", "app", "Go", [0.0, 0.0, 1.0], [], samples, [],
            Windows(NO_WINDOW, NO_WINDOW, NO_WINDOW), Resources(0, 0, 0, 0))
  }

  lemma MedianOfThree()
    ensures PercentileOf([0.0, 0.0, 1.0], 0.50) == 0.0
  {
    Sorting.SortFixed([0.0, 0.0, 1.0], RealLe);
  }

  lemma AtTimeZeroBuilt()
    ensures Built(AtTimeZero()) && EndOf(AtTimeZero()) == 0 && Values(AtTimeZero().cpuSamples) == [0.0, 0.0, 1.0]
  {
    var p := AtTimeZero();
    var all := p.cpuSamples + p.memorySamples;
    assert forall s | s in all :: s.timestamp == 0;
    assert Values(p.cpuSamples) == [0.0, 0.0, 1.0] && Values(p.memorySamples) == [];
  }

  lemma NothingNeedsNothing(ratio: real)
    ensures InUnit(0.0, Millicores) == 0 && ApplyHeadroom(0, ratio, 0) == 0 && Round(0, Millicores) == 0
  {
  }

  /** Its p50 limit is 0, which means no limit, although it has used a whole core. */
  lemma TimeZeroUncovered()
    ensures Built(AtTimeZero()) && RecommendedFor(AtTimeZero(), Lenient("p50")).cpuLimit == 0
    ensures !CoversRecent(AtTimeZero(), Lenient("p50"), Millicores)
  {
    hide ToLower, TrimSpace, PercentileName, PercentileOf, WindowsOf, LatestTimestamp, InUnit, ApplyHeadroom, Round,
         CpuLimitHeadroom;
    var p := AtTimeZero();
    AtTimeZeroBuilt();
    MedianOfThree();
    PercentileNames();
    NothingNeedsNothing(CpuLimitHeadroom(LanguageOf(p, Lenient("p50")), 0.0));
    assert p.cpuSamples[2] in p.cpuSamples && Recent(p, p.cpuSamples[2]);
  }
}
