/** What each recommended figure has to cover, and that it covers no more, stated without the steps that compute it
    (internal/analyzer/resource.go). */
module RecommendMeaning {
  import opened Text
  import opened Percentiles
  import opened Usage
  import opened Recommend

  // ----- what the settings mean -----

  const PERCENTILES: map<string, real> := map["p50" := 0.50, "p90" := 0.90, "p95" := 0.95, "p99" := 0.99]

  /** The name of a percentile, whatever its case and the white space around it. */
  predicate Known(name: string) {
    ToLower(TrimSpace(name)) in PERCENTILES
  }

  /** A configured name that is known counts, one of white space is p95; else the fallback counts if it is known; else
      it is p95. */
  lemma PercentileNameExactly(name: string, fallback: string)
    ensures PercentileName(name, fallback)
         == if Known(name) then PERCENTILES[ToLower(TrimSpace(name))]
            else if name != "" && TrimSpace(name) == "" then 0.95
            else if Known(fallback) then PERCENTILES[ToLower(TrimSpace(fallback))]
            else 0.95
  {
    FallbackName(fallback);
    hide TrimSpace, ToLower;
    PlainName();
    LowerEmpty(name);
  }

  lemma FallbackName(name: string)
    ensures PercentileName(name, "p95") == if Known(name) then PERCENTILES[ToLower(TrimSpace(name))] else 0.95
  {
    hide TrimSpace, ToLower;
    PlainName();
    LowerEmpty(name);
    assert PercentileName("p95", "p95") == 0.95;
  }

  lemma PlainName()
    ensures TrimSpace("p95") == "p95" && ToLower("p95") == "p95" && TrimSpace("") == "" && ToLower("") == ""
  {
  }

  lemma LowerEmpty(name: string)
    ensures ToLower(TrimSpace(name)) == "" <==> TrimSpace(name) == ""
  {
  }

  /** Headroom of CPU limits, memory requests and memory limits by runtime; other runtimes need less. */
  const HEADROOM: map<string, (real, real, real)> := map["java" := (1.5, 1.25, 1.5), "python" := (1.4, 1.2, 1.35)]

  function RuntimeHeadroom(language: string): (real, real, real) {
    if ToLower(language) in HEADROOM then HEADROOM[ToLower(language)] else (1.2, 1.1, 1.25)
  }

  function AtLeast(configured: real, least: real): real {
    if configured >= least then configured else least
  }

  /** A runtime gets its headroom, and more only if more is configured. */
  lemma HeadroomExactly(language: string, configured: real)
    ensures CpuLimitHeadroom(language, configured) == AtLeast(configured, RuntimeHeadroom(language).0)
    ensures MemoryRequestHeadroom(language, configured) == AtLeast(configured, RuntimeHeadroom(language).1)
    ensures MemoryLimitHeadroom(language, configured) == AtLeast(configured, RuntimeHeadroom(language).2)
  {
  }

  function PositiveOr(configured: int, default: int): int {
    if configured > 0 then configured else default
  }

  // ----- figures -----

  /** The least whole number that is at least the minimum and covers both values with the headroom. */
  predicate LeastCover(n: int, ratio: real, x: int, y: int, minimum: int) {
    && minimum <= n && Times(ratio, x as real) <= n as real && Times(ratio, y as real) <= n as real
    && (n == minimum || n as real < Times(ratio, x as real) + 1.0 || n as real < Times(ratio, y as real) + 1.0)
  }

  /** The least multiple of the step that is not below the need: steps of 10 millicores up to 100, then of 50; of 32 MiB
      up to 512, then of 128. */
  predicate LeastStep(value: int, need: int, unit: Unit) {
    var step := if unit == Millicores then (if need > 100 then 50 else 10) else if need > 512 then 128 else 32;
    value % step == 0 && if need > 0 then need <= value < need + step else value == 0
  }

  lemma BaseExactly(x: int, y: int, ratio: real, minimum: int, unit: Unit)
    ensures var need := ApplyHeadroom(Larger(x, y), ratio, minimum);
            LeastCover(need, if ratio > 0.0 then ratio else 1.0, x, y, minimum)
              && LeastStep(Round(need, unit), need, unit)
  {
    hide Round;
    var base, r := Larger(x, y), if ratio <= 0.0 then 1.0 else ratio;
    var need := ApplyHeadroom(base, ratio, minimum);
    CeilBounds(Times(base as real, r));
    Commutes(base as real, r);
    Commutes(x as real, r);
    Commutes(y as real, r);
    ScaleMonotone(x as real, base as real, r);
    ScaleMonotone(y as real, base as real, r);
    RoundExactly(need, unit);
  }

  lemma RoundExactly(need: int, unit: Unit)
    ensures LeastStep(Round(need, unit), need, unit)
  {
    RoundUpBounds(need, StepAt(need, unit));
  }

  lemma Commutes(a: real, b: real)
    ensures Times(a, b) == Times(b, a)
  {
  }

  /** The need behind a figure: from a percentile, a 14-day statistic, a headroom and a minimum. */
  ghost predicate Figure(value: int, ratio: real, percentile: int, statistic: int, minimum: int, unit: Unit) {
    exists n :: LeastCover(n, ratio, percentile, statistic, minimum) && LeastStep(value, n, unit)
  }

  /** A limit, which is raised to its request unless it is 0. */
  ghost predicate LimitFigure(value: int, ratio: real, percentile: int, statistic: int, request: int, unit: Unit) {
    exists v :: Figure(v, ratio, percentile, statistic, 0, unit) && value == if 0 < v < request then request else v
  }

  /** Each request is the least step that covers, with the headroom, its percentile and the 14-day average, and the
      configured minimum or 50 millicores and 64 MiB; a memory request gets the headroom of its runtime. */
  lemma RequestsExactly(p: Profile, policy: Policy)
    ensures var r := RecommendedFor(p, policy);
            var cpuPercentile := PercentileOf(p.cpuCores, PercentileName(policy.cpu.requestPercentile, "p95"));
            var memoryPercentile := PercentileOf(p.memoryBytes, PercentileName(policy.memory.requestPercentile, "p95"));
            var cpuRatio := if policy.cpu.requestHeadroom > 0.0 then policy.cpu.requestHeadroom else 1.0;
            && Figure(r.cpuRequest, cpuRatio, InUnit(cpuPercentile, Millicores), p.usage.last14d.cpu.avg,
                      PositiveOr(policy.cpu.minRequest, 50), Millicores)
            && Figure(r.memoryRequest, AtLeast(policy.memory.requestHeadroom, RuntimeHeadroom(LanguageOf(p, policy)).1),
                      InUnit(memoryPercentile, MiB), p.usage.last14d.memory.avg,
                      PositiveOr(policy.memory.minRequest, 64), MiB)
  {
    hide PercentileOf, PercentileName, LeastCover, LeastStep, ApplyHeadroom, Round, InUnit, MemoryRequestHeadroom;
    var cpuPercentile := PercentileOf(p.cpuCores, PercentileName(policy.cpu.requestPercentile, "p95"));
    var memoryPercentile := PercentileOf(p.memoryBytes, PercentileName(policy.memory.requestPercentile, "p95"));
    var language := LanguageOf(p, policy);
    HeadroomExactly(language, policy.memory.requestHeadroom);
    BaseExactly(InUnit(cpuPercentile, Millicores), p.usage.last14d.cpu.avg, policy.cpu.requestHeadroom,
                MinMillicores(policy.cpu.minRequest), Millicores);
    BaseExactly(InUnit(memoryPercentile, MiB), p.usage.last14d.memory.avg,
                MemoryRequestHeadroom(language, policy.memory.requestHeadroom), MinMiB(policy.memory.minRequest), MiB);
  }

  /** Each limit is the least step that covers, with the headroom of the runtime, its percentile and the 14-day maximum,
      or the request if that is more. */
  lemma LimitsExactly(p: Profile, policy: Policy)
    ensures var r, headroom := RecommendedFor(p, policy), RuntimeHeadroom(LanguageOf(p, policy));
            var cpuPercentile := PercentileOf(p.cpuCores, PercentileName(policy.cpu.limitPercentile, "p99"));
            var memoryPercentile := PercentileOf(p.memoryBytes, PercentileName(policy.memory.limitPercentile, "p99"));
            && LimitFigure(r.cpuLimit, AtLeast(policy.cpu.limitHeadroom, headroom.0), InUnit(cpuPercentile, Millicores),
                           p.usage.last14d.cpu.max, r.cpuRequest, Millicores)
            && LimitFigure(r.memoryLimit, AtLeast(policy.memory.limitHeadroom, headroom.2),
                           InUnit(memoryPercentile, MiB), p.usage.last14d.memory.max, r.memoryRequest, MiB)
  {
    hide PercentileOf, PercentileName, LeastCover, LeastStep, ApplyHeadroom, Round, InUnit, CpuLimitHeadroom,
         MemoryLimitHeadroom;
    var cpuPercentile := PercentileOf(p.cpuCores, PercentileName(policy.cpu.limitPercentile, "p99"));
    var memoryPercentile := PercentileOf(p.memoryBytes, PercentileName(policy.memory.limitPercentile, "p99"));
    var language := LanguageOf(p, policy);
    HeadroomExactly(language, policy.cpu.limitHeadroom);
    HeadroomExactly(language, policy.memory.limitHeadroom);
    var cpu := ApplyHeadroom(Larger(InUnit(cpuPercentile, Millicores), p.usage.last14d.cpu.max),
                             CpuLimitHeadroom(language, policy.cpu.limitHeadroom), 0);
    var memory := ApplyHeadroom(Larger(InUnit(memoryPercentile, MiB), p.usage.last14d.memory.max),
                                MemoryLimitHeadroom(language, policy.memory.limitHeadroom), 0);
    BaseExactly(InUnit(cpuPercentile, Millicores), p.usage.last14d.cpu.max,
                CpuLimitHeadroom(language, policy.cpu.limitHeadroom), 0, Millicores);
    BaseExactly(InUnit(memoryPercentile, MiB), p.usage.last14d.memory.max,
                MemoryLimitHeadroom(language, policy.memory.limitHeadroom), 0, MiB);
    assert Figure(Round(cpu, Millicores), AtLeast(policy.cpu.limitHeadroom, RuntimeHeadroom(language).0),
                  InUnit(cpuPercentile, Millicores), p.usage.last14d.cpu.max, 0, Millicores);
    assert Figure(Round(memory, MiB), AtLeast(policy.memory.limitHeadroom, RuntimeHeadroom(language).2),
                  InUnit(memoryPercentile, MiB), p.usage.last14d.memory.max, 0, MiB);
  }

  // ----- coverage -----

  lemma FigureCovers(value: int, ratio: real, percentile: int, statistic: int, minimum: int, unit: Unit, s: real)
    requires Figure(value, ratio, percentile, statistic, minimum, unit) && ratio > 0.0
    requires s <= percentile as real || s <= statistic as real
    ensures Times(ratio, s) <= value as real || value == 0
    ensures minimum > 0 ==> minimum <= value && Times(ratio, s) <= value as real
  {
    var n :| LeastCover(n, ratio, percentile, statistic, minimum) && LeastStep(value, n, unit);
    Commutes(ratio, s);
    Commutes(ratio, percentile as real);
    Commutes(ratio, statistic as real);
    if s <= percentile as real {
      ScaleMonotone(s, percentile as real, ratio);
    } else {
      ScaleMonotone(s, statistic as real, ratio);
    }
  }

  /** The figure covers so many of the samples with the headroom. */
  ghost predicate CoversShare(value: int, ratio: real, values: seq<real>, unit: Unit, p: real) {
    values != [] ==>
      exists x :: CountAtMost(values, x) >= Rank(|values|, p).Floor + 1
                  && forall v | v <= x :: Times(ratio, Scaled(v, unit)) <= value as real
  }

  /** With its headroom, each request covers at least floor(p(n-1)) + 1 of its n samples, where p is the configured
      percentile, and the 14-day average. */
  lemma RequestsCover(p: Profile, policy: Policy)
    ensures var r := RecommendedFor(p, policy);
            var cpuRatio := if policy.cpu.requestHeadroom > 0.0 then policy.cpu.requestHeadroom else 1.0;
            var memoryRatio := AtLeast(policy.memory.requestHeadroom, RuntimeHeadroom(LanguageOf(p, policy)).1);
            && CoversShare(r.cpuRequest, cpuRatio, p.cpuCores, Millicores,
                           PercentileName(policy.cpu.requestPercentile, "p95"))
            && CoversShare(r.memoryRequest, memoryRatio, p.memoryBytes, MiB,
                           PercentileName(policy.memory.requestPercentile, "p95"))
            && Times(cpuRatio, p.usage.last14d.cpu.avg as real) <= r.cpuRequest as real
            && Times(memoryRatio, p.usage.last14d.memory.avg as real) <= r.memoryRequest as real
  {
    hide PercentileOf, PercentileName, Figure, InUnit, Scaled, Rank, CountAtMost, RecommendedFor, Times, ToLower,
         TrimSpace;
    RequestsExactly(p, policy);
    var r := RecommendedFor(p, policy);
    var cpuRatio := if policy.cpu.requestHeadroom > 0.0 then policy.cpu.requestHeadroom else 1.0;
    var memoryRatio := AtLeast(policy.memory.requestHeadroom, RuntimeHeadroom(LanguageOf(p, policy)).1);
    var pc := PercentileName(policy.cpu.requestPercentile, "p95");
    var pm := PercentileName(policy.memory.requestPercentile, "p95");
    ShareCovered(r.cpuRequest, cpuRatio, p.cpuCores, Millicores, pc, p.usage.last14d.cpu.avg,
                 PositiveOr(policy.cpu.minRequest, 50));
    ShareCovered(r.memoryRequest, memoryRatio, p.memoryBytes, MiB, pm, p.usage.last14d.memory.avg,
                 PositiveOr(policy.memory.minRequest, 64));
  }

  lemma ShareCovered(value: int, ratio: real, values: seq<real>, unit: Unit, p: real, statistic: int, minimum: int)
    requires ratio > 0.0 && minimum > 0
    requires Figure(value, ratio, InUnit(PercentileOf(values, p), unit), statistic, minimum, unit)
    ensures CoversShare(value, ratio, values, unit, p)
    ensures Times(ratio, statistic as real) <= value as real
  {
    hide PercentileOf, Figure, Rank, CountAtMost, Times;
    var x := PercentileOf(values, p);
    var whole := InUnit(x, unit);
    FigureCovers(value, ratio, whole, statistic, minimum, unit, statistic as real);
    if values != [] {
      PercentileMeaning(values, p);
      CeilBounds(Scaled(x, unit));
      forall v | v <= x ensures Times(ratio, Scaled(v, unit)) <= value as real {
        FigureCovers(value, ratio, whole, statistic, minimum, unit, Scaled(v, unit));
      }
    }
  }

  // ----- what is observed -----

  /** The figure is the percentile in whole units: enough samples lie on each side of it. */
  ghost predicate ObservedAt(observed: int, values: seq<real>, unit: Unit, p: real)
    requires values != []
  {
    exists x :: observed == InUnit(x, unit) && CountAtMost(values, x) >= Rank(|values|, p).Floor + 1
                && CountAtLeast(values, x) >= |values| - Ceil(Rank(|values|, p))
  }

  /** The observed figures are the median, the 95th and the 99th percentile, in this order; 0 without samples. */
  lemma ObservedExactly(values: seq<real>, unit: Unit)
    ensures var o := ObservedOf(values, unit);
            && o.p50 <= o.p95 <= o.p99
            && (if values == [] then o == Observed(0, 0, 0)
                else ObservedAt(o.p50, values, unit, 0.5) && ObservedAt(o.p95, values, unit, 0.95)
                     && ObservedAt(o.p99, values, unit, 0.99))
  {
    hide PercentileOf, InUnit, Rank, CountAtMost, CountAtLeast;
    if values == [] {
      NothingObserved(unit);
    } else {
      PercentileMeaning(values, 0.50);
      PercentileMeaning(values, 0.95);
      PercentileMeaning(values, 0.99);
      PercentileMonotoneInP(values, 0.50, 0.95);
      PercentileMonotoneInP(values, 0.95, 0.99);
      InUnitMonotone(PercentileOf(values, 0.50), PercentileOf(values, 0.95), unit);
      InUnitMonotone(PercentileOf(values, 0.95), PercentileOf(values, 0.99), unit);
    }
  }

  lemma NothingObserved(unit: Unit)
    ensures ObservedOf([], unit) == Observed(0, 0, 0)
  {
  }

  /** A recommendation is about its profile, and shows what was observed and configured. */
  lemma RecommendationCarries(p: Profile, policy: Policy)
    ensures var r := RecommendationFor(p, policy);
            && r.namespace == p.namespace && r.workloadKind == p.workloadKind && r.workloadName == p.workloadName
            && r.pod == p.pod && r.container == p.container
            && r.current == p.current && r.usage == p.usage && r.recommended == RecommendedFor(p, policy)
            && r.observedCPU == ObservedOf(p.cpuCores, Millicores) && r.observedMemory == ObservedOf(p.memoryBytes, MiB)
            && r.language != ""
            && (TrimSpace(p.language) != "" ==> r.language == TrimSpace(p.language))
            && (TrimSpace(p.language) == "" ==>
                r.language == if policy.defaultLanguage == "" then "Go" else policy.defaultLanguage)
            && r.reason == Reason(policy.cpu.requestPercentile, policy.cpu.limitPercentile, r.language)
  {
    hide TrimSpace;
  }
}
