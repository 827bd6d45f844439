/** `RecommendResources` (internal/analyzer/resource.go): percentiles and 14 day windows, headroom, rounding, and the
    clamp that keeps a limit from undercutting its request. Ratios are real numbers. */
module Recommend {
  import opened Text
  import opened Percentiles
  import opened Usage

  datatype Rule = Rule(requestPercentile: string, limitPercentile: string,
                       requestHeadroom: real, limitHeadroom: real, minRequest: int)

  datatype Override = Override(namespace: string, workload: string, container: string, language: string)

  datatype Policy = Policy(cpu: Rule, memory: Rule, defaultLanguage: string, overrides: seq<Override>)

  /** Requests and limits, in millicores and MiB. */
  datatype Resources = Resources(cpuRequest: int, cpuLimit: int, memoryRequest: int, memoryLimit: int)

  datatype Observed = Observed(p50: int, p95: int, p99: int)

  datatype Profile = Profile(
    namespace: string, workloadKind: string, workloadName: string, pod: string, container: string, language: string,
    cpuCores: seq<real>, memoryBytes: seq<real>, cpuSamples: seq<Sample>, memorySamples: seq<Sample>,
    usage: Windows, current: Resources)

  /** What the Reason text names; its wording is not modelled. */
  datatype Reason = Reason(requestPercentile: string, limitPercentile: string, language: string)

  datatype Recommendation = Recommendation(
    namespace: string, workloadKind: string, workloadName: string, pod: string, container: string, language: string,
    current: Resources, observedCPU: Observed, observedMemory: Observed, usage: Windows, recommended: Resources,
    reason: Reason)

  /** `percentileName`. Only the empty name takes the fallback; a name of white space is p95. */
  function PercentileName(name: string, fallback: string): (p: real)
    ensures p in {0.50, 0.90, 0.95, 0.99}
    decreases if name == "p95" then 0 else if fallback == "p95" then 1 else 2
  {
    var trimmed := ToLower(TrimSpace(name));
    if trimmed == "p50" then 0.50
    else if trimmed == "p90" then 0.90
    else if name == "p95" then 0.95
    else if trimmed == "p95" || (trimmed == "" && name != "") then 0.95
    else if trimmed == "p99" then 0.99
    else PercentileName(fallback, "p95")
  }

  function Larger(a: int, b: int): int {
    if a > b then a else b
  }

  function LargerReal(a: real, b: real): real {
    if a > b then a else b
  }

  function ApplyHeadroom(value: int, ratio: real, minValue: int): int {
    Larger(Ceil(Times(value as real, if ratio <= 0.0 then 1.0 else ratio)), minValue)
  }

  function MinMillicores(value: int): int {
    if value <= 0 then 50 else value
  }

  function MinMiB(value: int): int {
    if value <= 0 then 64 else value
  }

  function CpuLimitHeadroom(language: string, configured: real): real {
    var lower := ToLower(language);
    LargerReal(configured, if lower == "java" then 1.5 else if lower == "python" then 1.4 else 1.2)
  }

  function MemoryRequestHeadroom(language: string, configured: real): real {
    var lower := ToLower(language);
    LargerReal(configured, if lower == "java" then 1.25 else if lower == "python" then 1.2 else 1.1)
  }

  function MemoryLimitHeadroom(language: string, configured: real): real {
    var lower := ToLower(language);
    LargerReal(configured, if lower == "java" then 1.5 else if lower == "python" then 1.35 else 1.25)
  }

  function RoundUp(value: int, step: int): int
    requires step > 0
  {
    if value <= 0 then 0 else (value + step - 1) / step * step
  }

  /** The rounding step at a value, for each unit. */
  function StepAt(value: int, unit: Unit): int {
    match unit
    case Millicores => if value <= 100 then 10 else 50
    case MiB => if value <= 512 then 32 else 128
  }

  /** `roundMillicores` and `roundMiB` */
  function Round(value: int, unit: Unit): int {
    RoundUp(value, StepAt(value, unit))
  }

  function LanguageOf(profile: Profile, policy: Policy): string {
    var language := TrimSpace(profile.language);
    if language != "" then language else if policy.defaultLanguage != "" then policy.defaultLanguage else "Go"
  }

  // ----- what each of the four values has to cover -----

  function CpuRequestNeed(profile: Profile, policy: Policy): int {
    var p := PercentileName(policy.cpu.requestPercentile, "p95");
    ApplyHeadroom(Larger(InUnit(PercentileOf(profile.cpuCores, p), Millicores), profile.usage.last14d.cpu.avg),
                  policy.cpu.requestHeadroom, MinMillicores(policy.cpu.minRequest))
  }

  function CpuLimitNeed(profile: Profile, policy: Policy): int {
    var p := PercentileName(policy.cpu.limitPercentile, "p99");
    ApplyHeadroom(Larger(InUnit(PercentileOf(profile.cpuCores, p), Millicores), profile.usage.last14d.cpu.max),
                  CpuLimitHeadroom(LanguageOf(profile, policy), policy.cpu.limitHeadroom), 0)
  }

  function MemoryRequestNeed(profile: Profile, policy: Policy): int {
    var p := PercentileName(policy.memory.requestPercentile, "p95");
    ApplyHeadroom(Larger(InUnit(PercentileOf(profile.memoryBytes, p), MiB), profile.usage.last14d.memory.avg),
                  MemoryRequestHeadroom(LanguageOf(profile, policy), policy.memory.requestHeadroom),
                  MinMiB(policy.memory.minRequest))
  }

  function MemoryLimitNeed(profile: Profile, policy: Policy): int {
    var p := PercentileName(policy.memory.limitPercentile, "p99");
    ApplyHeadroom(Larger(InUnit(PercentileOf(profile.memoryBytes, p), MiB), profile.usage.last14d.memory.max),
                  MemoryLimitHeadroom(LanguageOf(profile, policy), policy.memory.limitHeadroom), 0)
  }

  /** A positive limit is raised to its request; a limit of 0, which means none, stays 0. */
  function Clamped(limit: int, request: int): int {
    if limit > 0 && limit < request then request else limit
  }

  function ObservedOf(values: seq<real>, unit: Unit): Observed {
    Observed(InUnit(PercentileOf(values, 0.50), unit), InUnit(PercentileOf(values, 0.95), unit),
             InUnit(PercentileOf(values, 0.99), unit))
  }

  function RecommendedFor(profile: Profile, policy: Policy): Resources {
    var cpuRequest := Round(CpuRequestNeed(profile, policy), Millicores);
    var memoryRequest := Round(MemoryRequestNeed(profile, policy), MiB);
    Resources(cpuRequest, Clamped(Round(CpuLimitNeed(profile, policy), Millicores), cpuRequest),
              memoryRequest, Clamped(Round(MemoryLimitNeed(profile, policy), MiB), memoryRequest))
  }

  function RecommendationFor(profile: Profile, policy: Policy): Recommendation {
    Recommendation(profile.namespace, profile.workloadKind, profile.workloadName, profile.pod, profile.container,
                   LanguageOf(profile, policy), profile.current,
                   ObservedOf(profile.cpuCores, Millicores), ObservedOf(profile.memoryBytes, MiB),
                   profile.usage, RecommendedFor(profile, policy),
                   Reason(policy.cpu.requestPercentile, policy.cpu.limitPercentile, LanguageOf(profile, policy)))
  }

  method ObservedPercentiles(values: array<real>, unit: Unit) returns (observed: Observed)
    ensures observed == ObservedOf(values[..], unit)
  {
    var p50 := Percentile(values, 0.50);
    var p95 := Percentile(values, 0.95);
    var p99 := Percentile(values, 0.99);
    observed := Observed(InUnit(p50, unit), InUnit(p95, unit), InUnit(p99, unit));
  }

  method RecommendResources(profile: Profile, policy: Policy) returns (r: Recommendation)
    ensures r == RecommendationFor(profile, policy)
  {
    hide PercentileOf, PercentileName, ApplyHeadroom, Round, InUnit;
    var language := TrimSpace(profile.language);
    if language == "" {
      language := policy.defaultLanguage;
    }
    if language == "" {
      language := "Go";
    }
    var cpuCores := new real[|profile.cpuCores|](i requires 0 <= i < |profile.cpuCores| => profile.cpuCores[i]);
    var memoryBytes := new real[|profile.memoryBytes|](
      i requires 0 <= i < |profile.memoryBytes| => profile.memoryBytes[i]);
    assert cpuCores[..] == profile.cpuCores && memoryBytes[..] == profile.memoryBytes;
    var observedCPU := ObservedPercentiles(cpuCores, Millicores);
    var observedMemory := ObservedPercentiles(memoryBytes, MiB);

    var cpuRequestP := Percentile(cpuCores, PercentileName(policy.cpu.requestPercentile, "p95"));
    var cpuRequest := ApplyHeadroom(Larger(InUnit(cpuRequestP, Millicores), profile.usage.last14d.cpu.avg),
                                    policy.cpu.requestHeadroom, MinMillicores(policy.cpu.minRequest));
    var cpuLimitP := Percentile(cpuCores, PercentileName(policy.cpu.limitPercentile, "p99"));
    var cpuLimit := ApplyHeadroom(Larger(InUnit(cpuLimitP, Millicores), profile.usage.last14d.cpu.max),
                                  CpuLimitHeadroom(language, policy.cpu.limitHeadroom), 0);
    var memoryRequestP := Percentile(memoryBytes, PercentileName(policy.memory.requestPercentile, "p95"));
    var memoryRequest := ApplyHeadroom(Larger(InUnit(memoryRequestP, MiB), profile.usage.last14d.memory.avg),
                                       MemoryRequestHeadroom(language, policy.memory.requestHeadroom),
                                       MinMiB(policy.memory.minRequest));
    var memoryLimitP := Percentile(memoryBytes, PercentileName(policy.memory.limitPercentile, "p99"));
    var memoryLimit := ApplyHeadroom(Larger(InUnit(memoryLimitP, MiB), profile.usage.last14d.memory.max),
                                     MemoryLimitHeadroom(language, policy.memory.limitHeadroom), 0);

    var recommended := Resources(Round(cpuRequest, Millicores), Round(cpuLimit, Millicores),
                                 Round(memoryRequest, MiB), Round(memoryLimit, MiB));
    if recommended.cpuLimit > 0 && recommended.cpuLimit < recommended.cpuRequest {
      recommended := recommended.(cpuLimit := recommended.cpuRequest);
    }
    if recommended.memoryLimit > 0 && recommended.memoryLimit < recommended.memoryRequest {
      recommended := recommended.(memoryLimit := recommended.memoryRequest);
    }
    r := Recommendation(profile.namespace, profile.workloadKind, profile.workloadName, profile.pod, profile.container,
                        language, profile.current, observedCPU, observedMemory, profile.usage, recommended,
                        Reason(policy.cpu.requestPercentile, policy.cpu.limitPercentile, language));
  }

  // ----- rounding and headroom -----

  /** Rounding goes up to a multiple of the step, by less than one step. */
  lemma RoundUpBounds(value: int, step: int)
    requires step > 0
    ensures RoundUp(value, step) % step == 0
    ensures value <= RoundUp(value, step)
    ensures value > 0 ==> RoundUp(value, step) < value + step
    ensures value <= 0 ==> RoundUp(value, step) == 0
  {
    var q := (value + step - 1) / step;
    if value > 0 {
      assert (q * step) % step == 0 by { MultipleModulo(q, step); }
      assert value + step - 1 == q * step + (value + step - 1) % step;
    }
  }

  lemma WholeSteps(k: int, step: int)
    requires step > 0
    ensures k >= 1 ==> k * step >= step
    ensures k <= -1 ==> k * step <= -step
  {
  }

  lemma MultipleModulo(q: int, step: int)
    requires step > 0
    ensures (q * step) % step == 0
  {
    var d := q * step / step;
    assert q * step == d * step + q * step % step;
    assert (q - d) * step == q * step % step;
    WholeSteps(q - d, step);
  }

  lemma StepsMonotone(p: int, q: int, step: int)
    requires p <= q && step > 0
    ensures p * step <= q * step
  {
  }

  lemma RoundUpMonotone(a: int, b: int, step: int)
    requires step > 0 && a <= b
    ensures RoundUp(a, step) <= RoundUp(b, step)
  {
    if a > 0 {
      QuotientMonotone(a + step - 1, b + step - 1, step);
      StepsMonotone((a + step - 1) / step, (b + step - 1) / step, step);
    } else {
      RoundUpBounds(b, step);
    }
  }

  lemma QuotientMonotone(a: int, b: int, step: int)
    requires step > 0 && a <= b
    ensures a / step <= b / step
  {
    var p, q := a / step, b / step;
    assert p * step <= a && b < q * step + step;
    assert (q - p) * step == q * step - p * step;
    WholeSteps(q - p, step);
  }

  /** Rounding is monotone although the step changes. */
  lemma RoundMonotone(a: int, b: int, unit: Unit)
    requires a <= b
    ensures Round(a, unit) <= Round(b, unit)
  {
    if StepAt(a, unit) == StepAt(b, unit) {
      RoundUpMonotone(a, b, StepAt(a, unit));
    } else {
      var threshold := if unit == Millicores then 100 else 512;
      RoundUpMonotone(a, threshold, StepAt(a, unit));
      assert RoundUp(threshold, StepAt(a, unit)) == threshold;
      RoundUpBounds(b, StepAt(b, unit));
    }
  }

  lemma HeadroomMonotone(a: int, b: int, ratio: real, minValue: int)
    requires a <= b
    ensures ApplyHeadroom(a, ratio, minValue) <= ApplyHeadroom(b, ratio, minValue)
  {
    var r := if ratio <= 0.0 then 1.0 else ratio;
    ScaleMonotone(a as real, b as real, r);
    CeilMonotone(Times(a as real, r), Times(b as real, r));
  }

  lemma NeedMonotone(a: seq<real>, b: seq<real>, p: real, unit: Unit, window: int, window': int, ratio: real,
          minValue: int)
    requires Dominated(a, b) && window <= window'
    ensures Round(ApplyHeadroom(Larger(InUnit(PercentileOf(a, p), unit), window), ratio, minValue), unit)
         <= Round(ApplyHeadroom(Larger(InUnit(PercentileOf(b, p), unit), window'), ratio, minValue), unit)
  {
    PercentileMonotone(a, b, p);
    InUnitMonotone(PercentileOf(a, p), PercentileOf(b, p), unit);
    var x, y := Larger(InUnit(PercentileOf(a, p), unit), window), Larger(InUnit(PercentileOf(b, p), unit), window');
    HeadroomMonotone(x, y, ratio, minValue);
    RoundMonotone(ApplyHeadroom(x, ratio, minValue), ApplyHeadroom(y, ratio, minValue), unit);
  }

  ghost predicate NoLower(a: Resources, b: Resources) {
    && a.cpuRequest <= b.cpuRequest && a.cpuLimit <= b.cpuLimit
    && a.memoryRequest <= b.memoryRequest && a.memoryLimit <= b.memoryLimit
  }

  /** The profile's lists and windows are those of its samples. */
  ghost predicate Built(p: Profile) {
    p.cpuCores == Values(p.cpuSamples) && p.memoryBytes == Values(p.memorySamples)
    && p.usage == WindowsOf(p.cpuSamples, p.memorySamples)
  }

  /** Raising samples, at the same times and under the same policy, never lowers a recommended request or limit. */
  lemma RecommendationMonotone(a: Profile, b: Profile, policy: Policy)
    requires Built(a) && Built(b) && a.language == b.language
    requires Raised(a.cpuSamples, b.cpuSamples) && Raised(a.memorySamples, b.memorySamples)
    ensures NoLower(RecommendedFor(a, policy), RecommendedFor(b, policy))
  {
    hide PercentileOf, PercentileName, ApplyHeadroom, Round, WindowsOf, InUnit;
    WindowsMonotone(a.cpuSamples, b.cpuSamples, a.memorySamples, b.memorySamples);
    var language := LanguageOf(a, policy);
    NeedMonotone(a.cpuCores, b.cpuCores, PercentileName(policy.cpu.requestPercentile, "p95"), Millicores,
                 a.usage.last14d.cpu.avg, b.usage.last14d.cpu.avg, policy.cpu.requestHeadroom,
                 MinMillicores(policy.cpu.minRequest));
    NeedMonotone(a.cpuCores, b.cpuCores, PercentileName(policy.cpu.limitPercentile, "p99"), Millicores,
                 a.usage.last14d.cpu.max, b.usage.last14d.cpu.max, CpuLimitHeadroom(language, policy.cpu.limitHeadroom),
                 0);
    NeedMonotone(a.memoryBytes, b.memoryBytes, PercentileName(policy.memory.requestPercentile, "p95"), MiB,
                 a.usage.last14d.memory.avg, b.usage.last14d.memory.avg,
                 MemoryRequestHeadroom(language, policy.memory.requestHeadroom), MinMiB(policy.memory.minRequest));
    NeedMonotone(a.memoryBytes, b.memoryBytes, PercentileName(policy.memory.limitPercentile, "p99"), MiB,
                 a.usage.last14d.memory.max, b.usage.last14d.memory.max,
                 MemoryLimitHeadroom(language, policy.memory.limitHeadroom), 0);
  }

  // ----- coverage -----

  lemma HeadroomCovers(base: int, ratio: real, least: real, minValue: int, need: real)
    requires ratio >= least >= 1.0 && need <= base as real && 0.0 <= need
    ensures Times(need, least) <= ApplyHeadroom(base, ratio, minValue) as real
  {
    ScaleMonotone(need, base as real, least);
    assert Times(need, least) <= Times(base as real, least) <= Times(base as real, ratio) by {
      assert Times(base as real, least) == Times(least, base as real);
      assert Times(base as real, ratio) == Times(ratio, base as real);
      ScaleMonotone(least, ratio, base as real);
    }
    CeilBounds(Times(base as real, ratio));
  }

  lemma LimitCovers(values: seq<real>, value: real, percentile: int, unit: Unit, ratio: real, least: real, request: int)
    requires value in values && ratio >= least >= 1.0
    ensures var need := ApplyHeadroom(Larger(percentile, StatsOf(values, unit).max), ratio, 0);
            Times(Scaled(value, unit), least) <= Clamped(Round(need, unit), request) as real
  {
    var base := Larger(percentile, StatsOf(values, unit).max);
    var need := ApplyHeadroom(base, ratio, 0);
    var scaled := Scaled(value, unit);
    RoundUpBounds(need, StepAt(need, unit));
    if scaled > 0.0 {
      InUnitMonotone(value, MaxOf(values), unit);
      CeilBounds(scaled);
      HeadroomCovers(base, ratio, least, 0, scaled);
    } else {
      ScaleMonotone(scaled, 0.0, least);
    }
  }

  lemma CpuLimitCovers(p: Profile, policy: Policy, s: Sample)
    requires Built(p) && End(p.cpuSamples, p.memorySamples) > 0 && s in p.cpuSamples
    requires InWindow(s, End(p.cpuSamples, p.memorySamples) - FORTNIGHT, End(p.cpuSamples, p.memorySamples))
    ensures Times(Scaled(s.value, Millicores), 1.2) <= RecommendedFor(p, policy).cpuLimit as real
  {
    hide PercentileOf, PercentileName, ApplyHeadroom, Round, Times, Over, InUnit, Scaled, Larger;
    var end := End(p.cpuSamples, p.memorySamples);
    ValuesInHas(p.cpuSamples, s, end - FORTNIGHT, end);
    LimitCovers(ValuesIn(p.cpuSamples, end - FORTNIGHT, end), s.value,
                InUnit(PercentileOf(p.cpuCores, PercentileName(policy.cpu.limitPercentile, "p99")), Millicores),
                Millicores, CpuLimitHeadroom(LanguageOf(p, policy), policy.cpu.limitHeadroom), 1.2,
                RecommendedFor(p, policy).cpuRequest);
  }

  lemma MemoryLimitCovers(p: Profile, policy: Policy, s: Sample)
    requires Built(p) && End(p.cpuSamples, p.memorySamples) > 0 && s in p.memorySamples
    requires InWindow(s, End(p.cpuSamples, p.memorySamples) - FORTNIGHT, End(p.cpuSamples, p.memorySamples))
    ensures Times(Scaled(s.value, MiB), 1.25) <= RecommendedFor(p, policy).memoryLimit as real
  {
    hide PercentileOf, PercentileName, ApplyHeadroom, Round, Times, Over, InUnit, Scaled, Larger;
    var end := End(p.cpuSamples, p.memorySamples);
    ValuesInHas(p.memorySamples, s, end - FORTNIGHT, end);
    LimitCovers(ValuesIn(p.memorySamples, end - FORTNIGHT, end), s.value,
                InUnit(PercentileOf(p.memoryBytes, PercentileName(policy.memory.limitPercentile, "p99")), MiB), MiB,
                MemoryLimitHeadroom(LanguageOf(p, policy), policy.memory.limitHeadroom), 1.25,
                RecommendedFor(p, policy).memoryRequest);
  }

  /** The limits cover every sample of the last 14 days with the headroom every language gets at least: 1.2 times the
      CPU samples, 1.25 times the memory samples. */
  lemma LimitsCoverSamples(p: Profile, policy: Policy, s: Sample)
    requires Built(p) && End(p.cpuSamples, p.memorySamples) > 0
    requires InWindow(s, End(p.cpuSamples, p.memorySamples) - FORTNIGHT, End(p.cpuSamples, p.memorySamples))
    ensures s in p.cpuSamples ==> Times(Scaled(s.value, Millicores), 1.2) <= RecommendedFor(p, policy).cpuLimit as real
    ensures s in p.memorySamples ==> Times(Scaled(s.value, MiB), 1.25) <= RecommendedFor(p, policy).memoryLimit as real
  {
    if s in p.cpuSamples {
      CpuLimitCovers(p, policy, s);
    }
    if s in p.memorySamples {
      MemoryLimitCovers(p, policy, s);
    }
  }

  /** `value` is the least multiple of the rounding step that covers the need. */
  ghost predicate Tight(value: int, need: int, unit: Unit) {
    && value % StepAt(need, unit) == 0 && need <= value
    && if need <= 0 then value == 0 else value < need + StepAt(need, unit)
  }

  /** Requests, and limits before the clamp, overshoot their need by less than one rounding step; a limit is 0 or at
      least its request; requests are at least the configured minimum. */
  lemma RecommendationTight(p: Profile, policy: Policy)
    ensures var r := RecommendedFor(p, policy);
            && Tight(r.cpuRequest, CpuRequestNeed(p, policy), Millicores)
            && Tight(r.memoryRequest, MemoryRequestNeed(p, policy), MiB)
            && r.cpuRequest >= MinMillicores(policy.cpu.minRequest)
            && r.memoryRequest >= MinMiB(policy.memory.minRequest)
            && (r.cpuLimit == 0 || r.cpuLimit >= r.cpuRequest)
            && (r.memoryLimit == 0 || r.memoryLimit >= r.memoryRequest)
            && (Tight(r.cpuLimit, CpuLimitNeed(p, policy), Millicores) || r.cpuLimit == r.cpuRequest)
            && (Tight(r.memoryLimit, MemoryLimitNeed(p, policy), MiB) || r.memoryLimit == r.memoryRequest)
  {
    RoundUpBounds(CpuRequestNeed(p, policy), StepAt(CpuRequestNeed(p, policy), Millicores));
    RoundUpBounds(CpuLimitNeed(p, policy), StepAt(CpuLimitNeed(p, policy), Millicores));
    RoundUpBounds(MemoryRequestNeed(p, policy), StepAt(MemoryRequestNeed(p, policy), MiB));
    RoundUpBounds(MemoryLimitNeed(p, policy), StepAt(MemoryLimitNeed(p, policy), MiB));
  }

  // ----- when the limit percentile does not matter -----

  lemma {:induction false} RecentCounted(samples: seq<Sample>, start: int, end: int, x: real)
    requires forall v | v in ValuesIn(samples, start, end) :: v <= x
    ensures |ValuesIn(samples, start, end)| <= CountAtMost(Values(samples), x)
  {
    if samples != [] {
      var front, last := samples[..|samples| - 1], samples[|samples| - 1];
      assert Values(samples) == Values(front) + [last.value];
      var all, before := ValuesIn(samples, start, end), ValuesIn(front, start, end);
      assert all == before + if InWindow(last, start, end) then [last.value] else [];
      assert forall v | v in before :: v in all;
      assert InWindow(last, start, end) ==> all[|before|] == last.value && last.value in all;
      CountLast(Values(front), last.value, x);
      RecentCounted(front, start, end, x);
    }
  }

  /** At most about one in a hundred of the samples is outside the window, or there is at most one sample. */
  predicate MostlyIn(samples: seq<Sample>, start: int, end: int) {
    |samples| <= 1 || 99 * (|samples| - 1) <= 100 * (|ValuesIn(samples, start, end)| - 1)
  }

  lemma RankAtMost(n: nat, p: real, k: int)
    requires n > 0 && p <= 0.99 && 99 * (n - 1) <= 100 * k
    ensures Ceil(Rank(n, p)) <= k
  {
    RankMonotone(n, p, 0.99);
    CeilBounds(Rank(n, p));
    assert Rank(n, 0.99) == 0.99 * (n - 1) as real;
  }

  lemma OnePercentile(values: seq<real>, p: real, q: real)
    requires |values| <= 1
    ensures PercentileOf(values, p) == PercentileOf(values, q)
  {
    if |values| == 1 {
      RankOfOne(p);
      RankOfOne(q);
    }
  }

  /** No percentile up to the 99th exceeds the maximum of the window, so the maximum alone decides. */
  lemma MaximumDecides(samples: seq<Sample>, start: int, end: int, p: real, q: real, unit: Unit)
    requires MostlyIn(samples, start, end) && p <= 0.99 && q <= 0.99
    ensures var max := StatsOf(ValuesIn(samples, start, end), unit).max;
            Larger(InUnit(PercentileOf(Values(samples), p), unit), max)
              == Larger(InUnit(PercentileOf(Values(samples), q), unit), max)
  {
    if |samples| <= 1 {
      OnePercentile(Values(samples), p, q);
    } else {
      WindowBounds(samples, start, end, p, unit);
      WindowBounds(samples, start, end, q, unit);
    }
  }

  lemma WindowBounds(samples: seq<Sample>, start: int, end: int, p: real, unit: Unit)
    requires |samples| > 1 && MostlyIn(samples, start, end) && p <= 0.99
    ensures InUnit(PercentileOf(Values(samples), p), unit) <= StatsOf(ValuesIn(samples, start, end), unit).max
  {
    hide PercentileOf, Rank, CountAtMost, InUnit;
    var recent := ValuesIn(samples, start, end);
    assert IsMax(MaxOf(recent), recent);
    RecentCounted(samples, start, end, MaxOf(recent));
    RankAtMost(|samples|, p, |recent| - 1);
    PercentileAtMost(Values(samples), p, MaxOf(recent));
    InUnitMonotone(PercentileOf(Values(samples), p), MaxOf(recent), unit);
  }

  lemma CpuLimitPercentileIrrelevant(p: Profile, policy: Policy, other: Policy)
    requires Built(p) && End(p.cpuSamples, p.memorySamples) > 0
    requires MostlyIn(p.cpuSamples, End(p.cpuSamples, p.memorySamples) - FORTNIGHT, End(p.cpuSamples, p.memorySamples))
    requires other.cpu.limitHeadroom == policy.cpu.limitHeadroom && other.defaultLanguage == policy.defaultLanguage
    ensures CpuLimitNeed(p, policy) == CpuLimitNeed(p, other)
  {
    hide PercentileName, PercentileOf, MostlyIn, StatsOf, ValuesIn, CurrentOf, ApplyHeadroom, InUnit, LatestTimestamp,
         CpuLimitHeadroom, MemoryLimitHeadroom;
    var end := End(p.cpuSamples, p.memorySamples);
    MaximumDecides(p.cpuSamples, end - FORTNIGHT, end, PercentileName(policy.cpu.limitPercentile, "p99"),
                   PercentileName(other.cpu.limitPercentile, "p99"), Millicores);
  }

  lemma MemoryLimitPercentileIrrelevant(p: Profile, policy: Policy, other: Policy)
    requires Built(p) && End(p.cpuSamples, p.memorySamples) > 0
    requires MostlyIn(p.memorySamples, End(p.cpuSamples, p.memorySamples) - FORTNIGHT,
                      End(p.cpuSamples, p.memorySamples))
    requires other.memory.limitHeadroom == policy.memory.limitHeadroom
             && other.defaultLanguage == policy.defaultLanguage
    ensures MemoryLimitNeed(p, policy) == MemoryLimitNeed(p, other)
  {
    hide PercentileName, PercentileOf, MostlyIn, StatsOf, ValuesIn, CurrentOf, ApplyHeadroom, InUnit, LatestTimestamp,
         CpuLimitHeadroom, MemoryLimitHeadroom;
    var end := End(p.cpuSamples, p.memorySamples);
    MaximumDecides(p.memorySamples, end - FORTNIGHT, end, PercentileName(policy.memory.limitPercentile, "p99"),
                   PercentileName(other.memory.limitPercentile, "p99"), MiB);
  }

  /** If at most one in a hundred of the samples of each metric is older than 14 days, the recommendation does not
      depend on the configured limit percentiles at all. */
  lemma LimitPercentileIrrelevant(p: Profile, policy: Policy, cpuLimit: string, memoryLimit: string)
    requires Built(p) && End(p.cpuSamples, p.memorySamples) > 0
    requires var end := End(p.cpuSamples, p.memorySamples);
             MostlyIn(p.cpuSamples, end - FORTNIGHT, end) && MostlyIn(p.memorySamples, end - FORTNIGHT, end)
    ensures RecommendedFor(p, policy) ==
            RecommendedFor(p, policy.(cpu := policy.cpu.(limitPercentile := cpuLimit),
                                      memory := policy.memory.(limitPercentile := memoryLimit)))
  {
    hide PercentileOf, PercentileName, WindowsOf, ApplyHeadroom, Round, Larger, MostlyIn;
    var other := policy.(cpu := policy.cpu.(limitPercentile := cpuLimit),
                         memory := policy.memory.(limitPercentile := memoryLimit));
    CpuLimitPercentileIrrelevant(p, policy, other);
    MemoryLimitPercentileIrrelevant(p, policy, other);
  }
}
