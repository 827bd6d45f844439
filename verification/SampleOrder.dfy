/** What the order of a container's samples can change: which of the latest samples counts as the current one, and
    nothing else (internal/analyzer/resource_series.go, internal/analyzer/resource.go). */
module SampleOrder {
  import opened Sorting
  import opened Sequences
  import opened Percentiles
  import opened Usage
  import opened Recommend

  // ----- statistics -----

  lemma {:induction false} SumConcat(a: seq<real>, b: seq<real>)
    ensures Sum(a + b) == Sum(a) + Sum(b)
  {
    if b == [] {
      assert a + b == a;
    } else {
      var last := |b| - 1;
      assert (a + b)[..|a| + last] == a + b[..last];
      SumConcat(a, b[..last]);
    }
  }

  lemma SumRemoveAt(s: seq<real>, i: nat)
    requires i < |s|
    ensures Sum(s) == Sum(s[..i] + s[i + 1..]) + s[i]
  {
    assert s == s[..i] + [s[i]] + s[i + 1..];
    SumConcat(s[..i] + [s[i]], s[i + 1..]);
    SumConcat(s[..i], [s[i]]);
    SumConcat(s[..i], s[i + 1..]);
  }

  lemma {:induction false} SumPermutation(a: seq<real>, b: seq<real>)
    requires multiset(a) == multiset(b)
    ensures Sum(a) == Sum(b)
  {
    SameMembers(a, b);
    if a != [] {
      var last := |a| - 1;
      assert a[last] in b;
      var i :| 0 <= i < |b| && b[i] == a[last];
      RemoveAt(a, last);
      assert a[..last] + a[last + 1..] == a[..last];
      RemoveAt(b, i);
      SumPermutation(a[..last], b[..i] + b[i + 1..]);
      SumRemoveAt(b, i);
    }
  }

  lemma StatsPermutation(a: seq<real>, b: seq<real>, unit: Unit)
    requires multiset(a) == multiset(b)
    ensures StatsOf(a, unit) == StatsOf(b, unit)
  {
    hide Sum, InUnit;
    SameMembers(a, b);
    SumPermutation(a, b);
    if a != [] {
      assert IsMin(MinOf(a), a) && IsMin(MinOf(b), b) && IsMax(MaxOf(a), a) && IsMax(MaxOf(b), b);
    }
  }

  // ----- windows -----

  function KeepRecent(start: int, end: int): Sample -> seq<real> {
    (s: Sample) => if InWindow(s, start, end) then [s.value] else []
  }

  function KeepValue(): Sample -> seq<real> {
    (s: Sample) => [s.value]
  }

  lemma {:induction false} ValuesInBind(samples: seq<Sample>, start: int, end: int)
    ensures ValuesIn(samples, start, end) == Bind(samples, KeepRecent(start, end))
  {
    if samples != [] {
      ValuesInBind(samples[..|samples| - 1], start, end);
    }
  }

  lemma {:induction false} ValuesBind(samples: seq<Sample>)
    ensures Values(samples) == Bind(samples, KeepValue())
  {
    if samples != [] {
      ValuesBind(samples[..|samples| - 1]);
    }
  }

  lemma ValuesPermutation(a: seq<Sample>, b: seq<Sample>, start: int, end: int)
    requires multiset(a) == multiset(b)
    ensures multiset(Values(a)) == multiset(Values(b))
            && multiset(ValuesIn(a, start, end)) == multiset(ValuesIn(b, start, end))
  {
    ValuesBind(a);
    ValuesBind(b);
    BindPermutation(a, b, KeepValue());
    ValuesInBind(a, start, end);
    ValuesInBind(b, start, end);
    BindPermutation(a, b, KeepRecent(start, end));
  }

  lemma WindowPermutation(cpu: seq<Sample>, cpu': seq<Sample>, memory: seq<Sample>, memory': seq<Sample>, start: int,
          end: int)
    requires multiset(cpu) == multiset(cpu') && multiset(memory) == multiset(memory')
    ensures WindowOf(cpu, memory, start, end) == WindowOf(cpu', memory', start, end)
  {
    hide StatsOf, ValuesIn;
    ValuesPermutation(cpu, cpu', start, end);
    ValuesPermutation(memory, memory', start, end);
    SameMembers(ValuesIn(cpu, start, end), ValuesIn(cpu', start, end));
    SameMembers(ValuesIn(memory, start, end), ValuesIn(memory', start, end));
    StatsPermutation(ValuesIn(cpu, start, end), ValuesIn(cpu', start, end), Millicores);
    StatsPermutation(ValuesIn(memory, start, end), ValuesIn(memory', start, end), MiB);
  }

  lemma EndPermutation(cpu: seq<Sample>, cpu': seq<Sample>, memory: seq<Sample>, memory': seq<Sample>)
    requires multiset(cpu) == multiset(cpu') && multiset(memory) == multiset(memory')
    ensures End(cpu, memory) == End(cpu', memory')
  {
    SameMembers(cpu + memory, cpu' + memory');
  }

  /** The windows forget the order of the samples, except for the current ones. */
  lemma WindowsPermutation(cpu: seq<Sample>, cpu': seq<Sample>, memory: seq<Sample>, memory': seq<Sample>)
    requires multiset(cpu) == multiset(cpu') && multiset(memory) == multiset(memory')
    requires End(cpu, memory) > 0 ==>
               CurrentOf(cpu, Millicores) == CurrentOf(cpu', Millicores)
                 && CurrentOf(memory, MiB) == CurrentOf(memory', MiB)
    ensures WindowsOf(cpu, memory) == WindowsOf(cpu', memory')
  {
    hide WindowOf, CurrentOf, LatestTimestamp;
    EndPermutation(cpu, cpu', memory, memory');
    SameMembers(cpu, cpu');
    SameMembers(memory, memory');
    var end := End(cpu, memory);
    WindowPermutation(cpu, cpu', memory, memory', end - WEEK, end);
    WindowPermutation(cpu, cpu', memory, memory', end - FORTNIGHT, end);
  }

  /** A recommendation forgets it altogether once the windows are fixed. */
  lemma RecommendationPermutation(p: Profile, q: Profile, policy: Policy)
    requires p == q.(cpuCores := p.cpuCores, memoryBytes := p.memoryBytes, cpuSamples := p.cpuSamples,
                     memorySamples := p.memorySamples)
    requires multiset(p.cpuCores) == multiset(q.cpuCores) && multiset(p.memoryBytes) == multiset(q.memoryBytes)
    ensures RecommendationFor(p, policy) == RecommendationFor(q, policy)
  {
    hide PercentileOf, PercentileName, InUnit, ApplyHeadroom, Round, Clamped;
    forall r
      ensures PercentileOf(p.cpuCores, r) == PercentileOf(q.cpuCores, r)
      ensures PercentileOf(p.memoryBytes, r) == PercentileOf(q.memoryBytes, r)
    {
      PercentilePermutation(p.cpuCores, q.cpuCores, r);
      PercentilePermutation(p.memoryBytes, q.memoryBytes, r);
    }
  }

  // ----- the current sample -----

  /** The last sample that carries the largest timestamp. */
  function Tip(samples: seq<Sample>): (s: Sample)
    requires samples != []
    ensures s in samples && forall t | t in samples :: t.timestamp <= s.timestamp
  {
    samples[LatestIndex(samples)]
  }

  lemma TipAt(samples: seq<Sample>, k: nat)
    requires k < |samples|
    requires forall i | 0 <= i < |samples| :: samples[i].timestamp <= samples[k].timestamp
    requires forall i | k < i < |samples| :: samples[i].timestamp < samples[k].timestamp
    ensures Tip(samples) == samples[k]
  {
  }

  /** Of two parts, the later one wins a tie. */
  lemma TipConcat(a: seq<Sample>, b: seq<Sample>)
    requires a != [] && b != []
    ensures Tip(a + b) == if Tip(b).timestamp >= Tip(a).timestamp then Tip(b) else Tip(a)
  {
    if Tip(b).timestamp >= Tip(a).timestamp {
      TipAt(a + b, |a| + LatestIndex(b));
    } else {
      TipAt(a + b, LatestIndex(a));
    }
  }
}
