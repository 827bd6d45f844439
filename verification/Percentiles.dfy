/** `Percentile` (internal/analyzer/resource.go): linear interpolation between the order statistics of a sorted copy.
    Samples are real numbers. */
module Percentiles {
  import opened Sorting

  predicate RealLe(a: real, b: real) { a <= b }

  function Ceil(x: real): int {
    -(-x).Floor
  }

  function SortedReals(values: seq<real>): seq<real> {
    Sort(values, RealLe)
  }

  function Times(a: real, b: real): real { a * b }

  function Mix(x: real, y: real, weight: real): real {
    Times(x, 1.0 - weight) + Times(y, weight)
  }

  /** The value at a fractional rank of a sequence. */
  function Interpolate(s: seq<real>, rank: real): real
    requires |s| > 0 && 0.0 <= rank <= (|s| - 1) as real
  {
    var lower, upper := rank.Floor, Ceil(rank);
    CeilBounds(rank);
    if lower == upper then s[lower] else Mix(s[lower], s[upper], rank - lower as real)
  }

  function Clamp(p: real): (q: real)
    ensures 0.0 <= q <= 1.0
  {
    if p <= 0.0 then 0.0 else if p >= 1.0 then 1.0 else p
  }

  function Rank(n: nat, p: real): (rank: real)
    requires n > 0
    ensures 0.0 <= rank <= (n - 1) as real
  {
    ScaleBounds(Clamp(p), (n - 1) as real);
    Times(Clamp(p), (n - 1) as real)
  }

  function PercentileOf(values: seq<real>, p: real): real {
    if values == [] then 0.0
    else
      SortContents(values, RealLe);
      Interpolate(SortedReals(values), Rank(|values|, p))
  }

  /** `sort.Float64s`, in place. */
  method SortFloat64s(a: array<real>)
    modifies a
    ensures a[..] == SortedReals(old(a[..]))
  {
    SortContents(a[..], RealLe);
    var sorted := SortedReals(a[..]);
    forall i | 0 <= i < a.Length {
      a[i] := sorted[i];
    }
  }

  /** Sorts a copy, so the caller's samples keep their order. */
  method Percentile(values: array<real>, p: real) returns (r: real)
    ensures r == PercentileOf(values[..], p)
  {
    if values.Length == 0 {
      return 0.0;
    }
    var q := p;
    if q <= 0.0 {
      q := 0.0;
    }
    if q >= 1.0 {
      q := 1.0;
    }
    assert q == Clamp(p);
    var copied := new real[values.Length];
    forall i | 0 <= i < values.Length {
      copied[i] := values[i];
    }
    assert copied[..] == values[..];
    SortFloat64s(copied);
    if copied.Length == 1 {
      RankOfOne(p);
      return copied[0];
    }
    var rank := Times(q, (copied.Length - 1) as real);
    assert rank == Rank(values.Length, p);
    var lower, upper := rank.Floor, Ceil(rank);
    CeilBounds(rank);
    if lower == upper {
      return copied[lower];
    }
    return Mix(copied[lower], copied[upper], rank - lower as real);
  }

  // ----- real arithmetic -----

  lemma ScaleBounds(q: real, n: real)
    requires 0.0 <= q <= 1.0 && 0.0 <= n
    ensures 0.0 <= Times(q, n) <= n
  {
    ScaleMonotone(0.0, q, n);
    ScaleMonotone(q, 1.0, n);
  }

  lemma RankOfOne(p: real)
    ensures Rank(1, p) == 0.0
  {
  }

  lemma RankMonotone(n: nat, p: real, q: real)
    requires n > 0 && p <= q
    ensures Rank(n, p) <= Rank(n, q)
  {
    ScaleMonotone(Clamp(p), Clamp(q), (n - 1) as real);
  }

  lemma ScaleMonotone(a: real, b: real, w: real)
    requires a <= b && 0.0 <= w
    ensures Times(a, w) <= Times(b, w)
  {
  }

  lemma MixBetween(x: real, y: real, w: real)
    requires x <= y && 0.0 <= w <= 1.0
    ensures x <= Mix(x, y, w) <= y
  {
    assert Mix(x, y, w) == x + (y - x) * w;
    ScaleMonotone(0.0, y - x, w);
    ScaleMonotone(0.0, y - x, 1.0 - w);
    assert (y - x) * w + (y - x) * (1.0 - w) == y - x;
  }

  lemma MixMonotone(x: real, x': real, y: real, y': real, w: real)
    requires x <= x' && y <= y' && 0.0 <= w <= 1.0
    ensures Mix(x, y, w) <= Mix(x', y', w)
  {
    ScaleMonotone(x, x', 1.0 - w);
    ScaleMonotone(y, y', w);
  }

  lemma MixRising(x: real, y: real, w: real, v: real)
    requires x <= y && w <= v
    ensures Mix(x, y, w) <= Mix(x, y, v)
  {
    assert Mix(x, y, w) == x + w * (y - x);
    assert Mix(x, y, v) == x + v * (y - x);
    ScaleMonotone(w, v, y - x);
  }

  lemma CeilBounds(x: real)
    ensures x <= Ceil(x) as real < x + 1.0
    ensures Ceil(x) == x.Floor <==> x == x.Floor as real
    ensures Ceil(x) == x.Floor || Ceil(x) == x.Floor + 1
  {
  }

  lemma CeilMonotone(a: real, b: real)
    requires a <= b
    ensures Ceil(a) <= Ceil(b)
  {
  }

  // ----- dominated samples have dominated order statistics -----

  ghost predicate Dominated(a: seq<real>, b: seq<real>) {
    |a| == |b| && forall i | 0 <= i < |a| :: a[i] <= b[i]
  }

  lemma DominatedCons(x: real, s: seq<real>, y: real, t: seq<real>)
    requires x <= y && Dominated(s, t)
    ensures Dominated([x] + s, [y] + t)
  {
  }

  lemma {:induction false} InsertDominated(x: real, s: seq<real>, y: real, t: seq<real>)
    requires x <= y && Dominated(s, t) && Sorted(s, RealLe) && Sorted(t, RealLe)
    ensures Dominated(Insert(x, s, RealLe), Insert(y, t, RealLe))
    decreases |s|
  {
    if s != [] {
      assert s == [s[0]] + s[1..] && t == [t[0]] + t[1..];
      if x <= s[0] && y > t[0] {
        assert Insert(s[0], s[1..], RealLe) == s;
        InsertDominated(s[0], s[1..], y, t[1..]);
        DominatedCons(x, s, t[0], Insert(y, t[1..], RealLe));
      } else if x > s[0] && y <= t[0] {
        assert Insert(t[0], t[1..], RealLe) == t;
        InsertDominated(x, s[1..], t[0], t[1..]);
        DominatedCons(s[0], Insert(x, s[1..], RealLe), y, t);
      } else if x > s[0] {
        InsertDominated(x, s[1..], y, t[1..]);
        DominatedCons(s[0], Insert(x, s[1..], RealLe), t[0], Insert(y, t[1..], RealLe));
      } else {
        DominatedCons(x, s, y, t);
      }
    }
  }

  lemma {:induction false} SortDominated(a: seq<real>, b: seq<real>)
    requires Dominated(a, b)
    ensures Dominated(SortedReals(a), SortedReals(b))
  {
    if a != [] {
      SortDominated(a[1..], b[1..]);
      SortSorted(a[1..], RealLe);
      SortSorted(b[1..], RealLe);
      InsertDominated(a[0], SortedReals(a[1..]), b[0], SortedReals(b[1..]));
    }
  }

  /** Raising samples never lowers a percentile. */
  lemma PercentileMonotone(a: seq<real>, b: seq<real>, p: real)
    requires Dominated(a, b)
    ensures PercentileOf(a, p) <= PercentileOf(b, p)
  {
    if a != [] {
      SortDominated(a, b);
      SortContents(a, RealLe);
      SortContents(b, RealLe);
      var s, t, rank := SortedReals(a), SortedReals(b), Rank(|a|, p);
      var lower, upper := rank.Floor, Ceil(rank);
      CeilBounds(rank);
      if lower != upper {
        MixMonotone(s[lower], t[lower], s[upper], t[upper], rank - lower as real);
      }
    }
  }

  // ----- the meaning of a percentile -----

  lemma InterpolateBetween(s: seq<real>, rank: real)
    requires |s| > 0 && 0.0 <= rank <= (|s| - 1) as real && Sorted(s, RealLe)
    ensures rank.Floor <= Ceil(rank) < |s|
    ensures s[rank.Floor] <= Interpolate(s, rank) <= s[Ceil(rank)]
  {
    CeilBounds(rank);
    var lower, upper := rank.Floor, Ceil(rank);
    if lower != upper {
      assert RealLe(s[lower], s[upper]);
      MixBetween(s[lower], s[upper], rank - lower as real);
    }
  }

  lemma InterpolateMonotone(s: seq<real>, a: real, b: real)
    requires |s| > 0 && 0.0 <= a <= b <= (|s| - 1) as real && Sorted(s, RealLe)
    ensures Interpolate(s, a) <= Interpolate(s, b)
  {
    InterpolateBetween(s, a);
    InterpolateBetween(s, b);
    CeilBounds(a);
    CeilBounds(b);
    if a.Floor == b.Floor {
      var lower := a.Floor;
      if b != lower as real && a != lower as real {
        var upper := lower + 1;
        assert RealLe(s[lower], s[upper]);
        MixRising(s[lower], s[upper], a - lower as real, b - lower as real);
      }
    } else {
      assert Ceil(a) <= b.Floor;
      assert Ceil(a) == b.Floor || RealLe(s[Ceil(a)], s[b.Floor]);
    }
  }

  function CountAtMost(s: seq<real>, x: real): nat {
    if s == [] then 0 else (if s[0] <= x then 1 else 0) + CountAtMost(s[1..], x)
  }

  function CountAtLeast(s: seq<real>, x: real): nat {
    if s == [] then 0 else (if s[0] >= x then 1 else 0) + CountAtLeast(s[1..], x)
  }

  lemma {:induction false} InsertCounts(y: real, s: seq<real>, x: real)
    ensures CountAtMost(Insert(y, s, RealLe), x) == (if y <= x then 1 else 0) + CountAtMost(s, x)
    ensures CountAtLeast(Insert(y, s, RealLe), x) == (if y >= x then 1 else 0) + CountAtLeast(s, x)
  {
    if s == [] || y <= s[0] {
      assert ([y] + s)[1..] == s;
    } else {
      InsertCounts(y, s[1..], x);
      assert ([s[0]] + Insert(y, s[1..], RealLe))[1..] == Insert(y, s[1..], RealLe);
    }
  }

  lemma {:induction false} SortCounts(values: seq<real>, x: real)
    ensures CountAtMost(SortedReals(values), x) == CountAtMost(values, x)
    ensures CountAtLeast(SortedReals(values), x) == CountAtLeast(values, x)
  {
    if values != [] {
      SortCounts(values[1..], x);
      InsertCounts(values[0], SortedReals(values[1..]), x);
    }
  }

  lemma {:induction false} CountPrefix(s: seq<real>, k: nat, x: real)
    requires k <= |s| && forall i | 0 <= i < k :: s[i] <= x
    ensures CountAtMost(s, x) >= k
  {
    if k > 0 {
      CountPrefix(s[1..], k - 1, x);
    }
  }

  lemma {:induction false} CountSuffix(s: seq<real>, k: nat, x: real)
    requires k <= |s| && forall i | k <= i < |s| :: s[i] >= x
    ensures CountAtLeast(s, x) >= |s| - k
  {
    if s != [] {
      CountSuffix(s[1..], if k > 0 then k - 1 else 0, x);
    }
  }

  lemma {:induction false} CountLast(s: seq<real>, y: real, x: real)
    ensures CountAtMost(s + [y], x) == CountAtMost(s, x) + if y <= x then 1 else 0
  {
    if s != [] {
      assert (s + [y])[1..] == s[1..] + [y];
      CountLast(s[1..], y, x);
    }
  }

  lemma {:induction false} CountsApart(s: seq<real>, x: real, y: real)
    requires x < y
    ensures CountAtMost(s, x) + CountAtLeast(s, y) <= |s|
  {
    if s != [] {
      CountsApart(s[1..], x, y);
    }
  }

  /** A percentile is an order statistic: it does not depend on the order of the samples, enough samples lie on each
      side of it, and it lies between any bounds of the samples. */
  lemma PercentileMeaning(values: seq<real>, p: real)
    requires values != []
    ensures var r, rank := PercentileOf(values, p), Rank(|values|, p);
            && CountAtMost(values, r) >= rank.Floor + 1
            && CountAtLeast(values, r) >= |values| - Ceil(rank)
    ensures exists lo, hi :: lo in values && hi in values && lo <= PercentileOf(values, p) <= hi
  {
    var r, rank, s := PercentileOf(values, p), Rank(|values|, p), SortedReals(values);
    SortContents(values, RealLe);
    SortSorted(values, RealLe);
    InterpolateBetween(s, rank);
    var lower, upper := rank.Floor, Ceil(rank);
    forall i | 0 <= i < lower + 1 ensures s[i] <= r {
      assert i == lower || RealLe(s[i], s[lower]);
    }
    forall i | upper <= i < |s| ensures s[i] >= r {
      assert i == upper || RealLe(s[upper], s[i]);
    }
    CountPrefix(s, lower + 1, r);
    CountSuffix(s, upper, r);
    SortCounts(values, r);
    SameMembers(s, values);
    assert s[lower] in values && s[upper] in values;
  }

  /** If enough samples are at most `x`, so is the percentile. */
  lemma PercentileAtMost(values: seq<real>, p: real, x: real)
    requires values != [] && CountAtMost(values, x) > Ceil(Rank(|values|, p))
    ensures PercentileOf(values, p) <= x
  {
    PercentileMeaning(values, p);
    if x < PercentileOf(values, p) {
      CountsApart(values, x, PercentileOf(values, p));
    }
  }

  /** The percentile lies between the k-th and the next of the sorted samples, as far along as the rank p(n-1) lies
      between k and k + 1. */
  lemma PercentileInterpolates(values: seq<real>, s: seq<real>, p: real, k: nat)
    requires values != [] && Sorted(s, RealLe) && multiset(s) == multiset(values)
    requires 0.0 <= p <= 1.0 && k as real <= Times(p, (|values| - 1) as real) < (k + 1) as real
    ensures k < |s| && PercentileOf(values, p)
                       == if k + 1 < |s| then s[k]
                         + Times(Times(p, (|values| - 1) as real) - k as real, s[k + 1] - s[k])
                          else s[k]
  {
    hide Times, Mix;
    SortUnique(values, s, RealLe);
    SameMembers(s, values);
    var rank := Rank(|values|, p);
    assert rank == Times(p, (|values| - 1) as real);
    CeilBounds(rank);
    assert rank.Floor == k < |s|;
    if k + 1 < |s| {
      MixAlong(s[k], s[k + 1], rank - k as real);
    }
  }

  /** A fraction outside 0..1 counts as the nearer end. */
  lemma PercentileClamped(values: seq<real>, p: real)
    ensures p <= 0.0 ==> PercentileOf(values, p) == PercentileOf(values, 0.0)
    ensures p >= 1.0 ==> PercentileOf(values, p) == PercentileOf(values, 1.0)
  {
  }

  lemma MixAlong(x: real, y: real, weight: real)
    ensures Mix(x, y, weight) == x + Times(weight, y - x)
    ensures weight == 0.0 ==> Mix(x, y, weight) == x
  {
  }

  lemma PercentilePermutation(a: seq<real>, b: seq<real>, p: real)
    requires multiset(a) == multiset(b)
    ensures PercentileOf(a, p) == PercentileOf(b, p)
  {
    SameMembers(a, b);
    SortPermutation(a, b, RealLe);
  }

  lemma PercentileMonotoneInP(values: seq<real>, p: real, q: real)
    requires p <= q
    ensures PercentileOf(values, p) <= PercentileOf(values, q)
  {
    if values != [] {
      SortContents(values, RealLe);
      SortSorted(values, RealLe);
      RankMonotone(|values|, p, q);
      InterpolateMonotone(SortedReals(values), Rank(|values|, p), Rank(|values|, q));
    }
  }
}
