/** Nested loops as sequences: what every element contributes, appended in order. */
module Sequences {
  import Sorting

  function Bind<A, B>(xs: seq<A>, f: A -> seq<B>): seq<B> {
    if xs == [] then [] else Bind(xs[..|xs| - 1], f) + f(xs[|xs| - 1])
  }

  lemma BindStep<A, B>(xs: seq<A>, x: A, f: A -> seq<B>)
    ensures Bind(xs + [x], f) == Bind(xs, f) + f(x)
  {
    assert (xs + [x])[..|xs|] == xs;
  }

  lemma BindTake<A, B>(xs: seq<A>, i: nat, f: A -> seq<B>)
    requires i < |xs|
    ensures Bind(xs[..i + 1], f) == Bind(xs[..i], f) + f(xs[i])
  {
    assert xs[..i + 1][..i] == xs[..i];
  }

  lemma BindAll<A, B>(xs: seq<A>, f: A -> seq<B>)
    ensures Bind(xs[..|xs|], f) == Bind(xs, f) && Bind(xs[..0], f) == []
  {
    assert xs[..|xs|] == xs;
  }

  lemma {:induction false} BindConcat<A, B>(xs: seq<A>, ys: seq<A>, f: A -> seq<B>)
    ensures Bind(xs + ys, f) == Bind(xs, f) + Bind(ys, f)
  {
    if ys == [] {
      assert xs + ys == xs;
    } else {
      hide Bind;
      var front, last := ys[..|ys| - 1], ys[|ys| - 1];
      assert ys == front + [last];
      BindConcat(xs, front, f);
      Sorting.Associative(xs, front, [last]);
      BindStep(xs + front, last, f);
      BindStep(front, last, f);
      Sorting.Associative(Bind(xs, f), Bind(front, f), f(last));
    }
  }

  lemma RemoveAt<T>(s: seq<T>, i: nat)
    requires i < |s|
    ensures multiset(s[..i] + s[i + 1..]) == multiset(s) - multiset{s[i]}
  {
    assert s == s[..i] + [s[i]] + s[i + 1..];
  }

  lemma BindRemoveAt<A, B>(s: seq<A>, i: nat, f: A -> seq<B>)
    requires i < |s|
    ensures multiset(Bind(s, f)) == multiset(Bind(s[..i] + s[i + 1..], f)) + multiset(f(s[i]))
  {
    hide Bind;
    var a, x, b := s[..i], s[i], s[i + 1..];
    assert s == (a + [x]) + b;
    BindConcat(a, b, f);
    BindConcat(a + [x], b, f);
    BindStep(a, x, f);
  }

  /** Permuting the elements permutes the contributions. */
  lemma {:induction false} BindPermutation<A, B>(xs: seq<A>, ys: seq<A>, f: A -> seq<B>)
    requires multiset(xs) == multiset(ys)
    ensures multiset(Bind(xs, f)) == multiset(Bind(ys, f))
  {
    Sorting.SameMembers(xs, ys);
    if xs != [] {
      var last := |xs| - 1;
      assert xs[last] in ys;
      var i :| 0 <= i < |ys| && ys[i] == xs[last];
      RemoveAt(xs, last);
      assert xs[..last] + xs[last + 1..] == xs[..last];
      RemoveAt(ys, i);
      BindPermutation(xs[..last], ys[..i] + ys[i + 1..], f);
      BindRemoveAt(ys, i, f);
    }
  }

  /** Contributions that are permutations of each other add up to permutations. */
  lemma {:induction false} BindSimilar<A, B>(xs: seq<A>, f: A -> seq<B>, g: A -> seq<B>)
    requires forall x | x in xs :: multiset(f(x)) == multiset(g(x))
    ensures multiset(Bind(xs, f)) == multiset(Bind(xs, g))
  {
    if xs != [] {
      assert xs[|xs| - 1] in xs && forall x | x in xs[..|xs| - 1] :: x in xs;
      BindSimilar(xs[..|xs| - 1], f, g);
    }
  }

  lemma {:induction false} BindMember<A, B>(xs: seq<A>, f: A -> seq<B>, y: B)
    requires y in Bind(xs, f)
    ensures exists x :: x in xs && y in f(x)
  {
    var last := |xs| - 1;
    if y in f(xs[last]) {
      assert xs[last] in xs;
    } else {
      BindMember(xs[..last], f, y);
    }
  }

  lemma {:induction false} BindContains<A, B>(xs: seq<A>, f: A -> seq<B>, i: nat, y: B)
    requires i < |xs| && y in f(xs[i])
    ensures y in Bind(xs, f)
  {
    if i < |xs| - 1 {
      BindContains(xs[..|xs| - 1], f, i, y);
    }
  }
}
