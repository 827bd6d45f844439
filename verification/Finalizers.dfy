/** Finalizers of an object (internal/controller/finalizers.go). A Go slice is a backing array and a length; removing
    compacts the backing array in place. */
module Finalizers {

  /** The list without an item, in order. */
  function Without(s: seq<string>, item: string): seq<string> {
    if s == [] then []
    else
      var before := Without(s[..|s| - 1], item);
      if s[|s| - 1] == item then before else before + [s[|s| - 1]]
  }

  lemma WithoutStep(s: seq<string>, i: nat, item: string)
    requires i < |s|
    ensures Without(s[..i + 1], item) == Without(s[..i], item) + if s[i] == item then [] else [s[i]]
    ensures item in s[..i + 1] <==> item in s[..i] || s[i] == item
  {
    assert s[..i + 1][..i] == s[..i] && s[..i + 1] == s[..i] + [s[i]];
  }

  lemma {:induction false} WithoutConcat(a: seq<string>, b: seq<string>, item: string)
    ensures Without(a + b, item) == Without(a, item) + Without(b, item)
  {
    if b == [] {
      assert a + b == a;
    } else {
      var last := |b| - 1;
      assert (a + b)[..|a| + last] == a + b[..last];
      WithoutConcat(a, b[..last], item);
    }
  }

  lemma WithoutOne(finalizer: string, item: string)
    ensures Without([finalizer], item) == if finalizer == item then [] else [finalizer]
  {
    assert [finalizer][..0] == [];
  }

  lemma WithoutNone(s: seq<string>, item: string)
    requires s == []
    ensures Without(s, item) == []
  {
  }

  class ObjectMeta {
    var backing: array<string>
    var len: nat

    ghost predicate Valid()
      reads this
    {
      len <= backing.Length
    }

    ghost function Items(): seq<string>
      requires Valid()
      reads this, backing
    {
      backing[..len]
    }

    constructor (items: seq<string>)
      ensures Valid() && fresh(backing) && Items() == items
    {
      backing := new string[|items|](i requires 0 <= i < |items| => items[i]);
      len := |items|;
    }

    method Read() returns (items: seq<string>)
      requires Valid()
      ensures items == Items()
    {
      items := backing[..len];
    }

    method HasFinalizer(finalizer: string) returns (found: bool)
      requires Valid()
      ensures found <==> finalizer in Items()
    {
      for i := 0 to len
        invariant finalizer !in backing[..i]
      {
        if backing[i] == finalizer {
          return true;
        }
      }
      return false;
    }

    method AddFinalizer(finalizer: string) returns (added: bool)
      requires Valid()
      modifies this, backing
      ensures Valid() && (backing == old(backing) || fresh(backing))
      ensures added <==> finalizer !in old(Items())
      ensures Items() == if added then old(Items()) + [finalizer] else old(Items())
    {
      var found := HasFinalizer(finalizer);
      if found {
        return false;
      }
      if len == backing.Length {
        var grown := new string[2 * len + 1](i requires 0 <= i < 2 * len + 1 reads this, backing
                                               => if i < backing.Length then backing[i] else "");
        assert grown[..len] == backing[..len];
        backing := grown;
      }
      backing[len] := finalizer;
      len := len + 1;
      return true;
    }

    method RemoveFinalizer(finalizer: string) returns (removed: bool)
      requires Valid()
      modifies this, backing
      ensures Valid() && backing == old(backing)
      ensures removed <==> finalizer in old(Items())
      ensures Items() == Without(old(Items()), finalizer)
    {
      hide Without;
      ghost var items := Items();
      assert Without(items[..0], finalizer) == [] by { WithoutNone(items[..0], finalizer); }
      var next := 0;
      removed := false;
      for i := 0 to len
        invariant len == old(len) && backing == old(backing) && next <= i
        invariant backing[..next] == Without(items[..i], finalizer)
        invariant backing[i..len] == items[i..]
        invariant removed <==> finalizer in items[..i]
        invariant !removed ==> next == i
      {
        WithoutStep(items, i, finalizer);
        assert backing[i] == backing[i..len][0] == items[i];
        if backing[i] == finalizer {
          removed := true;
          continue;
        }
        label write: backing[next] := backing[i];
        assert backing[..next] == old@write(backing[..next]);
        assert backing[i + 1..len] == old@write(backing[i..len])[1..];
        next := next + 1;
      }
      assert items[..len] == items;
      if removed {
        len := next;
      }
    }
  }

  lemma {:induction false} WithoutMembers(s: seq<string>, item: string)
    ensures forall x :: x in Without(s, item) <==> x in s && x != item
    ensures item !in s ==> Without(s, item) == s
  {
    if s != [] {
      WithoutMembers(s[..|s| - 1], item);
      assert s == s[..|s| - 1] + [s[|s| - 1]];
    }
  }

  /** Removing undoes adding, and adds nothing back: the other finalizers keep their order. */
  lemma RemoveUndoesAdd(s: seq<string>, item: string)
    requires item !in s
    ensures Without(s + [item], item) == s
  {
    assert (s + [item])[..|s|] == s;
    WithoutMembers(s, item);
  }

  /** Removing leaves every other finalizer as often as it was. */
  lemma {:induction false} WithoutKeeps(s: seq<string>, item: string)
    ensures multiset(Without(s, item)) == multiset(s)[item := 0]
  {
    if s != [] {
      WithoutKeeps(s[..|s| - 1], item);
      assert s == s[..|s| - 1] + [s[|s| - 1]];
    }
  }
}
