/**
 * `java.util.List.remove(Object)` on a list of entities. The entities do
 * not override `equals`, so the removed element is the first one that is
 * the very same object.
 */
module Lists {

  /** The position of the first `x` in `s`, or `|s|` when there is none. */
  function FirstIndex<T(==)>(s: seq<T>, x: T): (k: nat)
    ensures k <= |s|
    ensures k < |s| ==> s[k] == x
    ensures forall i :: 0 <= i < k ==> s[i] != x
    decreases |s|
  {
    if s == [] then 0
    else if s[0] == x then 0
    else 1 + FirstIndex(s[1..], x)
  }

  /** The list without its first `x`; unchanged when `x` is absent. */
  function RemoveFirst<T(==)>(s: seq<T>, x: T): seq<T>
    decreases |s|
  {
    if s == [] then []
    else if s[0] == x then s[1..]
    else [s[0]] + RemoveFirst(s[1..], x)
  }

  /** Removal cuts out exactly the first occurrence and keeps the rest in order. */
  lemma {:induction false} RemoveFirstCutsFirst<T>(s: seq<T>, x: T)
    ensures var k := FirstIndex(s, x);
      RemoveFirst(s, x) == if k < |s| then s[..k] + s[k + 1..] else s
    decreases |s|
  {
    if s != [] && s[0] != x {
      RemoveFirstCutsFirst(s[1..], x);
      var k := FirstIndex(s[1..], x);
      if k < |s[1..]| {
        assert [s[0]] + (s[1..][..k] + s[1..][k + 1..]) == s[..k + 1] + s[k + 2..];
      } else {
        assert [s[0]] + s[1..] == s;
      }
    }
  }

  /** Removing an element that is not there changes nothing. */
  lemma {:induction false} RemoveFirstAbsent<T>(s: seq<T>, x: T)
    requires x !in s
    ensures RemoveFirst(s, x) == s
    decreases |s|
  {
    if s != [] {
      RemoveFirstAbsent(s[1..], x);
      assert [s[0]] + s[1..] == s;
    }
  }

  /** Removal takes one copy of `x` out of the multiset of elements, when there is one. */
  lemma {:induction false} RemoveFirstMultiset<T>(s: seq<T>, x: T)
    ensures multiset(RemoveFirst(s, x)) == multiset(s) - multiset{x}
    decreases |s|
  {
    if s == [] {
    } else if s[0] == x {
      assert s == [x] + s[1..];
    } else {
      RemoveFirstMultiset(s[1..], x);
      assert s == [s[0]] + s[1..];
    }
  }

  /** A linear scan that stops at the first match finds `FirstIndex`. */
  lemma FirstIndexUnique<T>(s: seq<T>, x: T, i: nat)
    requires i <= |s|
    requires forall j :: 0 <= j < i ==> s[j] != x
    requires i < |s| ==> s[i] == x
    ensures i == FirstIndex(s, x)
  {
  }
}
