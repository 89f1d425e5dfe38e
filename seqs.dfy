/** Sequence helpers shared by the grid cells and the landmine list, both of
    which are Python lists in the simulation. */
module Seqs {

  /** No value occurs twice in `s`. */
  ghost predicate NoDups<T>(s: seq<T>) {
    forall i, j :: 0 <= i < j < |s| ==> s[i] != s[j]
  }

  /** Python's `list.remove(x)`: drops the first occurrence of `x` and keeps
      the order of everything else. Python raises `ValueError` when `x` is
      absent; every caller here removes a value it knows to be present. */
  function RemoveFirst<T(==)>(s: seq<T>, x: T): (r: seq<T>)
    requires x in s
    ensures |r| == |s| - 1
    ensures multiset(r) == multiset(s) - multiset{x}
    ensures s[0] == x ==> r == s[1..]
  {
    assert s == [s[0]] + s[1..];
    if s[0] == x then s[1..] else [s[0]] + RemoveFirst(s[1..], x)
  }

  /** `RemoveFirst` drops exactly the first occurrence: the entries before
      it and after it stay, in order. */
  lemma {:induction false} RemoveFirstAt<T>(s: seq<T>, x: T, i: nat)
    requires i < |s| && s[i] == x && x !in s[..i]
    ensures RemoveFirst(s, x) == s[..i] + s[i + 1..]
    decreases i
  {
    if i > 0 {
      assert s[1..][..i - 1] == s[1..i];
      assert x !in s[1..][..i - 1];
      RemoveFirstAt(s[1..], x, i - 1);
      assert s[..i] == [s[0]] + s[1..][..i - 1];
      assert s[i + 1..] == s[1..][i..];
    }
  }

  /** Removing a value that heads a duplicate-free list drops exactly the head. */
  lemma RemoveHead<T>(s: seq<T>)
    requires |s| > 0 && NoDups(s)
    ensures RemoveFirst(s, s[0]) == s[1..]
    ensures NoDups(s[1..]) && s[0] !in s[1..]
  {
  }
}
