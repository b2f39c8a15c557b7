/** Sequences without repetition. */
module Seqs {

  ghost predicate Distinct<T>(s: seq<T>) {
    forall i, j | 0 <= i < j < |s| :: s[i] != s[j]
  }

  function Remove<T>(s: seq<T>, i: nat): seq<T>
    requires i < |s|
  {
    s[..i] + s[i+1..]
  }

  /** The sequence without the first occurrence of `x`. */
  function Without<T(==)>(s: seq<T>, x: T): seq<T> {
    if s == [] then [] else if s[0] == x then s[1..] else [s[0]] + Without(s[1..], x)
  }

  lemma RemoveIndex<T>(s: seq<T>, i: nat)
    requires i < |s|
    ensures |Remove(s, i)| == |s| - 1
    ensures forall j | 0 <= j < |s| - 1 :: Remove(s, i)[j] == if j < i then s[j] else s[j+1]
  {}

  lemma RemoveDistinct<T>(s: seq<T>, i: nat)
    requires Distinct(s) && i < |s|
    ensures forall x :: x in Remove(s, i) <==> x in s && x != s[i]
  {
    RemoveIndex(s, i);
    forall x | x in s && x != s[i] ensures x in Remove(s, i) {
      var j :| 0 <= j < |s| && s[j] == x;
      assert Remove(s, i)[if j < i then j else j - 1] == x;
    }
  }

  ghost function Position<T>(all: seq<T>, x: T): (i: nat)
    requires x in all
    ensures i < |all| && all[i] == x
  {
    if all[0] == x then 0 else 1 + Position(all[1..], x)
  }
}
