/** Bottom-up merge sort on sequences: what the in-place list sort of uthash.h computes,
    and why its result is the stable sorted permutation of its input. */
module MergeSort {
  import opened Seqs

  /** Merging two runs; on ties the left run goes first. */
  function Merge<T>(a: seq<T>, b: seq<T>, cmp: (T, T) -> int): seq<T>
    decreases |a| + |b|
  {
    if a == [] then b
    else if b == [] then a
    else if cmp(a[0], b[0]) <= 0 then [a[0]] + Merge(a[1..], b, cmp)
    else [b[0]] + Merge(a, b[1..], cmp)
  }

  function Min(x: nat, y: nat): nat {
    if x <= y then x else y
  }

  /** One pass from position `from` on: neighbouring runs of `w` items are merged. */
  function PassFrom<T>(s: seq<T>, from: nat, w: nat, cmp: (T, T) -> int): seq<T>
    requires w > 0 && from <= |s|
    decreases |s| - from
  {
    if from == |s| then []
    else
      var m, e := Min(from + w, |s|), Min(from + 2 * w, |s|);
      Merge(s[from..m], s[m..e], cmp) + PassFrom(s, e, w, cmp)
  }

  function MergePass<T>(s: seq<T>, w: nat, cmp: (T, T) -> int): seq<T>
    requires w > 0
  {
    PassFrom(s, 0, w, cmp)
  }

  /** Passes with doubling runs until one merge covers everything. */
  function Passes<T>(s: seq<T>, w: nat, cmp: (T, T) -> int): seq<T>
    requires w > 0
    decreases |s| - w
  {
    var s' := MergePass(s, w, cmp);
    if |s| <= 2 * w then s' else (PassKeeps(s, w, cmp); Passes(s', 2 * w, cmp))
  }

  lemma {:induction false} MergeKeeps<T>(a: seq<T>, b: seq<T>, cmp: (T, T) -> int)
    ensures multiset(Merge(a, b, cmp)) == multiset(a) + multiset(b) == multiset(a + b)
    ensures |Merge(a, b, cmp)| == |a| + |b|
    decreases |a| + |b|
  {
    if a != [] && b != [] {
      assert a == [a[0]] + a[1..] && b == [b[0]] + b[1..];
      if cmp(a[0], b[0]) <= 0 {
        MergeKeeps(a[1..], b, cmp);
      } else {
        MergeKeeps(a, b[1..], cmp);
      }
    }
  }

  lemma Cut<T>(s: seq<T>, i: nat, m: nat, e: nat)
    requires i <= m <= e <= |s|
    ensures multiset(s[i..]) == multiset(s[i..m]) + multiset(s[m..e]) + multiset(s[e..])
  {
    assert s[i..] == s[i..m] + s[m..e] + s[e..];
  }

  lemma Join<T>(a: seq<T>, b: seq<T>)
    ensures multiset(a + b) == multiset(a) + multiset(b)
  {}

  lemma {:induction false} PassFromKeeps<T>(s: seq<T>, from: nat, w: nat, cmp: (T, T) -> int)
    requires w > 0 && from <= |s|
    ensures multiset(PassFrom(s, from, w, cmp)) == multiset(s[from..]) && |PassFrom(s, from, w, cmp)| == |s| - from
    decreases |s| - from
  {
    if from < |s| {
      var m, e := Min(from + w, |s|), Min(from + 2 * w, |s|);
      MergeKeeps(s[from..m], s[m..e], cmp);
      PassFromKeeps(s, e, w, cmp);
      Cut(s, from, m, e);
      Join(Merge(s[from..m], s[m..e], cmp), PassFrom(s, e, w, cmp));
      hide Merge;
    }
  }

  lemma PassKeeps<T>(s: seq<T>, w: nat, cmp: (T, T) -> int)
    requires w > 0
    ensures multiset(MergePass(s, w, cmp)) == multiset(s) && |MergePass(s, w, cmp)| == |s|
  {
    PassFromKeeps(s, 0, w, cmp);
    assert s[0..] == s;
  }

  /** The result is a permutation, whatever the comparison does. */
  lemma {:induction false} PassesKeep<T>(s: seq<T>, w: nat, cmp: (T, T) -> int)
    requires w > 0
    ensures multiset(Passes(s, w, cmp)) == multiset(s)
    decreases |s| - w
  {
    PassKeeps(s, w, cmp);
    if |s| > 2 * w { PassesKeep(MergePass(s, w, cmp), 2 * w, cmp); }
  }

  // ---------------------------------------------------------------- order

  ghost predicate TotalPreorder<T>(all: seq<T>, cmp: (T, T) -> int) {
    && (forall x, y | x in all && y in all :: cmp(x, y) <= 0 || cmp(y, x) <= 0)
    && (forall x, y, z | x in all && y in all && z in all && cmp(x, y) <= 0 && cmp(y, z) <= 0 :: cmp(x, z) <= 0)
  }

  /** `x` may stand before `y` in a stable sort of `all`. */
  ghost predicate Before<T>(all: seq<T>, cmp: (T, T) -> int, x: T, y: T)
    requires x in all && y in all
  {
    cmp(x, y) <= 0 && (cmp(y, x) <= 0 ==> Position(all, x) < Position(all, y))
  }

  ghost predicate Within<T>(s: seq<T>, all: seq<T>) {
    forall i | 0 <= i < |s| :: s[i] in all
  }

  ghost predicate Stable<T>(s: seq<T>, all: seq<T>, cmp: (T, T) -> int) {
    Within(s, all) && forall i, j | 0 <= i < j < |s| :: Before(all, cmp, s[i], s[j])
  }

  /** Everything in `a` was before everything in `b`. */
  ghost predicate Earlier<T>(a: seq<T>, b: seq<T>, all: seq<T>) {
    && Within(a, all) && Within(b, all)
    && forall i, j | 0 <= i < |a| && 0 <= j < |b| :: Position(all, a[i]) < Position(all, b[j])
  }

  lemma {:induction false} MergeMembers<T>(a: seq<T>, b: seq<T>, cmp: (T, T) -> int)
    ensures forall x | x in Merge(a, b, cmp) :: x in a || x in b
  {
    MergeKeeps(a, b, cmp);
    forall x | x in Merge(a, b, cmp) ensures x in a || x in b {
      assert x in multiset(Merge(a, b, cmp));
    }
  }

  lemma {:induction false} MergeStable<T>(a: seq<T>, b: seq<T>, all: seq<T>, cmp: (T, T) -> int)
    requires TotalPreorder(all, cmp) && Stable(a, all, cmp) && Stable(b, all, cmp) && Earlier(a, b, all)
    ensures Stable(Merge(a, b, cmp), all, cmp)
    decreases |a| + |b|
  {
    if a != [] && b != [] {
      if cmp(a[0], b[0]) <= 0 {
        MergeStable(a[1..], b, all, cmp);
        MergeMembers(a[1..], b, cmp);
        FirstIsLeast(a[0], a, b, Merge(a[1..], b, cmp), all, cmp);
      } else {
        MergeStable(a, b[1..], all, cmp);
        MergeMembers(a, b[1..], cmp);
        RightIsLeast(a, b, Merge(a, b[1..], cmp), all, cmp);
      }
    }
  }

  lemma FirstIsLeast<T>(x: T, a: seq<T>, b: seq<T>, rest: seq<T>, all: seq<T>, cmp: (T, T) -> int)
    requires TotalPreorder(all, cmp) && Stable(a, all, cmp) && Stable(b, all, cmp) && Earlier(a, b, all)
    requires a != [] && b != [] && x == a[0] && cmp(x, b[0]) <= 0
    requires Stable(rest, all, cmp) && forall y | y in rest :: y in a[1..] || y in b
    ensures Stable([x] + rest, all, cmp)
  {
    hide TotalPreorder;
    forall k | 0 <= k < |rest| ensures Before(all, cmp, x, rest[k]) {
      var y := rest[k];
      if y in a[1..] {
        var i :| 0 <= i < |a[1..]| && a[1..][i] == y;
        assert a[i+1] == y;
      } else {
        var j :| 0 <= j < |b| && b[j] == y;
        assert j > 0 ==> Before(all, cmp, b[0], y);
        Transitive(x, b[0], y, all, cmp);
      }
    }
  }

  lemma RightIsLeast<T>(a: seq<T>, b: seq<T>, rest: seq<T>, all: seq<T>, cmp: (T, T) -> int)
    requires TotalPreorder(all, cmp) && Stable(a, all, cmp) && Stable(b, all, cmp) && Earlier(a, b, all)
    requires a != [] && b != [] && cmp(a[0], b[0]) > 0
    requires Stable(rest, all, cmp) && forall y | y in rest :: y in a || y in b[1..]
    ensures Stable([b[0]] + rest, all, cmp)
  {
    var x := b[0];
    assert cmp(x, a[0]) <= 0;
    hide TotalPreorder;
    forall k | 0 <= k < |rest| ensures Before(all, cmp, x, rest[k]) {
      var y := rest[k];
      if y in b[1..] {
        var i :| 0 <= i < |b[1..]| && b[1..][i] == y;
        assert b[i+1] == y;
      } else {
        var j :| 0 <= j < |a| && a[j] == y;
        assert j > 0 ==> Before(all, cmp, a[0], y);
        Transitive(x, a[0], y, all, cmp);
        Transitive(a[0], y, x, all, cmp);
      }
    }
  }

  /** Transitivity where the first two comparisons are known, the second one possibly of an item with itself. */
  lemma Transitive<T>(x: T, y: T, z: T, all: seq<T>, cmp: (T, T) -> int)
    requires TotalPreorder(all, cmp) && x in all && y in all && z in all
    ensures cmp(x, y) <= 0 && (cmp(y, z) <= 0 || y == z) ==> cmp(x, z) <= 0
    ensures (cmp(x, y) <= 0 || x == y) && cmp(y, z) <= 0 ==> cmp(x, z) <= 0
  {}

  /** `r` is the stable sort of the stretch of `all` between `lo` and `hi`. */
  ghost predicate Run<T>(r: seq<T>, all: seq<T>, lo: nat, hi: nat, cmp: (T, T) -> int)
    requires lo <= hi <= |all|
  {
    Stable(r, all, cmp) && multiset(r) == multiset(all[lo..hi])
  }

  /** From `from` on, each run of `w` items of `s` is the stable sort of the same stretch of `all`. */
  ghost predicate Runs<T>(s: seq<T>, all: seq<T>, from: nat, w: nat, cmp: (T, T) -> int)
    requires w > 0 && from <= |s| == |all|
    decreases |s| - from
  {
    from == |s| ||
    var m := Min(from + w, |s|);
    Run(s[from..m], all, from, m, cmp) && Runs(s, all, m, w, cmp)
  }

  lemma {:induction false} SingleRuns<T>(all: seq<T>, from: nat, cmp: (T, T) -> int)
    requires from <= |all|
    ensures Runs(all, all, from, 1, cmp)
    decreases |all| - from
  {
    if from < |all| { SingleRuns(all, from + 1, cmp); }
  }

  lemma {:induction false} PositionOf<T>(all: seq<T>, i: nat)
    requires Distinct(all) && i < |all|
    ensures Position(all, all[i]) == i
  {
    var k := Position(all, all[i]);
    assert all[k] == all[i];
  }

  lemma PositionIn<T>(all: seq<T>, lo: nat, hi: nat, s: seq<T>, i: nat)
    requires Distinct(all) && lo <= hi <= |all| && multiset(s) == multiset(all[lo..hi]) && i < |s|
    ensures s[i] in all && lo <= Position(all, s[i]) < hi
  {
    assert s[i] in multiset(all[lo..hi]);
    var k :| 0 <= k < hi - lo && all[lo..hi][k] == s[i];
    assert all[lo + k] == s[i];
    PositionOf(all, lo + k);
  }

  lemma RunsApart<T>(a: seq<T>, b: seq<T>, all: seq<T>, lo: nat, mid: nat, hi: nat)
    requires Distinct(all) && lo <= mid <= hi <= |all|
    requires multiset(a) == multiset(all[lo..mid]) && multiset(b) == multiset(all[mid..hi])
    ensures Earlier(a, b, all)
  {
    forall i | 0 <= i < |a| ensures a[i] in all && Position(all, a[i]) < mid { PositionIn(all, lo, mid, a, i); }
    forall j | 0 <= j < |b| ensures b[j] in all && mid <= Position(all, b[j]) { PositionIn(all, mid, hi, b, j); }
  }

  lemma MergedRun<T>(a: seq<T>, b: seq<T>, all: seq<T>, lo: nat, mid: nat, hi: nat, cmp: (T, T) -> int)
    requires TotalPreorder(all, cmp) && Distinct(all) && lo <= mid <= hi <= |all|
    requires Run(a, all, lo, mid, cmp) && Run(b, all, mid, hi, cmp)
    ensures Run(Merge(a, b, cmp), all, lo, hi, cmp)
  {
    hide Merge, Stable, TotalPreorder, Earlier, Distinct;
    RunsApart(a, b, all, lo, mid, hi);
    MergeStable(a, b, all, cmp);
    MergeKeeps(a, b, cmp);
    assert all[lo..hi] == all[lo..mid] + all[mid..hi];
  }

  lemma Lengths<T>(a: seq<T>, b: seq<T>, s: seq<T>, from: nat, w: nat, cmp: (T, T) -> int)
    requires w > 0 && from <= |s|
    ensures |Merge(a, b, cmp)| == |a| + |b| && |PassFrom(s, from, w, cmp)| == |s| - from
  {
    MergeKeeps(a, b, cmp);
    PassFromKeeps(s, from, w, cmp);
  }

  lemma Glue<T>(done: seq<T>, merged: seq<T>, rest: seq<T>)
    ensures done + (merged + rest) == done + merged + rest
    ensures (done + merged + rest)[|done|..|done| + |merged|] == merged
  {}

  /** A pass doubles the length of the sorted runs. */
  lemma {:induction false} PassDoubles<T>(done: seq<T>, s: seq<T>, all: seq<T>, w: nat, cmp: (T, T) -> int)
    requires TotalPreorder(all, cmp) && Distinct(all) && w > 0 && |done| <= |s| == |all|
    requires Runs(s, all, |done|, w, cmp)
    ensures |PassFrom(s, |done|, w, cmp)| == |s| - |done|
    ensures Runs(done + PassFrom(s, |done|, w, cmp), all, |done|, 2 * w, cmp)
    decreases |s| - |done|
  {
    hide Merge, Run, TotalPreorder, Distinct;
    var from := |done|;
    Lengths([], [], s, from, w, cmp);
    if from < |s| {
      var m, e := Min(from + w, |s|), Min(from + 2 * w, |s|);
      EmptyRun(all, m, cmp);
      assert m == |s| ==> s[m..e] == [];
      var merged, rest := Merge(s[from..m], s[m..e], cmp), PassFrom(s, e, w, cmp);
      MergedRun(s[from..m], s[m..e], all, from, m, e, cmp);
      Lengths(s[from..m], s[m..e], s, e, w, cmp);
      PassDoubles(done + merged, s, all, w, cmp);
      Glue(done, merged, rest);
    }
  }

  lemma EmptyRun<T>(all: seq<T>, lo: nat, cmp: (T, T) -> int)
    requires lo <= |all|
    ensures Run([], all, lo, lo, cmp)
  {}

  lemma {:induction false} PassesStable<T>(s: seq<T>, all: seq<T>, w: nat, cmp: (T, T) -> int)
    requires TotalPreorder(all, cmp) && Distinct(all) && w > 0 && |s| == |all| && Runs(s, all, 0, w, cmp)
    ensures Stable(Passes(s, w, cmp), all, cmp)
    decreases |s| - w
  {
    PassDoubles([], s, all, w, cmp);
    var r := MergePass(s, w, cmp);
    assert [] + r == r;
    if |s| <= 2 * w {
      assert r[0..|r|] == r;
    } else {
      PassesStable(r, all, 2 * w, cmp);
    }
  }

  /** The sort is stable: items are in order, and equal items stay in the order they had. */
  lemma SortIsStable<T>(s: seq<T>, cmp: (T, T) -> int)
    requires TotalPreorder(s, cmp) && Distinct(s)
    ensures Stable(Passes(s, 1, cmp), s, cmp) && multiset(Passes(s, 1, cmp)) == multiset(s)
  {
    SingleRuns(s, 0, cmp);
    PassesStable(s, s, 1, cmp);
    PassesKeep(s, 1, cmp);
  }

  lemma Tail<T>(s: seq<T>)
    requires s != []
    ensures multiset(s[1..]) == multiset(s) - multiset{s[0]}
  {
    assert s == [s[0]] + s[1..];
  }

  lemma SameFirst<T>(r: seq<T>, t: seq<T>, all: seq<T>, cmp: (T, T) -> int)
    requires Stable(r, all, cmp) && Stable(t, all, cmp) && multiset(r) == multiset(t) && r != [] && t != []
    ensures r[0] == t[0]
  {
    assert r[0] in multiset(t) && t[0] in multiset(r);
    FirstBefore(r, t[0], all, cmp);
    FirstBefore(t, r[0], all, cmp);
  }

  lemma FirstBefore<T>(s: seq<T>, y: T, all: seq<T>, cmp: (T, T) -> int)
    requires Stable(s, all, cmp) && y in s
    ensures y in all && s[0] in all && (y == s[0] || Before(all, cmp, s[0], y))
  {
    var i :| 0 <= i < |s| && s[i] == y;
  }

  /** No other arrangement of the items is stable. */
  lemma {:induction false} StableIsUnique<T>(r: seq<T>, t: seq<T>, all: seq<T>, cmp: (T, T) -> int)
    requires Stable(r, all, cmp) && Stable(t, all, cmp) && multiset(r) == multiset(t)
    ensures r == t
  {
    if r == [] || t == [] {
      assert |multiset(r)| == |multiset(t)|;
    } else {
      SameFirst(r, t, all, cmp);
      Tail(r);
      Tail(t);
      StableIsUnique(r[1..], t[1..], all, cmp);
    }
  }
}
