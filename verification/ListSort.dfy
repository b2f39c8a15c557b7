/** HASH_SRT of uthash.h: the insertion-order list of a hash table is merge sorted in place. */
module ListSort {
  import opened Seqs
  import opened HashTable
  import opened MergeSort

  ghost function At<K>(src: seq<Handle<K>>, i: nat): Handle?<K> {
    if i < |src| then src[i] else null
  }

  /** The nodes between `lo` and `hi` still point to their successors. */
  ghost predicate Ahead<K>(src: seq<Handle<K>>, lo: nat, hi: nat)
    requires lo <= hi <= |src|
    reads src`next
  {
    forall k {:trigger src[k].next} | lo <= k < hi :: src[k].next == At(src, k + 1)
  }

  /** The output list so far; the last node does not yet end it. */
  ghost predicate Emitted<K>(out: seq<Handle<K>>, list: Handle?<K>, tail: Handle?<K>)
    reads out`next, out`prev
  {
    && Distinct(out)
    && (out == [] <==> list == null) && (out == [] <==> tail == null)
    && (out != [] ==> list == out[0] && tail == out[|out|-1] && out[0].prev == null)
    && (forall i {:trigger out[i].next} | 0 <= i < |out| - 1 :: out[i].next == out[i+1])
    && (forall i {:trigger out[i].prev} | 1 <= i < |out| :: out[i].prev == out[i-1])
  }

  ghost predicate Fresh<K>(out: seq<Handle<K>>, src: seq<Handle<K>>, lo: nat, hi: nat)
    requires lo <= hi <= |src|
  {
    forall k | lo <= k < hi :: src[k] !in out
  }

  ghost predicate Inside<K>(out: seq<Handle<K>>, src: seq<Handle<K>>) {
    forall k | 0 <= k < |out| :: out[k] in src
  }

  /** Linking one node behind the output. */
  method Emit<K>(e: Handle<K>, list: Handle?<K>, tail: Handle?<K>, ghost out: seq<Handle<K>>) returns (list': Handle?<K>)
    requires Emitted(out, list, tail) && e !in out
    modifies out`next, e`prev
    ensures Emitted(out + [e], list', e)
  {
    list' := list;
    if tail != null {
      tail.next := e;
    } else {
      list' := e;
    }
    e.prev := tail;
  }

  /** Where the merge of `src[from..m]` with `src[m..e]` stands: `i` and `j` items are out of `p` and `q`. */
  ghost predicate Merging<K>(src: seq<Handle<K>>, i: nat, m: nat, j: nat, out: seq<Handle<K>>, list: Handle?<K>, tail: Handle?<K>)
    requires i <= m <= j <= |src|
    reads src`next, out`next, out`prev
  {
    && Distinct(src) && Emitted(out, list, tail) && Inside(out, src)
    && Ahead(src, i, m) && Ahead(src, j, |src|)
    && Fresh(out, src, i, m) && Fresh(out, src, j, |src|)
  }

  /** Emitting a node of either run. */
  method Take<K>(x: Handle<K>, list: Handle?<K>, tail: Handle?<K>, ghost src: seq<Handle<K>>,
                 ghost i: nat, ghost m: nat, ghost j: nat, ghost i': nat, ghost j': nat, ghost out: seq<Handle<K>>)
      returns (next: Handle?<K>, list': Handle?<K>)
    requires i <= m <= j <= |src| && Merging(src, i, m, j, out, list, tail)
    requires (i < m && x == src[i] && i' == i + 1 && j' == j) || (j < |src| && x == src[j] && i' == i && j' == j + 1)
    modifies src`next, src`prev
    ensures next == At(src, if i' > i then i' else j')
    ensures Merging(src, i', m, j', out + [x], list', x)
  {
    next := x.next;
    list' := Emit(x, list, tail, out);
  }

  lemma MergeTakes<T>(src: seq<T>, i: nat, m: nat, j: nat, e: nat, cmp: (T, T) -> int)
    requires i <= m <= j <= e <= |src|
    ensures i < m && (j == e || cmp(src[i], src[j]) <= 0) ==>
      Merge(src[i..m], src[j..e], cmp) == [src[i]] + Merge(src[i+1..m], src[j..e], cmp)
    ensures j < e && (i == m || cmp(src[i], src[j]) > 0) ==>
      Merge(src[i..m], src[j..e], cmp) == [src[j]] + Merge(src[i..m], src[j+1..e], cmp)
    ensures i == m && j == e ==> Merge(src[i..m], src[j..e], cmp) == []
  {
    var a, b := src[i..m], src[j..e];
    assert i < m ==> a[1..] == src[i+1..m] && a == [a[0]] + a[1..];
    assert j < e ==> b[1..] == src[j+1..e] && b == [b[0]] + b[1..];
    assert i == m ==> Merge(a, b, cmp) == b;
    assert i == m && j < e ==> Merge(a, b[1..], cmp) == b[1..];
    assert j == e ==> Merge(a, b, cmp) == a;
    assert j == e && i < m ==> Merge(a[1..], b, cmp) == a[1..];
  }

  /** The merge loop of HASH_SRT. */
  method MergeRuns<K>(p0: Handle<K>, q0: Handle?<K>, psize0: nat, insize: nat, list0: Handle?<K>, tail0: Handle?<K>,
                      cmp: (Handle<K>, Handle<K>) -> int,
                      ghost src: seq<Handle<K>>, ghost from: nat, ghost m: nat, ghost e: nat, ghost out0: seq<Handle<K>>)
      returns (q: Handle?<K>, list: Handle?<K>, tail: Handle?<K>, ghost out: seq<Handle<K>>)
    requires from <= m <= |src| && psize0 == m - from && e == Min(m + insize, |src|)
    requires p0 == At(src, from) && q0 == At(src, m) && Merging(src, from, m, m, out0, list0, tail0)
    modifies src`next, src`prev
    ensures q == At(src, e) && Merging(src, m, m, e, out, list, tail)
    ensures out == out0 + Merge(src[from..m], src[m..e], cmp)
  {
    hide Merging, Merge;
    var p: Handle?<K> := p0;
    var psize, qsize := psize0, insize;
    ghost var i, j := from, m;
    q, list, tail, out := q0, list0, tail0, out0;
    while psize != 0 || (qsize != 0 && q != null)
      invariant from <= i <= m <= j <= e && psize == m - i && qsize == insize - (j - m)
      invariant (i < m ==> p == src[i]) && q == At(src, j)
      invariant Merging(src, i, m, j, out, list, tail)
      invariant out + Merge(src[i..m], src[j..e], cmp) == out0 + Merge(src[from..m], src[m..e], cmp)
      decreases m - i + e - j
    {
      MergeTakes(src, i, m, j, e, cmp);
      var el: Handle<K>;
      if psize == 0 {
        el := q;
        q, list := Take(el, list, tail, src, i, m, j, i, j + 1, out);
        qsize, j := qsize - 1, j + 1;
      } else if qsize == 0 || q == null {
        el := p;
        p, list := Take(el, list, tail, src, i, m, j, i + 1, j, out);
        psize, i := psize - 1, i + 1;
      } else if cmp(p, q) <= 0 {
        el := p;
        p, list := Take(el, list, tail, src, i, m, j, i + 1, j, out);
        psize, i := psize - 1, i + 1;
      } else {
        el := q;
        q, list := Take(el, list, tail, src, i, m, j, i, j + 1, out);
        qsize, j := qsize - 1, j + 1;
      }
      assert out + ([el] + Merge(src[i..m], src[j..e], cmp)) == out + [el] + Merge(src[i..m], src[j..e], cmp);
      tail, out := el, out + [el];
    }
    MergeTakes(src, i, m, j, e, cmp);
  }

  /** One round of a pass: finding two runs and merging them. */
  method MergePair<K>(p: Handle<K>, insize: nat, list0: Handle?<K>, tail0: Handle?<K>, cmp: (Handle<K>, Handle<K>) -> int,
                      ghost src: seq<Handle<K>>, ghost d: nat, ghost e: nat, ghost out0: seq<Handle<K>>)
      returns (q: Handle?<K>, list: Handle?<K>, tail: Handle?<K>, ghost out: seq<Handle<K>>)
    requires insize > 0 && d < |src| && p == src[d] && e == Min(d + 2 * insize, |src|)
    requires Merging(src, d, d, d, out0, list0, tail0)
    modifies src`next, src`prev
    ensures q == At(src, e) && Merging(src, e, e, e, out, list, tail)
    ensures out + PassFrom(src, e, insize, cmp) == out0 + PassFrom(src, d, insize, cmp)
  {
    hide Merging, Merge, Ahead;
    SplitMerging(src, d, d, out0, list0, tail0);
    var psize;
    q, psize := FirstRunEnds(p, insize, src, d);
    ghost var m := d + psize;
    SplitMerging(src, d, m, out0, list0, tail0);
    q, list, tail, out := MergeRuns(p, q, psize, insize, list0, tail0, cmp, src, d, m, e, out0);
    JoinMerging(src, m, e, out, list, tail);
    ghost var merged, rest := Merge(src[d..m], src[m..e], cmp), PassFrom(src, e, insize, cmp);
    assert out0 + (merged + rest) == out0 + merged + rest;
  }

  /** One pass of HASH_SRT. */
  method Pass<K>(list0: Handle<K>, insize: nat, cmp: (Handle<K>, Handle<K>) -> int, ghost src: seq<Handle<K>>)
      returns (list: Handle?<K>, tail: Handle?<K>, nmerges: nat)
    requires insize > 0 && src != [] && list0 == src[0] && Distinct(src) && Ahead(src, 0, |src|)
    modifies src`next, src`prev
    ensures OrderList(MergePass(src, insize, cmp), list, tail)
    ensures nmerges <= 1 <==> |src| <= 2 * insize
  {
    hide Merging, Merge, Ahead, OrderList, Distinct;
    var p: Handle?<K> := list0;
    list, tail, nmerges := null, null, 0;
    ghost var d, out := 0, [];
    StartsMerging(src);
    while p != null
      invariant d <= |src| && p == At(src, d) && Merging(src, d, d, d, out, list, tail)
      invariant out + PassFrom(src, d, insize, cmp) == MergePass(src, insize, cmp)
      invariant nmerges == 0 ==> d == 0
      invariant nmerges == 1 ==> d == Min(2 * insize, |src|)
      invariant nmerges >= 2 ==> |src| > 2 * insize
      decreases |src| - d
    {
      nmerges := nmerges + 1;
      ghost var e := Min(d + 2 * insize, |src|);
      p, list, tail, out := MergePair(p, insize, list, tail, cmp, src, d, e, out);
      d := e;
    }
    assert out == MergePass(src, insize, cmp);
    Close(list, tail, src, d, out);
  }

  method Close<K>(list: Handle?<K>, tail: Handle?<K>, ghost src: seq<Handle<K>>, ghost d: nat, ghost out: seq<Handle<K>>)
    requires d <= |src| && Merging(src, d, d, d, out, list, tail)
    modifies src`next
    ensures OrderList(out, list, tail)
  {
    if tail != null {
      tail.next := null;
    }
  }

  lemma StartsMerging<K>(src: seq<Handle<K>>)
    requires Distinct(src) && Ahead(src, 0, |src|)
    ensures Merging(src, 0, 0, 0, [], null, null)
  {}

  lemma SplitMerging<K>(src: seq<Handle<K>>, d: nat, m: nat, out: seq<Handle<K>>, list: Handle?<K>, tail: Handle?<K>)
    requires d <= m <= |src| && Merging(src, d, d, d, out, list, tail)
    ensures Merging(src, d, m, m, out, list, tail) && Ahead(src, d, |src|)
  {}

  lemma JoinMerging<K>(src: seq<Handle<K>>, m: nat, e: nat, out: seq<Handle<K>>, list: Handle?<K>, tail: Handle?<K>)
    requires m <= e <= |src| && Merging(src, m, m, e, out, list, tail)
    ensures Merging(src, e, e, e, out, list, tail)
  {}

  /** Stepping `q` over the first run. */
  method FirstRunEnds<K>(p: Handle<K>, insize: nat, ghost src: seq<Handle<K>>, ghost d: nat) returns (q: Handle?<K>, psize: nat)
    requires insize > 0 && d < |src| && p == src[d] && Ahead(src, d, |src|)
    ensures psize == Min(insize, |src| - d) && q == At(src, d + psize)
  {
    q, psize := p, 0;
    var i := 0;
    while i < insize
      invariant i == psize <= insize && d + psize < |src| && q == src[d + psize]
    {
      psize := psize + 1;
      q := q.next;
      if q == null {
        break;
      }
      i := i + 1;
    }
  }

  /** HASH_SRT: the sorted list, with both links of every node and both ends right. */
  method Sort<K>(head: Handle<K>, cmp: (Handle<K>, Handle<K>) -> int, ghost src: seq<Handle<K>>, ghost oldTail: Handle?<K>)
      returns (list: Handle?<K>, tail: Handle?<K>)
    requires OrderList(src, head, oldTail)
    modifies src`next, src`prev
    ensures OrderList(Passes(src, 1, cmp), list, tail)
  {
    hide MergePass, OrderList;
    var insize, looping := 1, true;
    list, tail := head, null;
    ghost var cur, last := src, oldTail;
    ListFacts(cur, list, last);
    while looping
      invariant insize >= 1 && |cur| == |src| && multiset(cur) == multiset(src) && OrderList(cur, list, last) && list != null
      invariant looping ==> Passes(cur, insize, cmp) == Passes(src, 1, cmp)
      invariant !looping ==> cur == Passes(src, 1, cmp) && last == tail
      decreases looping, |src| - insize
    {
      var nmerges;
      ListFacts(cur, list, last);
      SameNodes(cur, src);
      PassKeeps(cur, insize, cmp);
      list, tail, nmerges := Pass(list, insize, cmp, cur);
      ListFacts(MergePass(cur, insize, cmp), list, tail);
      cur, last := MergePass(cur, insize, cmp), tail;
      if nmerges <= 1 {
        looping := false;
      }
      insize := insize * 2;
    }
  }

  lemma ListFacts<K>(src: seq<Handle<K>>, list: Handle?<K>, tail: Handle?<K>)
    requires OrderList(src, list, tail)
    ensures (list != null <==> src != []) && (list != null ==> list == src[0])
    ensures Distinct(src) && Ahead(src, 0, |src|)
  {}

  lemma SameNodes<T>(s: seq<T>, t: seq<T>)
    requires multiset(s) == multiset(t)
    ensures forall i | 0 <= i < |s| :: s[i] in t
  {
    forall i | 0 <= i < |s| ensures s[i] in t { assert s[i] in multiset(t); }
  }

  /** Sorting a table: the map is the same, and the insertion order becomes the stable sort of what it was. */
  method SortTable<K>(t: Table<K>, cmp: (Handle<K>, Handle<K>) -> int)
    requires t.Valid()
    modifies t`head, t`tail, t`order, t.order`next, t.order`prev
    ensures t.Valid() && t.order == Passes(old(t.order), 1, cmp) && Model(t.order) == old(Model(t.order))
    ensures TotalPreorder(old(t.order), cmp) ==> Stable(t.order, old(t.order), cmp)
    ensures multiset(t.order) == multiset(old(t.order))
  {
    hide OrderList, Passes, Counted, Placed, UniqueKeys, Hashed, Model, Stable, TotalPreorder;
    ghost var src := t.order;
    if t.head != null { ListFacts(src, t.head, t.tail); }
    ghost var sorted := Passes(src, 1, cmp);
    PassesKeep(src, 1, cmp);
    if t.head != null {
      var list, tail := Sort(t.head, cmp, src, t.tail);
      t.tail := tail;
      t.head := list;
      t.order := sorted;
      ListFacts(sorted, list, tail);
      Rearranged(src, sorted, t.chains, list, tail, t.hash);
      if TotalPreorder(src, cmp) { SortIsStable(src, cmp); }
    } else {
      NothingToSort(cmp);
    }
  }

  /** Nothing about a table but the order itself depends on the order of its items. */
  lemma Rearranged<K>(s: seq<Handle<K>>, r: seq<Handle<K>>, chains: seq<seq<Handle<K>>>, head: Handle?<K>, tail: Handle?<K>, hash: K -> nat)
    requires multiset(r) == multiset(s) && OrderList(r, head, tail)
    requires UniqueKeys(s) && Hashed(s, hash) && Placed(s, chains)
    ensures UniqueKeys(r) && Hashed(r, hash) && Placed(r, chains) && Model(r) == Model(s) && |r| == |s| && Distinct(s)
  {
    SameNodes(r, s);
    SameNodes(s, r);
    assert |multiset(r)| == |multiset(s)|;
    StillUnique(s, r);
    StillPlaced(s, r, chains);
    forall k: K { SameKey(s, r, k); }
    hide UniqueKeys, OrderList, Placed, Model;
    SameMap(Model(r), Model(s));
  }

  lemma SameKey<K>(s: seq<Handle<K>>, r: seq<Handle<K>>, k: K)
    requires UniqueKeys(s) && UniqueKeys(r)
    requires (forall i | 0 <= i < |r| :: r[i] in s) && (forall i | 0 <= i < |s| :: s[i] in r)
    ensures k in Model(r) <==> k in Model(s)
    ensures k in Model(r) ==> Model(r)[k] == Model(s)[k]
  {
    ModelAt(r, k);
    ModelAt(s, k);
    hide Model, UniqueKeys;
  }

  lemma StillUnique<K>(s: seq<Handle<K>>, r: seq<Handle<K>>)
    requires UniqueKeys(s) && Distinct(r) && forall i | 0 <= i < |r| :: r[i] in s
    ensures UniqueKeys(r) && Distinct(s)
  {
    forall i, j | 0 <= i < j < |r| ensures r[i].key != r[j].key {
      var x, y := r[i], r[j];
      assert x in s && y in s && x != y;
    }
  }

  lemma StillPlaced<K>(s: seq<Handle<K>>, r: seq<Handle<K>>, chains: seq<seq<Handle<K>>>)
    requires Placed(s, chains)
    requires (forall i | 0 <= i < |r| :: r[i] in s) && (forall i | 0 <= i < |s| :: s[i] in r)
    ensures Placed(r, chains)
  {
    forall b, x | 0 <= b < |chains| && x in chains[b] ensures x in r {
      assert x in s;
    }
  }

  lemma NothingToSort<T>(cmp: (T, T) -> int)
    ensures Passes([], 1, cmp) == [] && Stable([], [], cmp)
  {}
}
