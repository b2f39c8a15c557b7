/** The hash table of uthash.h: bucket chains and an insertion-order list threaded
    through the same nodes. The hash function is a parameter. */
module HashTable {
  import opened Bits
  import opened Seqs

  const INITIAL_LOG2: nat := 5
  const CAPACITY_THRESH: nat := 10

  /** A `UT_hash_handle` with the element it is embedded in. */
  class Handle<K> {
    const key: K
    const hashv: nat
    var prev: Handle?<K>
    var next: Handle?<K>
    var hhPrev: Handle?<K>
    var hhNext: Handle?<K>

    constructor (key: K, hashv: nat)
      ensures this.key == key && this.hashv == hashv
    {
      this.key, this.hashv := key, hashv;
      prev, next, hhPrev, hhNext := null, null, null, null;
    }
  }

  datatype Bucket<K> = Bucket(head: Handle?<K>, count: nat, expandMult: nat)

  // ---------------------------------------------------------------- the two lists

  /** The application-order list. */
  ghost predicate OrderList<K>(order: seq<Handle<K>>, head: Handle?<K>, tail: Handle?<K>)
    reads order`next, order`prev
  {
    && Distinct(order)
    && (order == [] <==> head == null)
    && (order != [] ==> head == order[0] && tail == order[|order|-1])
    && (order != [] ==> order[0].prev == null && order[|order|-1].next == null)
    && (forall i {:trigger order[i].next} | 0 <= i < |order| - 1 :: order[i].next == order[i+1])
    && (forall i {:trigger order[i].prev} | 1 <= i < |order| :: order[i].prev == order[i-1])
  }

  /** The chain of one bucket. */
  ghost predicate ChainList<K>(c: seq<Handle<K>>, head: Handle?<K>)
    reads c`hhNext, c`hhPrev
  {
    && Distinct(c)
    && (c == [] <==> head == null)
    && (c != [] ==> head == c[0] && c[0].hhPrev == null && c[|c|-1].hhNext == null)
    && (forall i {:trigger c[i].hhNext} | 0 <= i < |c| - 1 :: c[i].hhNext == c[i+1])
    && (forall i {:trigger c[i].hhPrev} | 1 <= i < |c| :: c[i].hhPrev == c[i-1])
  }

  ghost function All<K>(chains: seq<seq<Handle<K>>>): set<Handle<K>> {
    set b, i | 0 <= b < |chains| && 0 <= i < |chains[b]| :: chains[b][i]
  }

  ghost predicate Chains<K>(chains: seq<seq<Handle<K>>>, bs: seq<Bucket<K>>)
    reads All(chains)`hhNext, All(chains)`hhPrev
  {
    |chains| == |bs| && forall b | 0 <= b < |chains| :: ChainList(chains[b], bs[b].head)
  }

  /** `count` of each bucket is the length of its chain. */
  ghost predicate Counted<K>(chains: seq<seq<Handle<K>>>, bs: seq<Bucket<K>>) {
    |chains| == |bs| && forall b | 0 <= b < |chains| :: bs[b].count == |chains[b]|
  }

  /** Every item is in the chain that its hash selects, and nothing else is anywhere. */
  ghost predicate Placed<K>(order: seq<Handle<K>>, chains: seq<seq<Handle<K>>>) {
    && |chains| > 0
    && (forall b, x | 0 <= b < |chains| && x in chains[b] :: x in order && BucketOf(x, |chains|) == b)
    && (forall x | x in order :: x in chains[BucketOf(x, |chains|)])
  }

  function BucketOf<K>(x: Handle<K>, n: nat): (b: nat)
    requires n > 0
    ensures b < n
  {
    x.hashv % n
  }

  ghost function Below<K>(order: seq<Handle<K>>, n: nat, b: nat): set<Handle<K>>
    requires n > 0
  {
    set x | x in order && BucketOf(x, n) < b
  }

  // ---------------------------------------------------------------- the map it refines

  ghost predicate UniqueKeys<K>(order: seq<Handle<K>>) {
    forall i, j | 0 <= i < j < |order| :: order[i].key != order[j].key
  }

  ghost predicate Hashed<K>(order: seq<Handle<K>>, hash: K -> nat) {
    forall i | 0 <= i < |order| :: order[i].hashv == hash(order[i].key)
  }

  ghost function Model<K>(order: seq<Handle<K>>): map<K, Handle<K>> {
    if order == [] then map[] else Model(order[..|order|-1])[order[|order|-1].key := order[|order|-1]]
  }

  lemma {:induction false} ModelAt<K>(order: seq<Handle<K>>, k: K)
    requires UniqueKeys(order)
    ensures k in Model(order) ==> Model(order)[k] in order && Model(order)[k].key == k
    ensures forall x | x in order && x.key == k :: k in Model(order) && Model(order)[k] == x
  {
    if order != [] {
      var n := |order| - 1;
      ModelAt(order[..n], k);
      forall x | x in order && x.key == k ensures k in Model(order) && Model(order)[k] == x {
        if x != order[n] {
          assert x in order[..n];
        }
      }
    }
  }

  /** Adding an item whose key is absent extends the map by it. */
  lemma AddRefines<K>(order: seq<Handle<K>>, x: Handle<K>)
    requires UniqueKeys(order) && forall y | y in order :: y.key != x.key
    ensures UniqueKeys(order + [x]) && x.key !in Model(order)
    ensures Model(order + [x]) == Model(order)[x.key := x]
  {
    assert (order + [x])[..|order|] == order;
    ModelAt(order, x.key);
  }

  /** Deleting an item removes its key, and no other, from the map. */
  lemma DeleteRefines<K>(order: seq<Handle<K>>, i: nat)
    requires UniqueKeys(order) && i < |order|
    ensures UniqueKeys(Remove(order, i)) && order[i].key in Model(order)
    ensures Model(Remove(order, i)) == Model(order) - {order[i].key}
  {
    var r := Remove(order, i);
    RemoveAt(order, i);
    var m, m' := Model(r), Model(order) - {order[i].key};
    forall k: K { KeptKey(order, i, k); }
    ModelAt(order, order[i].key);
    hide Model, Remove, UniqueKeys;
    SameMap(m, m');
  }

  lemma KeptKey<K>(order: seq<Handle<K>>, i: nat, k: K)
    requires UniqueKeys(order) && i < |order| && UniqueKeys(Remove(order, i))
    requires forall x :: x in Remove(order, i) <==> x in order && x.key != order[i].key
    ensures k in Model(Remove(order, i)) <==> k in Model(order) && k != order[i].key
    ensures k in Model(Remove(order, i)) ==> Model(Remove(order, i))[k] == Model(order)[k]
  {
    ModelAt(order, k);
    ModelAt(Remove(order, i), k);
    hide Model, Remove, UniqueKeys;
    if k in Model(order) && k != order[i].key { assert Model(order)[k] in Remove(order, i); }
    if k in Model(Remove(order, i)) { assert Model(Remove(order, i))[k] in order; }
  }

  lemma SameMap<K, V>(m: map<K, V>, m': map<K, V>)
    requires forall k :: k in m <==> k in m'
    requires forall k | k in m :: m[k] == m'[k]
    ensures m == m'
  {}

  lemma RemoveAt<K>(order: seq<Handle<K>>, i: nat)
    requires UniqueKeys(order) && i < |order|
    ensures UniqueKeys(Remove(order, i))
    ensures forall x :: x in Remove(order, i) <==> x in order && x.key != order[i].key
  {
    var r := Remove(order, i);
    assert forall j | 0 <= j < |r| :: r[j] == if j < i then order[j] else order[j+1];
    forall x | x in order && x.key != order[i].key ensures x in r {
      var j :| 0 <= j < |order| && order[j] == x;
      assert r[if j < i then j else j - 1] == x;
    }
  }

  // ---------------------------------------------------------------- counting

  ghost function Total<T>(chains: seq<seq<T>>): nat {
    if chains == [] then 0 else Total(chains[..|chains|-1]) + |chains[|chains|-1]|
  }

  /** The items beyond position `ideal` of their chains. */
  ghost function Nonideal<T>(chains: seq<seq<T>>, ideal: nat): nat {
    if chains == [] then 0
    else Nonideal(chains[..|chains|-1], ideal) + Excess(|chains[|chains|-1]|, ideal)
  }

  ghost function Excess(n: nat, ideal: nat): nat {
    if n > ideal then n - ideal else 0
  }

  ghost predicate AllDistinct<T>(chains: seq<seq<T>>) {
    forall b | 0 <= b < |chains| :: Distinct(chains[b])
  }

  ghost function Elems<T>(s: seq<T>): set<T> {
    set x | x in s
  }

  lemma {:induction false} SetOfDistinct<T>(s: seq<T>)
    requires Distinct(s)
    ensures |Elems(s)| == |s|
  {
    if s == [] {
      assert Elems(s) == {};
    } else {
      var n := |s| - 1;
      SetOfDistinct(s[..n]);
      assert Elems(s) == Elems(s[..n]) + {s[n]};
    }
  }

  lemma {:induction false} TotalOfBuckets<K>(order: seq<Handle<K>>, chains: seq<seq<Handle<K>>>, n: nat)
    requires Placed(order, chains) && n <= |chains| && AllDistinct(chains)
    ensures |Below(order, |chains|, n)| == Total(chains[..n])
  {
    if n == 0 {
      assert Below(order, |chains|, 0) == {};
    } else {
      BelowNext(order, chains, n);
      SetOfDistinct(chains[n-1]);
      hide *;
      TotalOfBuckets(order, chains, n - 1);
      TotalNext(chains, n);
      DisjointUnion(Below(order, |chains|, n - 1), Elems(chains[n-1]));
    }
  }

  lemma BelowNext<K>(order: seq<Handle<K>>, chains: seq<seq<Handle<K>>>, n: nat)
    requires Placed(order, chains) && 0 < n <= |chains|
    ensures Below(order, |chains|, n) == Below(order, |chains|, n - 1) + Elems(chains[n-1])
    ensures Below(order, |chains|, n - 1) !! Elems(chains[n-1])
  {
    hide BucketOf;
    forall x | x in order && BucketOf(x, |chains|) == n - 1 ensures x in chains[n-1] {}
  }

  lemma TotalNext<T>(chains: seq<seq<T>>, n: nat)
    requires 0 < n <= |chains|
    ensures Total(chains[..n]) == Total(chains[..n-1]) + |chains[n-1]|
  {
    assert chains[..n][..n-1] == chains[..n-1];
  }

  lemma DisjointUnion<T>(a: set<T>, b: set<T>)
    requires a !! b
    ensures |a + b| == |a| + |b|
  {}

  lemma BucketsHoldAll<K>(order: seq<Handle<K>>, chains: seq<seq<Handle<K>>>)
    requires Distinct(order) && Placed(order, chains) && AllDistinct(chains)
    ensures Total(chains) == |order|
  {
    TotalOfBuckets(order, chains, |chains|);
    assert Below(order, |chains|, |chains|) == Elems(order);
    SetOfDistinct(order);
    assert chains[..|chains|] == chains;
  }

  ghost function CountSum<K>(bs: seq<Bucket<K>>): nat {
    if bs == [] then 0 else CountSum(bs[..|bs|-1]) + bs[|bs|-1].count
  }

  lemma {:induction false} CountsTotal<K>(chains: seq<seq<Handle<K>>>, bs: seq<Bucket<K>>)
    requires Counted(chains, bs)
    ensures CountSum(bs) == Total(chains)
  {
    if bs != [] { CountsTotal(chains[..|bs|-1], bs[..|bs|-1]); }
  }

  /** The bucket counts sum to the number of items. */
  lemma CountsSum<K>(order: seq<Handle<K>>, chains: seq<seq<Handle<K>>>, bs: seq<Bucket<K>>)
    requires Distinct(order) && Placed(order, chains) && Chains(chains, bs) && Counted(chains, bs)
    ensures CountSum(bs) == |order|
  {
    CountsTotal(chains, bs);
    BucketsHoldAll(order, chains);
  }

  // ---------------------------------------------------------------- the table

  ghost predicate Apart<K>(chains: seq<seq<Handle<K>>>) {
    forall b, b', x | 0 <= b < |chains| && 0 <= b' < |chains| && x in chains[b] && x in chains[b'] :: b == b'
  }

  lemma PlacedApart<K>(order: seq<Handle<K>>, chains: seq<seq<Handle<K>>>)
    requires Placed(order, chains)
    ensures Apart(chains)
    ensures forall b, x | 0 <= b < |chains| && x in chains[b] :: x in order
  {
    forall b, b', x | 0 <= b < |chains| && 0 <= b' < |chains| && x in chains[b] && x in chains[b'] ensures b == b' {
      assert BucketOf(x, |chains|) == b && BucketOf(x, |chains|) == b';
    }
  }

  class Table<K(==)> {
    const hash: K -> nat
    var head: Handle?<K>
    var tail: Handle?<K>
    var buckets: array<Bucket<K>>
    var numBuckets: nat
    var log2NumBuckets: nat
    var numItems: nat
    var idealChainMaxlen: nat
    var nonidealItems: nat
    var ineffExpands: nat
    var noexpand: bool
    ghost var order: seq<Handle<K>>
    ghost var chains: seq<seq<Handle<K>>>

    /** The structure of a table that has items. */
    ghost predicate Structure()
      reads `order, `chains, `head, `tail, `buckets, `numBuckets, `log2NumBuckets
      reads buckets, order`next, order`prev, All(chains)`hhNext, All(chains)`hhPrev
    {
      && OrderList(order, head, tail)
      && numBuckets == Pow2(log2NumBuckets) == buckets.Length
      && Chains(chains, buckets[..]) && Counted(chains, buckets[..])
      && Placed(order, chains)
    }

    ghost predicate Valid()
      reads this, buckets, order`next, order`prev, All(chains)`hhNext, All(chains)`hhPrev
    {
      && UniqueKeys(order) && Hashed(order, hash)
      && (head == null ==> order == [] && chains == [] && tail == null)
      && (head != null ==> Structure() && numItems == |order|)
    }

    /** HASH_APPEND_LIST */
    method AppendList(item: Handle<K>)
      requires OrderList(order, head, tail) && head != null && item !in order
      modifies item`next, item`prev, tail`next, this`tail, this`order
      ensures order == old(order) + [item] && OrderList(order, head, tail)
    {
      item.next := null;
      item.prev := tail;
      tail.next := item;
      tail := item;
      order := order + [item];
    }

    /** Moving one item to its new bucket, inside HASH_EXPAND_BUCKETS. */
    method MoveItem(item: Handle<K>, newBuckets: array<Bucket<K>>, b: nat, ghost nc: seq<seq<Handle<K>>>)
        returns (ghost nc': seq<seq<Handle<K>>>)
      requires Filled(nc, newBuckets[..], idealChainMaxlen, nonidealItems) && Apart(nc) && b < |nc| && !Held(nc, item)
      modifies item`hhNext, item`hhPrev, All(nc)`hhPrev, newBuckets, this`nonidealItems
      ensures nc' == nc[b := [item] + nc[b]] && Filled(nc', newBuckets[..], idealChainMaxlen, nonidealItems)
    {
      hide Nonideal, Mults, Chains, Held, Apart, All;
      ghost var bs := newBuckets[..];
      MultAt(nc, bs, idealChainMaxlen, b);
      var count, mult := newBuckets[b].count + 1, newBuckets[b].expandMult;
      if count > idealChainMaxlen {
        nonidealItems := nonidealItems + 1;
        if count > mult * idealChainMaxlen {
          mult := mult + 1;
        }
      }
      PushFront(item, newBuckets, b, count, mult, nc);
      nc' := nc[b := [item] + nc[b]];
      NonidealPush(nc, b, item, idealChainMaxlen);
      MultPush(nc, bs, idealChainMaxlen, b, item, newBuckets[b]);
    }

    /** One round of the inner loop of HASH_EXPAND_BUCKETS; the result is the next item of the old chain. */
    method MoveHead(item: Handle<K>, newBuckets: array<Bucket<K>>, ghost olds: seq<seq<Handle<K>>>,
                    ghost i: nat, ghost j: nat, ghost nc: seq<seq<Handle<K>>>)
        returns (next: Handle?<K>, ghost nc': seq<seq<Handle<K>>>)
      requires i < |olds| && j < |olds[i]| && item == olds[i][j]
      requires newBuckets != buckets && numBuckets == Pow2(log2NumBuckets) && |nc| == 2 * numBuckets
      requires Undone(olds, i, j) && Moved(olds, i, j, nc)
      requires Filled(nc, newBuckets[..], idealChainMaxlen, nonidealItems)
      modifies All(olds)`hhNext, All(olds)`hhPrev, newBuckets, this`nonidealItems
      ensures next == if j + 1 < |olds[i]| then olds[i][j+1] else null
      ensures |nc'| == |nc| && Undone(olds, i, j + 1) && Moved(olds, i, j + 1, nc')
      ensures Filled(nc', newBuckets[..], idealChainMaxlen, nonidealItems)
    {
      hide Nonideal, Mults, Chains, Held, Apart, All, Counted, Undone, Moved, And, Pow2, Filled, Heads, BucketOf, AllDistinct;
      forall b | i <= b < |olds| ensures LinkedFrom(olds[b], if b == i then j else 0) { AheadOf(olds, i, j, b); }
      UndoneAt(olds, i, j);
      MovedFacts(olds, i, j, nc);
      MovedNext(olds, i, j, nc);
      DoublePow2(log2NumBuckets);
      MaskIsMod(item.hashv, log2NumBuckets + 1);
      BucketIs(item, |nc|);
      next := item.hhNext;
      var b := And(item.hashv, 2 * numBuckets - 1);
      nc' := MoveItem(item, newBuckets, b, nc);
      forall b | i <= b < |olds| ensures LinkedFrom(olds[b], if b == i then j + 1 else 0) {
        forall k | (if b == i then j + 1 else 0) <= k < |olds[b]|
          ensures olds[b][k].hhNext == if k + 1 < |olds[b]| then olds[b][k+1] else null
        {
          OthersAhead(olds, i, j, b, k);
          assert old(LinkedFrom(olds[b], if b == i then j else 0));
        }
      }
      AheadAll(olds, i, j + 1);
    }

    /** Moving one chain, the inner loop of HASH_EXPAND_BUCKETS. */
    method MoveChain(i: nat, newBuckets: array<Bucket<K>>, ghost olds: seq<seq<Handle<K>>>, ghost nc: seq<seq<Handle<K>>>)
        returns (ghost nc': seq<seq<Handle<K>>>)
      requires newBuckets != buckets && buckets.Length == numBuckets == Pow2(log2NumBuckets)
      requires Heads(olds, buckets[..]) && i < numBuckets == |olds| && |nc| == 2 * numBuckets
      requires Undone(olds, i, 0) && Moved(olds, i, 0, nc)
      requires Filled(nc, newBuckets[..], idealChainMaxlen, nonidealItems)
      modifies All(olds)`hhNext, All(olds)`hhPrev, newBuckets, this`nonidealItems
      ensures |nc'| == |nc| && Undone(olds, i + 1, 0) && Moved(olds, i + 1, 0, nc')
      ensures Filled(nc', newBuckets[..], idealChainMaxlen, nonidealItems)
    {
      hide Nonideal, Mults, Chains, Held, Apart, All, Counted, Undone, Moved, And, Pow2, Filled, Heads, BucketOf, AllDistinct;
      nc' := nc;
      FirstOfChain(olds, buckets[..], i);
      var item := buckets[i].head;
      ghost var j := 0;
      while item != null
        invariant 0 <= j <= |olds[i]| && item == (if j < |olds[i]| then olds[i][j] else null)
        invariant |nc'| == |nc| && Undone(olds, i, j) && Moved(olds, i, j, nc')
        invariant Filled(nc', newBuckets[..], idealChainMaxlen, nonidealItems)
        decreases |olds[i]| - j
      {
        item, nc' := MoveHead(item, newBuckets, olds, i, j, nc');
        j := j + 1;
      }
      RowDone(olds, i, nc');
    }

    /** The moving loop of HASH_EXPAND_BUCKETS. */
    method MoveAll(newBuckets: array<Bucket<K>>, ghost olds: seq<seq<Handle<K>>>) returns (ghost nc: seq<seq<Handle<K>>>)
      requires newBuckets != buckets && buckets.Length == numBuckets == Pow2(log2NumBuckets) == |olds|
      requires newBuckets.Length == 2 * numBuckets
      requires Heads(olds, buckets[..]) && Apart(olds) && AllDistinct(olds) && Undone(olds, 0, 0)
      requires forall b | 0 <= b < newBuckets.Length :: newBuckets[b] == Bucket(null, 0, 0)
      modifies All(olds)`hhNext, All(olds)`hhPrev, newBuckets, this`nonidealItems
      ensures |nc| == 2 * numBuckets && Moved(olds, |olds|, 0, nc)
      ensures Filled(nc, newBuckets[..], idealChainMaxlen, nonidealItems)
    {
      hide Nonideal, Mults, Chains, Held, Apart, All, Counted, Undone, Moved, And, Pow2, Filled, Heads, BucketOf, AllDistinct;
      nc := seq(2 * numBuckets, _ => []);
      nonidealItems := 0;
      NoneMoved(olds, nc, newBuckets[..], idealChainMaxlen);
      var i := 0;
      while i < numBuckets
        invariant 0 <= i <= numBuckets && |nc| == 2 * numBuckets && Undone(olds, i, 0) && Moved(olds, i, 0, nc)
        invariant Filled(nc, newBuckets[..], idealChainMaxlen, nonidealItems)
      {
        nc := MoveChain(i, newBuckets, olds, nc);
        i := i + 1;
      }
    }

    method Install(newBuckets: array<Bucket<K>>, ghost nc: seq<seq<Handle<K>>>)
      requires OrderList(order, head, tail) && Placed(order, nc)
      requires 2 * numBuckets == Pow2(log2NumBuckets + 1) == newBuckets.Length
      requires Filled(nc, newBuckets[..], idealChainMaxlen, nonidealItems)
      modifies this`buckets, this`chains, this`numBuckets, this`log2NumBuckets
      ensures buckets == newBuckets && chains == nc && Structure()
      ensures Filled(nc, newBuckets[..], idealChainMaxlen, nonidealItems)
      ensures numBuckets == 2 * old(numBuckets) && log2NumBuckets == old(log2NumBuckets) + 1
    {
      hide Chains, Placed, OrderList, Counted, Mults, Nonideal, Pow2;
      buckets := newBuckets;
      chains := nc;
      numBuckets := numBuckets * 2;
      log2NumBuckets := log2NumBuckets + 1;
    }

    /** HASH_EXPAND_BUCKETS: twice the buckets, the same items in the same order. */
    method ExpandBuckets()
      requires Structure() && numItems == |order|
      modifies this`buckets, this`numBuckets, this`log2NumBuckets, this`idealChainMaxlen, this`nonidealItems
      modifies this`ineffExpands, this`noexpand, this`chains, All(chains)`hhNext, All(chains)`hhPrev
      ensures Structure() && fresh(buckets)
      ensures log2NumBuckets == old(log2NumBuckets) + 1 && numBuckets == 2 * old(numBuckets)
      ensures idealChainMaxlen == CeilDiv(numItems, numBuckets)
      ensures Filled(chains, buckets[..], idealChainMaxlen, nonidealItems)
      ensures ineffExpands == if nonidealItems > numItems / 2 then old(ineffExpands) + 1 else 0
      ensures noexpand == (old(noexpand) || ineffExpands > 1)
      ensures All(chains) == old(All(chains))
    {
      hide Nonideal, Mults, Chains, Held, Apart, All, Placed, OrderList, Counted, Undone, Moved, Filled;
      hide And, Shr, Pow2, CeilDiv, AllDistinct, Heads, ChainList, Distinct, BucketOf;
      ghost var olds := chains;
      StructureFacts(order, olds, buckets[..]);
      var n := 2 * numBuckets;
      ShiftMaskIsCeil(numItems, log2NumBuckets + 1);
      DoublePow2(log2NumBuckets);
      var newBuckets := new Bucket<K>[n](_ => Bucket(null, 0, 0));
      idealChainMaxlen := Shr(numItems, log2NumBuckets + 1) + (if And(numItems, n - 1) != 0 then 1 else 0);
      ghost var nc := MoveAll(newBuckets, olds);
      MovedAll(order, olds, nc);
      ineffExpands := if nonidealItems > Shr(numItems, 1) then ineffExpands + 1 else 0;
      if ineffExpands > 1 {
        noexpand := true;
      }
      Install(newBuckets, nc);
    }

    /** One more item in the item's bucket makes the table expand. */
    ghost predicate Crowded(item: Handle<K>)
      reads this, buckets
    {
      && 0 < numBuckets == buckets.Length && !noexpand
      && var b := buckets[BucketOf(item, numBuckets)]; b.count + 1 >= (b.expandMult + 1) * CAPACITY_THRESH
    }

    /** HASH_ADD_TO_TABLE, with HASH_ADD_TO_BKT: the item is already on the order list. */
    method AddToTable(item: Handle<K>, ghost was: seq<Handle<K>>)
      requires OrderList(order, head, tail) && order == was + [item] && item !in was
      requires Placed(was, chains) && Chains(chains, buckets[..]) && Counted(chains, buckets[..])
      requires numBuckets == Pow2(log2NumBuckets) == buckets.Length && numItems == |was|
      modifies this`buckets, this`numBuckets, this`log2NumBuckets, this`idealChainMaxlen, this`nonidealItems, this`numItems
      modifies this`ineffExpands, this`noexpand, this`chains, All(chains)`hhNext, All(chains)`hhPrev
      modifies item`hhNext, item`hhPrev, buckets
      ensures Structure() && numItems == |order| && (buckets == old(buckets) || fresh(buckets))
      ensures All(chains) == old(All(chains)) + {item}
      ensures log2NumBuckets == old(log2NumBuckets) + if old(Crowded(item)) then 1 else 0
    {
      hide Chains, Placed, OrderList, Counted, Pow2, And, All, Filled, BucketOf, Apart, Held, CeilDiv, Distinct, ChainList;
      numItems := numItems + 1;
      MaskIsMod(item.hashv, log2NumBuckets);
      BucketIs(item, numBuckets);
      var b := And(item.hashv, numBuckets - 1);
      PlacedPush(was, chains, item);
      ghost var bs := buckets[..];
      var count, mult := buckets[b].count + 1, buckets[b].expandMult;
      CountedPush(chains, bs, b, item, mult);
      PushFront(item, buckets, b, count, mult, chains);
      chains := chains[b := [item] + chains[b]];
      if count >= (mult + 1) * CAPACITY_THRESH && !noexpand {
        ExpandBuckets();
      }
    }

    constructor (hash: K -> nat)
      ensures Valid() && order == [] && this.hash == hash && fresh(buckets) && Nodes() == {}
    {
      this.hash := hash;
      head, tail, order, chains := null, null, [], [];
      buckets := new Bucket<K>[0];
    }

    ghost function Nodes(): set<Handle<K>>
      reads this
    {
      Elems(order) + All(chains)
    }

    /** HASH_MAKE_TABLE */
    method MakeTable(item: Handle<K>)
      modifies this
      ensures head == old(head) && order == [item] && tail == item && numItems == 0 && !noexpand
      ensures numBuckets == 32 == Pow2(log2NumBuckets) == buckets.Length && fresh(buckets) && All(chains) == {}
      ensures Placed([], chains) && Chains(chains, buckets[..]) && Counted(chains, buckets[..])
    {
      assert Pow2(5) == 32;
      numBuckets, log2NumBuckets, numItems, tail := 32, INITIAL_LOG2, 0, item;
      idealChainMaxlen, nonidealItems, ineffExpands, noexpand := 0, 0, 0, false;
      buckets := new Bucket<K>[32](_ => Bucket(null, 0, 0));
      order, chains := [item], seq(32, _ => []);
    }

    /** HASH_ADD_KEYPTR_BYHASHVALUE, for a key that the table does not have. */
    method Add(item: Handle<K>)
      requires Valid() && item.hashv == hash(item.key) && forall x | x in order :: x.key != item.key
      modifies this, buckets, item, tail, All(chains)`hhNext, All(chains)`hhPrev
      ensures Valid() && order == old(order) + [item] && head != null
      ensures Model(order) == old(Model(order))[item.key := item]
      ensures buckets == old(buckets) || fresh(buckets)
      ensures Nodes() == old(Nodes()) + {item}
    {
      hide UniqueKeys, Model, Elems, Structure, OrderList, Placed, Chains, Counted, All;
      ghost var was := order;
      AddRefines(order, item);
      NodesPush(order, chains, item);
      Enlist(item);
      AddToTable(item, was);
    }

    /** The part of HASH_ADD_KEYPTR_BYHASHVALUE before the item goes into its bucket. */
    method Enlist(item: Handle<K>)
      requires Valid() && item !in order
      modifies this, item, tail
      ensures order == old(order) + [item] && OrderList(order, head, tail) && head != null
      ensures Placed(old(order), chains) && Chains(chains, buckets[..]) && Counted(chains, buckets[..])
      ensures numBuckets == Pow2(log2NumBuckets) == buckets.Length && numItems == |old(order)|
      ensures All(chains) == old(All(chains)) && (buckets == old(buckets) || fresh(buckets))
    {
      hide Placed, Counted, Pow2, UniqueKeys, Hashed;
      if head == null {
        item.next, item.prev := null, null;
        NodesPush(order, chains, item);
        MakeTable(item);
        head := item;
      } else {
        AppendList(item);
      }
    }

    /** HASH_FIND_IN_BKT */
    method FindInBucket(b: nat, key: K, hashv: nat) returns (out: Handle?<K>)
      requires Chains(chains, buckets[..]) && b < buckets.Length
      ensures out != null ==> out in chains[b] && out.hashv == hashv && out.key == key
      ensures out == null ==> forall x | x in chains[b] :: x.hashv != hashv || x.key != key
    {
      ghost var c := chains[b];
      assert ChainList(c, buckets[b].head);
      out := buckets[b].head;
      ghost var i := 0;
      while out != null
        invariant 0 <= i <= |c| && out == if i < |c| then c[i] else null
        invariant forall k | 0 <= k < i :: c[k].hashv != hashv || c[k].key != key
        decreases |c| - i
      {
        if out.hashv == hashv && out.key == key {
          break;
        }
        out := out.hhNext;
        i := i + 1;
      }
    }

    /** HASH_FIND finds exactly what the map holds. */
    method Find(key: K) returns (out: Handle?<K>)
      requires Valid()
      ensures out != null ==> key in Model(order) && Model(order)[key] == out
      ensures out == null ==> key !in Model(order)
    {
      hide Chains, Pow2, Model, UniqueKeys, OrderList, And;
      out := null;
      if head != null {
        var hashv := hash(key);
        MaskIsMod(hashv, log2NumBuckets);
        SearchedBucket(order, chains, hash, key);
        out := FindInBucket(And(hashv, numBuckets - 1), key, hashv);
      }
      ModelAt(order, key);
    }

    /** Unlinking from the order list, in HASH_DELETE_HH. */
    method Unlink(item: Handle<K>, ghost i: nat)
      requires OrderList(order, head, tail) && i < |order| && order[i] == item && |order| > 1
      modifies order`next, order`prev, this`head, this`tail, this`order
      ensures order == Remove(old(order), i) && OrderList(order, head, tail) && head != null
    {
      ghost var was := order;
      if item == tail {
        tail := item.prev;
      }
      if item.prev != null {
        item.prev.next := item.next;
      } else {
        head := item.next;
      }
      if item.next != null {
        item.next.prev := item.prev;
      }
      order := Remove(was, i);
    }

    /** HASH_DEL_IN_BKT */
    method DeleteInBucket(b: nat, item: Handle<K>, ghost k: nat)
      requires Chains(chains, buckets[..]) && Counted(chains, buckets[..]) && Apart(chains)
      requires b < buckets.Length && k < |chains[b]| && chains[b][k] == item
      modifies chains[b]`hhNext, chains[b]`hhPrev, buckets, this`chains
      ensures chains == old(chains)[b := Remove(old(chains)[b], k)]
      ensures Chains(chains, buckets[..]) && Counted(chains, buckets[..])
    {
      hide ChainList, Apart;
      ghost var was, bs := chains, buckets[..];
      var first := UnlinkFromChain(buckets[b].head, item, was[b], k);
      buckets[b] := buckets[b].(head := first, count := buckets[b].count - 1);
      chains := was[b := Remove(was[b], k)];
      forall b' | 0 <= b' < |was| && b' != b ensures ChainList(was[b'], buckets[b'].head) {
        OtherChain(was, b, b');
        assert old(ChainList(was[b'], bs[b'].head));
      }
    }

    /** HASH_DELETE_HH, when other items remain. */
    method Detach(item: Handle<K>, ghost i: nat)
      requires Structure() && numItems == |order| > 1 && i < |order| && order[i] == item
      modifies this`head, this`tail, this`order, this`chains, this`numItems, buckets
      modifies order`next, order`prev, All(chains)`hhNext, All(chains)`hhPrev
      ensures Structure() && order == Remove(old(order), i) && numItems == |order| && head != null
      ensures All(chains) <= old(All(chains))
    {
      hide Chains, Counted, Pow2, And, Placed, Remove, OrderList, BucketOf, Distinct;
      StructureFacts(order, chains, buckets[..]);
      OrderDistinct(order, head, tail);
      RemoveIndex(order, i);
      ghost var b, k := FindInChain(order, chains, i);
      MaskIsMod(item.hashv, log2NumBuckets);
      PlacedRemove(order, chains, i, b, k);
      AllRemove(chains, b, k);
      Unlink(item, i);
      DeleteInBucket(And(item.hashv, numBuckets - 1), item, k);
      numItems := numItems - 1;
    }

    /** HASH_DELETE_HH */
    method Delete(item: Handle<K>)
      requires Valid() && item in order
      modifies this, buckets, order`next, order`prev, All(chains)`hhNext, All(chains)`hhPrev
      ensures exists i :: 0 <= i < |old(order)| && old(order)[i] == item && order == Remove(old(order), i)
      ensures Valid() && Model(order) == old(Model(order)) - {item.key}
      ensures (head == null <==> order == []) && buckets == old(buckets) && Nodes() <= old(Nodes())
    {
      hide Structure, Model, Remove;
      ghost var i :| 0 <= i < |order| && order[i] == item;
      DeleteRefines(order, i);
      RemoveAt(order, i);
      RemoveIndex(order, i);
      assert Hashed(Remove(order, i), hash);
      Listed();
      OnlyItem(order, head, tail, i);
      if item.prev == null && item.next == null {
        head, tail := null, null;
        order, chains := [], [];
      } else {
        Detach(item, i);
      }
    }

    lemma Listed()
      requires Structure()
      ensures OrderList(order, head, tail)
    {}
  }

  lemma NodesPush<K>(order: seq<Handle<K>>, chains: seq<seq<Handle<K>>>, x: Handle<K>)
    ensures Elems(order + [x]) == Elems(order) + {x} && (order == [] ==> Elems(order) == {}) && (chains == [] ==> All(chains) == {})
  {}

  lemma AllRemove<K>(chains: seq<seq<Handle<K>>>, b: nat, k: nat)
    requires b < |chains| && k < |chains[b]|
    ensures All(chains[b := Remove(chains[b], k)]) <= All(chains)
  {
    RemoveIndex(chains[b], k);
  }

  lemma OrderDistinct<K>(order: seq<Handle<K>>, head: Handle?<K>, tail: Handle?<K>)
    requires OrderList(order, head, tail)
    ensures Distinct(order)
  {}

  lemma OtherChain<K>(chains: seq<seq<Handle<K>>>, b: nat, b': nat)
    requires Apart(chains) && b < |chains| && b' < |chains| && b != b'
    ensures forall i, j | 0 <= i < |chains[b']| && 0 <= j < |chains[b]| :: chains[b'][i] != chains[b][j]
  {
    forall i, j | 0 <= i < |chains[b']| && 0 <= j < |chains[b]| ensures chains[b'][i] != chains[b][j] {
      assert chains[b'][i] in chains[b'] && chains[b][j] in chains[b];
    }
  }

  /** The pointer surgery of HASH_DEL_IN_BKT; the result is the new head. */
  method UnlinkFromChain<K>(head: Handle?<K>, item: Handle<K>, ghost c: seq<Handle<K>>, ghost k: nat) returns (first: Handle?<K>)
    requires ChainList(c, head) && k < |c| && c[k] == item
    modifies c`hhNext, c`hhPrev
    ensures ChainList(Remove(c, k), first)
  {
    first := head;
    if head == item {
      first := item.hhNext;
    }
    if item.hhPrev != null {
      item.hhPrev.hhNext := item.hhNext;
    }
    if item.hhNext != null {
      item.hhNext.hhPrev := item.hhPrev;
    }
    RemoveIndex(c, k);
  }

  lemma SearchedBucket<K>(order: seq<Handle<K>>, chains: seq<seq<Handle<K>>>, hash: K -> nat, key: K)
    requires Placed(order, chains) && Hashed(order, hash)
    ensures forall x | x in order && x.key == key :: x.hashv == hash(key) && x in chains[hash(key) % |chains|]
    ensures forall x | x in chains[hash(key) % |chains|] :: x in order
  {
    forall x | x in order ensures x.hashv == hash(x.key) {
      var i :| 0 <= i < |order| && order[i] == x;
    }
  }

  lemma FindInChain<K>(order: seq<Handle<K>>, chains: seq<seq<Handle<K>>>, i: nat) returns (b: nat, k: nat)
    requires Placed(order, chains) && i < |order|
    ensures |chains| > 0 && b == BucketOf(order[i], |chains|) == order[i].hashv % |chains|
    ensures k < |chains[b]| && chains[b][k] == order[i]
  {
    b := BucketOf(order[i], |chains|);
    assert order[i] in chains[b];
    k :| 0 <= k < |chains[b]| && chains[b][k] == order[i];
  }

  lemma OnlyItem<K>(order: seq<Handle<K>>, head: Handle?<K>, tail: Handle?<K>, i: nat)
    requires OrderList(order, head, tail) && i < |order|
    ensures order[i].prev == null && order[i].next == null <==> |order| == 1
    ensures |order| == 1 ==> Remove(order, i) == []
  {
    if i > 0 { assert order[i].prev == order[i-1]; }
    if i < |order| - 1 { assert order[i].next == order[i+1]; }
  }

  lemma PlacedRemove<K>(order: seq<Handle<K>>, chains: seq<seq<Handle<K>>>, i: nat, b: nat, k: nat)
    requires Placed(order, chains) && i < |order| && b == BucketOf(order[i], |chains|) && k < |chains[b]|
    requires chains[b][k] == order[i] && Distinct(order) && Distinct(chains[b])
    ensures Placed(Remove(order, i), chains[b := Remove(chains[b], k)])
  {
    RemoveDistinct(order, i);
    RemoveDistinct(chains[b], k);
    hide Remove, BucketOf;
  }

  lemma PlacedPush<K>(was: seq<Handle<K>>, chains: seq<seq<Handle<K>>>, x: Handle<K>)
    requires Placed(was, chains) && x !in was
    ensures |chains| > 0 && !Held(chains, x) && Apart(chains)
    ensures var b := BucketOf(x, |chains|); var chains' := chains[b := [x] + chains[b]];
      Placed(was + [x], chains') && All(chains') == All(chains) + {x}
  {
    PlacedApart(was, chains);
    var b0 := BucketOf(x, |chains|);
    var chains' := chains[b0 := [x] + chains[b0]];
    hide BucketOf;
    assert chains'[b0][0] == x;
    forall y | y in was ensures y in chains'[BucketOf(y, |chains|)] {
      assert y in chains[BucketOf(y, |chains|)];
    }
    forall b, k | 0 <= b < |chains| && 0 <= k < |chains[b]| ensures chains[b][k] in All(chains') {
      if b == b0 { assert chains'[b][k+1] == chains[b][k]; } else { assert chains'[b][k] == chains[b][k]; }
    }
    forall b, k | 0 <= b < |chains'| && 0 <= k < |chains'[b]|
      ensures chains'[b][k] in All(chains) + {x} && chains'[b][k] in was + [x] && BucketOf(chains'[b][k], |chains|) == b
    {
      var y := chains'[b][k];
      if y in chains[b] {
        var k' :| 0 <= k' < |chains[b]| && chains[b][k'] == y;
      } else {
        assert b == b0 && y == x;
      }
    }
  }

  lemma CountedPush<K>(chains: seq<seq<Handle<K>>>, bs: seq<Bucket<K>>, b: nat, x: Handle<K>, mult: nat)
    requires Counted(chains, bs) && b < |bs|
    ensures |chains| == |bs|
    ensures Counted(chains[b := [x] + chains[b]], bs[b := Bucket(x, bs[b].count + 1, mult)])
  {}

  /** The buckets of an expansion: chains, counts, multipliers and the overflow counter agree. */
  ghost predicate Filled<K>(nc: seq<seq<Handle<K>>>, bs: seq<Bucket<K>>, ideal: nat, nonideal: nat)
    reads All(nc)`hhNext, All(nc)`hhPrev
  {
    && Chains(nc, bs) && Counted(nc, bs)
    && Mults(nc, bs, ideal) && nonideal == Nonideal(nc, ideal)
  }

  lemma BucketIs<K>(x: Handle<K>, n: nat)
    requires n > 0
    ensures BucketOf(x, n) == x.hashv % n
  {}

  /** The item at hand is none of the items after it. */
  lemma OthersAhead<K>(chains: seq<seq<Handle<K>>>, i: nat, j: nat, b: nat, k: nat)
    requires Apart(chains) && AllDistinct(chains) && i < |chains| && j < |chains[i]|
    requires i <= b < |chains| && (if b == i then j + 1 else 0) <= k < |chains[b]|
    ensures chains[b][k] != chains[i][j] && chains[b][k] in All(chains)
  {
    assert Distinct(chains[i]);
    assert chains[b][k] in chains[b] && chains[i][j] in chains[i];
  }

  lemma AheadAll<K>(chains: seq<seq<Handle<K>>>, i: nat, j: nat)
    requires forall b | i <= b < |chains| :: LinkedFrom(chains[b], if b == i then j else 0)
    ensures Undone(chains, i, j)
  {}

  lemma AheadOf<K>(chains: seq<seq<Handle<K>>>, i: nat, j: nat, b: nat)
    requires Undone(chains, i, j) && i <= b < |chains|
    ensures LinkedFrom(chains[b], if b == i then j else 0)
  {}

  lemma DoublePow2(k: nat)
    ensures Pow2(k + 1) == 2 * Pow2(k)
    ensures forall x: nat :: Shr(x, 1) == x / 2
  {
    assert forall x: nat :: Shr(x, 1) == Shr(x / 2, 0);
  }

  /** The items that the expansion loop has not reached are still linked forward. */
  ghost predicate Undone<K>(chains: seq<seq<Handle<K>>>, i: nat, j: nat)
    reads All(chains)`hhNext
  {
    forall b | i <= b < |chains| :: LinkedFrom(chains[b], if b == i then j else 0)
  }

  ghost predicate LinkedFrom<K>(c: seq<Handle<K>>, j: nat)
    reads c`hhNext
  {
    forall k {:trigger c[k].hhNext} | j <= k < |c| :: c[k].hhNext == if k + 1 < |c| then c[k+1] else null
  }

  ghost predicate Reached<K>(chains: seq<seq<Handle<K>>>, i: nat, j: nat, x: Handle<K>) {
    exists b, k :: 0 <= b < |chains| && 0 <= k < |chains[b]| && chains[b][k] == x && (b < i || (b == i && k < j))
  }

  ghost predicate Within<K>(chains: seq<seq<Handle<K>>>, i: nat, j: nat, nc: seq<seq<Handle<K>>>) {
    |nc| > 0 && forall b, x | 0 <= b < |nc| && x in nc[b] :: Reached(chains, i, j, x) && BucketOf(x, |nc|) == b
  }

  ghost predicate Covered<K>(chains: seq<seq<Handle<K>>>, i: nat, j: nat, nc: seq<seq<Handle<K>>>) {
    |nc| > 0 && forall b, k | 0 <= b < |chains| && 0 <= k < |chains[b]| && (b < i || (b == i && k < j)) ::
      chains[b][k] in nc[BucketOf(chains[b][k], |nc|)]
  }

  /** The new chains hold exactly the items reached so far, each where it belongs. */
  ghost predicate Moved<K>(chains: seq<seq<Handle<K>>>, i: nat, j: nat, nc: seq<seq<Handle<K>>>) {
    AllDistinct(chains) && Apart(chains) && Within(chains, i, j, nc) && Covered(chains, i, j, nc)
  }

  lemma StructureFacts<K>(order: seq<Handle<K>>, chains: seq<seq<Handle<K>>>, bs: seq<Bucket<K>>)
    requires Placed(order, chains) && Chains(chains, bs)
    ensures Apart(chains) && AllDistinct(chains) && Undone(chains, 0, 0) && Heads(chains, bs) && |chains| == |bs|
  {
    PlacedApart(order, chains);
    hide Placed, BucketOf;
  }

  lemma NoneMoved<K>(chains: seq<seq<Handle<K>>>, nc: seq<seq<Handle<K>>>, bs: seq<Bucket<K>>, ideal: nat)
    requires Apart(chains) && AllDistinct(chains) && |nc| == |bs| > 0
    requires forall b | 0 <= b < |nc| :: nc[b] == [] && bs[b] == Bucket(null, 0, 0)
    ensures Moved(chains, 0, 0, nc) && Filled(nc, bs, ideal, 0)
  {
    NoneNonideal(nc, ideal);
  }

  lemma {:induction false} NoneNonideal<T>(nc: seq<seq<T>>, ideal: nat)
    requires forall b | 0 <= b < |nc| :: nc[b] == []
    ensures Nonideal(nc, ideal) == 0
  {
    if nc != [] { NoneNonideal(nc[..|nc|-1], ideal); }
  }

  lemma FirstOfChain<K>(chains: seq<seq<Handle<K>>>, bs: seq<Bucket<K>>, i: nat)
    requires Heads(chains, bs) && i < |chains|
    ensures bs[i].head == if chains[i] == [] then null else chains[i][0]
  {}

  ghost predicate Heads<K>(chains: seq<seq<Handle<K>>>, bs: seq<Bucket<K>>) {
    |chains| == |bs| && forall b | 0 <= b < |chains| :: bs[b].head == if chains[b] == [] then null else chains[b][0]
  }

  lemma UndoneAt<K>(chains: seq<seq<Handle<K>>>, i: nat, j: nat)
    requires Undone(chains, i, j) && i < |chains| && j < |chains[i]|
    ensures chains[i][j].hhNext == if j + 1 < |chains[i]| then chains[i][j+1] else null
  {
    assert LinkedFrom(chains[i], j);
  }

  lemma NotReached<K>(chains: seq<seq<Handle<K>>>, i: nat, j: nat)
    requires AllDistinct(chains) && Apart(chains) && i < |chains| && j < |chains[i]|
    ensures !Reached(chains, i, j, chains[i][j])
  {
    var x := chains[i][j];
    assert x in chains[i] && Distinct(chains[i]);
    forall b, k | 0 <= b < |chains| && 0 <= k < |chains[b]| && chains[b][k] == x ensures b == i && k == j {
      assert x in chains[b];
      assert b == i;
    }
  }

  lemma MovedFacts<K>(chains: seq<seq<Handle<K>>>, i: nat, j: nat, nc: seq<seq<Handle<K>>>)
    requires Moved(chains, i, j, nc) && i < |chains| && j < |chains[i]|
    ensures Apart(nc) && !Held(nc, chains[i][j]) && All(nc) <= All(chains) && chains[i][j] in All(chains)
    ensures Apart(chains) && AllDistinct(chains) && |nc| > 0
  {
    NotReached(chains, i, j);
    MovedWithin(chains, i, j, nc);
  }

  lemma MovedWithin<K>(chains: seq<seq<Handle<K>>>, i: nat, j: nat, nc: seq<seq<Handle<K>>>)
    requires Moved(chains, i, j, nc)
    ensures Apart(nc) && All(nc) <= All(chains)
    ensures forall b, x | 0 <= b < |nc| && x in nc[b] :: x in All(chains)
  {
    forall b, b', x | 0 <= b < |nc| && 0 <= b' < |nc| && x in nc[b] && x in nc[b'] ensures b == b' {
      assert BucketOf(x, |nc|) == b && BucketOf(x, |nc|) == b';
    }
    forall b, x | 0 <= b < |nc| && x in nc[b] ensures x in All(chains) {
      assert Reached(chains, i, j, x);
      var c, k :| 0 <= c < |chains| && 0 <= k < |chains[c]| && chains[c][k] == x;
    }
  }

  lemma ReachedMore<K>(chains: seq<seq<Handle<K>>>, i: nat, j: nat, i': nat, j': nat, x: Handle<K>)
    requires Reached(chains, i, j, x) && (i < i' || (i == i' && j <= j'))
    ensures Reached(chains, i', j', x)
  {
    var b, k :| 0 <= b < |chains| && 0 <= k < |chains[b]| && chains[b][k] == x && (b < i || (b == i && k < j));
    assert 0 <= b < |chains| && 0 <= k < |chains[b]| && chains[b][k] == x && (b < i' || (b == i' && k < j'));
  }

  lemma ReachedHere<K>(chains: seq<seq<Handle<K>>>, i: nat, j: nat)
    requires i < |chains| && j < |chains[i]|
    ensures Reached(chains, i, j + 1, chains[i][j])
  {}

  lemma MovedNext<K>(chains: seq<seq<Handle<K>>>, i: nat, j: nat, nc: seq<seq<Handle<K>>>)
    requires Moved(chains, i, j, nc) && i < |chains| && j < |chains[i]| && |nc| > 0
    ensures var x := chains[i][j]; var b := BucketOf(x, |nc|);
      Moved(chains, i, j + 1, nc[b := [x] + nc[b]])
  {
    hide Within, Covered;
    WithinNext(chains, i, j, nc);
    CoveredNext(chains, i, j, nc);
  }

  lemma WithinNext<K>(chains: seq<seq<Handle<K>>>, i: nat, j: nat, nc: seq<seq<Handle<K>>>)
    requires Within(chains, i, j, nc) && i < |chains| && j < |chains[i]|
    ensures var x := chains[i][j]; var b := BucketOf(x, |nc|);
      Within(chains, i, j + 1, nc[b := [x] + nc[b]])
  {
    var x := chains[i][j];
    var b0 := BucketOf(x, |nc|);
    var nc' := nc[b0 := [x] + nc[b0]];
    ReachedHere(chains, i, j);
    hide Reached;
    forall b, k | 0 <= b < |nc'| && 0 <= k < |nc'[b]|
      ensures Reached(chains, i, j + 1, nc'[b][k]) && BucketOf(nc'[b][k], |nc'|) == b
    {
      var y := nc'[b][k];
      if y in nc[b] {
        ReachedMore(chains, i, j, i, j + 1, y);
      } else {
        assert b == b0 && y == x;
      }
    }
  }

  lemma CoveredNext<K>(chains: seq<seq<Handle<K>>>, i: nat, j: nat, nc: seq<seq<Handle<K>>>)
    requires Covered(chains, i, j, nc) && i < |chains| && j < |chains[i]|
    ensures var x := chains[i][j]; var b := BucketOf(x, |nc|);
      Covered(chains, i, j + 1, nc[b := [x] + nc[b]])
  {
    var x := chains[i][j];
    var b0 := BucketOf(x, |nc|);
    var nc' := nc[b0 := [x] + nc[b0]];
    hide BucketOf;
    forall b, k | 0 <= b < |chains| && 0 <= k < |chains[b]| && (b < i || (b == i && k < j + 1))
      ensures chains[b][k] in nc'[BucketOf(chains[b][k], |nc'|)]
    {
      var y := chains[b][k];
      if b < i || k < j {
        assert y in nc[BucketOf(y, |nc|)];
      } else {
        assert nc'[b0][0] == x;
      }
    }
  }

  lemma RowDone<K>(chains: seq<seq<Handle<K>>>, i: nat, nc: seq<seq<Handle<K>>>)
    requires i < |chains| && Moved(chains, i, |chains[i]|, nc) && Undone(chains, i, |chains[i]|)
    ensures Moved(chains, i + 1, 0, nc) && Undone(chains, i + 1, 0)
  {
    hide Reached, AllDistinct, Apart, BucketOf;
    forall b, y | 0 <= b < |nc| && y in nc[b] ensures Reached(chains, i + 1, 0, y) {
      ReachedMore(chains, i, |chains[i]|, i + 1, 0, y);
    }
    forall b | i + 1 <= b < |chains| ensures LinkedFrom(chains[b], 0) {}
  }

  lemma MovedAll<K>(order: seq<Handle<K>>, chains: seq<seq<Handle<K>>>, nc: seq<seq<Handle<K>>>)
    requires Placed(order, chains) && Moved(chains, |chains|, 0, nc)
    ensures Placed(order, nc) && All(nc) == All(chains)
  {
    MovedWithin(chains, |chains|, 0, nc);
    forall x | x in All(chains) ensures x in nc[BucketOf(x, |nc|)] && x in order {
      var b, k :| 0 <= b < |chains| && 0 <= k < |chains[b]| && chains[b][k] == x;
      assert x in chains[b];
    }
    forall x | x in order ensures x in All(chains) {
      var b := BucketOf(x, |chains|);
      assert x in chains[b];
      var k :| 0 <= k < |chains[b]| && chains[b][k] == x;
    }
    forall x | x in All(chains) ensures x in All(nc) {
      var b := BucketOf(x, |nc|);
      var k :| 0 <= k < |nc[b]| && nc[b][k] == x;
    }
  }

  /** The linking part of HASH_ADD_TO_BKT and of the expansion loop: the item becomes
      the head of the chain. */
  method PushFront<K>(item: Handle<K>, buckets: array<Bucket<K>>, b: nat, count: nat, mult: nat, ghost nc: seq<seq<Handle<K>>>)
    requires Chains(nc, buckets[..]) && Apart(nc) && b < |nc| && !Held(nc, item)
    modifies item`hhNext, item`hhPrev, All(nc)`hhPrev, buckets
    ensures Chains(nc[b := [item] + nc[b]], buckets[..])
    ensures buckets[..] == old(buckets[..])[b := Bucket(item, count, mult)]
  {
    ghost var c, nc' := nc[b], nc[b := [item] + nc[b]];
    item.hhPrev := null;
    item.hhNext := buckets[b].head;
    if buckets[b].head != null {
      assert c[0] in All(nc);
      buckets[b].head.hhPrev := item;
    }
    buckets[b] := Bucket(item, count, mult);
    assert item !in c;
    assert ChainList(nc'[b], item);
    forall b' | 0 <= b' < |nc'| && b' != b ensures ChainList(nc'[b'], buckets[b'].head) {
      assert old(ChainList(nc[b'], buckets[..][b'].head));
      assert c != [] ==> c[0] !in nc[b'];
      assert item !in nc[b'];
    }
  }

  ghost predicate Held<K>(chains: seq<seq<Handle<K>>>, x: Handle<K>) {
    exists b :: 0 <= b < |chains| && x in chains[b]
  }

  /** The expansion multiplier that a chain of `n` items ends up with. */
  ghost function ExpandMult(n: nat, ideal: nat): nat {
    if n <= ideal then 0
    else
      var m := ExpandMult(n - 1, ideal);
      if n > m * ideal then m + 1 else m
  }

  lemma MultStep(n: nat, ideal: nat, m: nat)
    requires n > ideal && ExpandMult(n - 1, ideal) == m
    ensures ExpandMult(n, ideal) == if n > ideal * m then m + 1 else m
  {
    assert m * ideal == ideal * m;
  }

  /** The first item that is too many. */
  lemma MultFirst(ideal: nat)
    ensures ExpandMult(ideal, ideal) == 0 && ExpandMult(ideal + 1, ideal) == 1
  {
    MultStep(ideal + 1, ideal, 0);
  }

  lemma {:induction false} MultOfOne(n: nat)
    ensures ExpandMult(n, 1) == if n <= 1 then 0 else n - 1
  {
    if n > 1 {
      MultOfOne(n - 1);
      MultStep(n, 1, n - 2);
    }
  }

  lemma {:induction false} MultLong(n: nat, ideal: nat)
    requires n >= ideal + 2 && ideal >= 2
    ensures ExpandMult(n, ideal) == CeilDiv(n, ideal)
  {
    hide CeilDiv, ExpandMult;
    if n == ideal + 2 {
      MultFirst(ideal);
      MultStep(n, ideal, 1);
      CeilIs(n, ideal, 2);
    } else {
      MultLong(n - 1, ideal);
      MultStep(n, ideal, CeilDiv(n - 1, ideal));
      CeilStep(n, ideal);
    }
  }

  /** The multiplier is 0 for chains of at most the ideal length. For longer ones it is the number of ideal
      lengths that they span, rounded up, but one less if that length is 1 or they are just one item too long. */
  lemma MultSpans(n: nat, ideal: nat)
    requires ideal >= 1
    ensures ExpandMult(n, ideal) ==
      if n <= ideal then 0 else CeilDiv(n, ideal) - if ideal == 1 || n == ideal + 1 then 1 else 0
  {
    if n > ideal {
      hide CeilDiv, ExpandMult;
      if ideal == 1 {
        MultOfOne(n);
        CeilIs(n, 1, n);
      } else if n == ideal + 1 {
        MultFirst(ideal);
        CeilIs(n, ideal, 2);
      } else {
        MultLong(n, ideal);
      }
    }
  }

  ghost predicate Mults<K>(nc: seq<seq<Handle<K>>>, bs: seq<Bucket<K>>, ideal: nat) {
    |nc| == |bs| && forall b | 0 <= b < |nc| :: bs[b].expandMult == ExpandMult(|nc[b]|, ideal)
  }

  lemma MultAt<K>(nc: seq<seq<Handle<K>>>, bs: seq<Bucket<K>>, ideal: nat, b: nat)
    requires Mults(nc, bs, ideal) && b < |nc|
    ensures bs[b].expandMult == ExpandMult(|nc[b]|, ideal)
  {}

  lemma MultPush<K>(nc: seq<seq<Handle<K>>>, bs: seq<Bucket<K>>, ideal: nat, b: nat, x: Handle<K>, bucket: Bucket<K>)
    requires Mults(nc, bs, ideal) && b < |nc| && bucket.expandMult == ExpandMult(|nc[b]| + 1, ideal)
    ensures Mults(nc[b := [x] + nc[b]], bs[b := bucket], ideal)
  {}

  lemma {:induction false} NonidealPush<T>(nc: seq<seq<T>>, b: nat, x: T, ideal: nat)
    requires b < |nc|
    ensures Nonideal(nc[b := [x] + nc[b]], ideal) == Nonideal(nc, ideal) + if |nc[b]| + 1 > ideal then 1 else 0
  {
    var n, nc' := |nc| - 1, nc[b := [x] + nc[b]];
    if b < n {
      assert nc'[..n] == nc[..n][b := [x] + nc[..n][b]];
      NonidealPush(nc[..n], b, x, ideal);
    } else {
      assert nc'[..n] == nc[..n];
    }
  }

  // ---------------------------------------------------------------- any run of operations

  datatype Op<K> = Put(key: K) | Get(key: K) | Drop(key: K)

  /** The keys in insertion order, as a sequence without repetition. */
  function Step<K(==)>(keys: seq<K>, op: Op<K>): seq<K> {
    match op
    case Put(k) => if k in keys then keys else keys + [k]
    case Get(k) => keys
    case Drop(k) => if k in keys then Without(keys, k) else keys
  }

  function Steps<K(==)>(ops: seq<Op<K>>): seq<K> {
    if ops == [] then [] else Step(Steps(ops[..|ops|-1]), ops[|ops|-1])
  }

  ghost function Keys<K>(order: seq<Handle<K>>): (ks: seq<K>)
    ensures |ks| == |order| && forall i | 0 <= i < |order| :: ks[i] == order[i].key
  {
    if order == [] then [] else Keys(order[..|order|-1]) + [order[|order|-1].key]
  }

  lemma {:induction false} WithoutRemoves<K>(keys: seq<K>, i: nat)
    requires i < |keys| && forall j | 0 <= j < i :: keys[j] != keys[i]
    ensures Without(keys, keys[i]) == Remove(keys, i)
  {
    if i > 0 {
      WithoutRemoves(keys[1..], i - 1);
      assert Remove(keys, i) == [keys[0]] + Remove(keys[1..], i - 1);
    }
  }

  lemma KeysHeld<K>(order: seq<Handle<K>>, k: K)
    requires UniqueKeys(order)
    ensures k in Keys(order) <==> k in Model(order)
  {
    ModelAt(order, k);
    if k in Keys(order) {
      var i :| 0 <= i < |order| && Keys(order)[i] == k;
      assert order[i] in order;
    }
    if k in Model(order) {
      var i :| 0 <= i < |order| && order[i] == Model(order)[k];
      assert Keys(order)[i] == k;
    }
  }

  lemma KeysRemove<K>(order: seq<Handle<K>>, i: nat)
    requires UniqueKeys(order) && i < |order|
    ensures Keys(Remove(order, i)) == Without(Keys(order), order[i].key)
  {
    var keys := Keys(order);
    WithoutRemoves(keys, i);
    RemoveIndex(order, i);
    RemoveIndex(keys, i);
    hide Remove, Keys, UniqueKeys;
    assert keys[i] == order[i].key;
    var a, b := Keys(Remove(order, i)), Remove(keys, i);
    forall j | 0 <= j < |a| ensures a[j] == b[j] {
      assert a[j] == Remove(order, i)[j].key;
    }
  }

  lemma KeysPush<K>(order: seq<Handle<K>>, x: Handle<K>)
    ensures Keys(order + [x]) == Keys(order) + [x.key]
  {
    assert (order + [x])[..|order|] == order;
  }

  lemma TailHeld<K>(t: Table<K>)
    requires t.Valid()
    ensures t.tail == null || t.tail in t.Nodes()
    ensures (forall i | 0 <= i < |t.order| :: t.order[i] in t.Nodes()) && All(t.chains) <= t.Nodes() && UniqueKeys(t.order)
  {}

  lemma Absent<K>(order: seq<Handle<K>>, k: K)
    requires UniqueKeys(order) && k !in Model(order)
    ensures forall x | x in order :: x.key != k
  {
    ModelAt(order, k);
  }

  lemma Present<K>(order: seq<Handle<K>>, k: K)
    requires UniqueKeys(order) && k in Model(order)
    ensures Model(order)[k] in order && Model(order)[k].key == k
  {
    ModelAt(order, k);
  }

  method Perform<K(==)>(t: Table<K>, op: Op<K>) returns (found: bool)
    requires t.Valid()
    modifies t, t.buckets, t.Nodes()
    ensures t.Valid() && (t.buckets == old(t.buckets) || fresh(t.buckets)) && fresh(t.Nodes() - old(t.Nodes()))
    ensures found == (op.key in old(Keys(t.order))) && Keys(t.order) == Step(old(Keys(t.order)), op)
  {
    hide Model, UniqueKeys, Keys, Without, Remove, Table.Structure;
    TailHeld(t);
    KeysHeld(t.order, op.key);
    var x := t.Find(op.key);
    found := x != null;
    if op.Put? && x == null {
      Absent(t.order, op.key);
      var item := new Handle(op.key, t.hash(op.key));
      KeysPush(t.order, item);
      t.Add(item);
    } else if op.Drop? && x != null {
      ghost var order := t.order;
      Present(order, op.key);
      t.Delete(x);
      ghost var i :| 0 <= i < |order| && order[i] == x && t.order == Remove(order, i);
      KeysRemove(order, i);
    }
  }

  /** Any run of insertions of absent keys, lookups and deletions, from a new table: an operation
      finds its key exactly if the sequence of keys holds it, and the table is left with exactly
      these keys in this order. */
  method AnyRun<K(==)>(hash: K -> nat, ops: seq<Op<K>>) returns (t: Table<K>, found: seq<bool>)
    ensures fresh(t) && t.Valid() && Keys(t.order) == Steps(ops)
    ensures |found| == |ops| && forall i | 0 <= i < |ops| :: found[i] == (ops[i].key in Steps(ops[..i]))
  {
    hide Keys, Step, Steps, Table.Valid;
    t := new Table(hash);
    found := [];
    NoSteps(t.order, ops);
    for i := 0 to |ops|
      invariant fresh(t) && fresh(t.buckets) && fresh(t.Nodes()) && t.Valid() && Keys(t.order) == Steps(ops[..i])
      invariant |found| == i && forall k | 0 <= k < i :: found[k] == (ops[k].key in Steps(ops[..k]))
    {
      NextStep(ops, i);
      var here := Perform(t, ops[i]);
      found := found + [here];
    }
    assert ops[..|ops|] == ops;
  }

  lemma NoSteps<K>(order: seq<Handle<K>>, ops: seq<Op<K>>)
    requires order == []
    ensures Keys(order) == Steps(ops[..0])
  {}

  lemma NextStep<K>(ops: seq<Op<K>>, i: nat)
    requires i < |ops|
    ensures Steps(ops[..i+1]) == Step(Steps(ops[..i]), ops[i])
  {
    assert ops[..i+1][..i] == ops[..i];
  }
}
