/** Process forests, and their pre-orders when every process is enumerated after its parent. */
module Forests {
  import opened Links
  import opened Lists
  import opened Seqs
  import opened Walks

  /** `parent[i]` is the index of the parent of process `i`, or -1; `rank` shows that nobody is an
      ancestor of himself. */
  ghost predicate Tree(parent: seq<int>, rank: seq<nat>) {
    InTable(parent, |parent|) && Ranked(Numbered(parent), rank)
  }

  ghost predicate InTable(order: seq<int>, n: nat) {
    forall k | 0 <= k < |order| :: -1 <= order[k] < n
  }

  /** The parents in the numbering of the link arrays: node 0 is the sentinel, node `i + 1` is process `i`. */
  function Numbered(parent: seq<int>): (par: seq<nat>)
    requires forall i | 0 <= i < |parent| :: -1 <= parent[i] < |parent|
    ensures |par| == |parent| + 1 && forall i | 0 <= i < |parent| :: par[i+1] == parent[i] + 1
    ensures forall x | 0 <= x < |par| :: par[x] < |par|
  {
    seq(|parent| + 1, x requires 0 <= x <= |parent| => if x == 0 then 0 else parent[x-1] + 1)
  }

  /** Every process is enumerated after its parent. */
  ghost predicate Forest(parent: seq<int>) {
    forall i | 0 <= i < |parent| :: -1 <= parent[i] < i
  }

  /** Process `d` is a proper descendant of process `a`. */
  ghost predicate Descends(parent: seq<int>, rank: seq<nat>, a: int, d: int)
    requires Tree(parent, rank)
  {
    a >= 0 && d >= 0 && Below(Numbered(parent), rank, a + 1, d + 1)
  }

  lemma DescendsStep(parent: seq<int>, rank: seq<nat>, a: int, d: int)
    requires Tree(parent, rank)
    ensures Descends(parent, rank, a, d) <==>
      a >= 0 && 0 <= d < |parent| && parent[d] >= 0 && (parent[d] == a || Descends(parent, rank, a, parent[d]))
  {}

  lemma {:induction false} DescendsLater(parent: seq<int>, rank: seq<nat>, a: int, d: int)
    requires Tree(parent, rank) && Forest(parent) && Descends(parent, rank, a, d)
    ensures 0 <= a < d < |parent|
    decreases d
  {
    DescendsStep(parent, rank, a, d);
    if parent[d] != a { DescendsLater(parent, rank, a, parent[d]); }
  }

  // ---------------------------------------------------------------- pre-orders

  ghost predicate ListsAll(order: seq<int>, n: nat) {
    && order != [] && order[0] == -1
    && (forall i, j | 0 <= i < j < |order| :: order[i] != order[j])
    && (forall x :: x in order <==> -1 <= x < n)
  }

  ghost predicate ParentsFirst(parent: seq<int>, rank: seq<nat>, order: seq<int>)
    requires Tree(parent, rank) && Forest(parent)
  {
    forall i, j | 0 <= i < |order| && 0 <= j < |order| && Descends(parent, rank, order[i], order[j]) :: i < j
  }

  ghost predicate Contiguous(parent: seq<int>, rank: seq<nat>, order: seq<int>)
    requires Tree(parent, rank) && Forest(parent)
  {
    forall i, j, k | 0 <= i < j < k < |order| && Descends(parent, rank, order[i], order[k]) ::
      Descends(parent, rank, order[i], order[j])
  }

  /** `order` lists the sentinel (-1) and the first `n` processes, each once; parents
      come before their children and every subtree is contiguous. */
  ghost predicate PreOrder(parent: seq<int>, rank: seq<nat>, order: seq<int>, n: nat)
    requires Tree(parent, rank) && Forest(parent)
  {
    ListsAll(order, n) && ParentsFirst(parent, rank, order) && Contiguous(parent, rank, order)
  }

  /** The list after the first `n` processes are linked, each right behind its parent. */
  ghost function Linked(parent: seq<int>, n: nat): (order: seq<int>)
    requires Forest(parent) && n <= |parent|
    ensures |order| == n + 1 && order[0] == -1
    ensures forall x | -1 <= x < n :: x in order
    ensures forall k | 0 <= k < |order| :: -1 <= order[k] < n
  {
    if n == 0 then [-1]
    else
      var order := Linked(parent, n - 1);
      var p := Position(order, parent[n-1]);
      InsertIndex(order, p, n - 1);
      InsertAt(order, p, [n-1])
  }

  lemma InsertIndex(order: seq<int>, p: nat, x: int)
    requires p < |order|
    ensures var o' := InsertAt(order, p, [x]);
      && |o'| == |order| + 1 && o'[p+1] == x
      && (forall i | 0 <= i <= p :: o'[i] == order[i])
      && (forall i | p + 1 < i < |o'| :: o'[i] == order[i-1])
      && (forall y :: y in o' <==> y in order || y == x)
  {
    var o' := InsertAt(order, p, [x]);
    assert o' == order[..p+1] + ([x] + order[p+1..]);
    assert order == order[..p+1] + order[p+1..];
  }

  lemma InsertListsAll(order: seq<int>, p: nat, n: nat)
    requires ListsAll(order, n) && p < |order|
    ensures ListsAll(InsertAt(order, p, [n]), n + 1)
  {
    InsertIndex(order, p, n);
    assert forall i | 0 <= i < |order| :: order[i] in order;
  }

  lemma InsertParentsFirst(parent: seq<int>, rank: seq<nat>, order: seq<int>, n: nat, p: nat)
    requires Tree(parent, rank) && Forest(parent) && n < |parent| && ListsAll(order, n) && ParentsFirst(parent, rank, order)
    requires p < |order| && order[p] == parent[n]
    ensures ParentsFirst(parent, rank, InsertAt(order, p, [n]))
  {
    InsertIndex(order, p, n);
    var o' := InsertAt(order, p, [n]);
    forall i, j | 0 <= i < |o'| && 0 <= j < |o'| && Descends(parent, rank, o'[i], o'[j]) ensures i < j {
      NewestIsLeaf(parent, rank, order, n, p, i, j);
      hide Descends, InsertAt;
      var i0 := if i <= p then i else i - 1;
      if j == p + 1 {
        assert i != p ==> Descends(parent, rank, order[i0], order[p]);
      } else {
        var j0 := if j <= p then j else j - 1;
        assert Descends(parent, rank, order[i0], order[j0]);
      }
    }
  }

  /** The process just inserted has no descendants yet; its ancestors are its parent
      and its parent's ancestors. */
  lemma NewestIsLeaf(parent: seq<int>, rank: seq<nat>, order: seq<int>, n: nat, p: nat, i: nat, j: nat)
    requires Tree(parent, rank) && Forest(parent) && n < |parent| && ListsAll(order, n) && p < |order| && order[p] == parent[n]
    requires var o' := InsertAt(order, p, [n]);
      i < |o'| && j < |o'| && Descends(parent, rank, o'[i], o'[j])
    ensures i != p + 1
    ensures j == p + 1 && i != p ==> Descends(parent, rank, order[if i <= p then i else i - 1], order[p])
  {
    InsertIndex(order, p, n);
    var o' := InsertAt(order, p, [n]);
    DescendsLater(parent, rank, o'[i], o'[j]);
    assert o'[j] in o';
  }

  lemma InsertContiguous(parent: seq<int>, rank: seq<nat>, order: seq<int>, n: nat, p: nat)
    requires Tree(parent, rank) && Forest(parent) && n < |parent| && ListsAll(order, n)
    requires ParentsFirst(parent, rank, order) && Contiguous(parent, rank, order)
    requires p < |order| && order[p] == parent[n]
    ensures Contiguous(parent, rank, InsertAt(order, p, [n]))
  {
    InsertIndex(order, p, n);
    var o' := InsertAt(order, p, [n]);
    forall i, j, k | 0 <= i < j < k < |o'| && Descends(parent, rank, o'[i], o'[k]) ensures Descends(parent, rank, o'[i], o'[j]) {
      NewestIsLeaf(parent, rank, order, n, p, i, k);
      assert parent[n] >= 0 ==> Descends(parent, rank, order[p], n);
      assert i < p && Descends(parent, rank, order[i], order[p]) ==> Descends(parent, rank, order[i], n);
      hide Descends, InsertAt;
      var i0, j0, k0 := if i <= p then i else i - 1, if j <= p then j else j - 1, if k <= p then k else k - 1;
      if k == p + 1 {
        if i != p && j != p { assert Descends(parent, rank, order[i], order[j]); }
      } else if j == p + 1 {
        if i < p {
          assert Descends(parent, rank, order[i], order[p]);
        } else {
          ParentKnown(parent, rank, order[i], order[k0]);
        }
      } else {
        assert Descends(parent, rank, order[i0], order[j0]);
      }
    }
  }

  lemma ParentKnown(parent: seq<int>, rank: seq<nat>, a: int, d: int)
    requires Tree(parent, rank) && Forest(parent) && Descends(parent, rank, a, d)
    ensures a >= 0
  {
    DescendsLater(parent, rank, a, d);
  }

  lemma PreOrderNext(parent: seq<int>, rank: seq<nat>, order: seq<int>, n: nat, p: nat)
    requires Tree(parent, rank) && Forest(parent) && n < |parent| && PreOrder(parent, rank, order, n)
    requires p < |order| && order[p] == parent[n]
    ensures PreOrder(parent, rank, InsertAt(order, p, [n]), n + 1)
  {
    hide Descends, InsertAt, ListsAll, ParentsFirst, Contiguous, Tree, Forest;
    InsertListsAll(order, p, n);
    InsertParentsFirst(parent, rank, order, n, p);
    InsertContiguous(parent, rank, order, n, p);
  }

  /** The splicing loop builds a pre-order of the whole forest. */
  lemma {:induction false} LinkedIsPreOrder(parent: seq<int>, rank: seq<nat>, n: nat)
    requires Tree(parent, rank) && Forest(parent) && n <= |parent|
    ensures PreOrder(parent, rank, Linked(parent, n), n)
    decreases n
  {
    hide PreOrder, InsertAt, Tree;
    if n == 0 {
      PreOrderNone(parent, rank);
    } else {
      LinkedIsPreOrder(parent, rank, n - 1);
      var order := Linked(parent, n - 1);
      PreOrderNext(parent, rank, order, n - 1, Position(order, parent[n-1]));
    }
  }

  lemma PreOrderNone(parent: seq<int>, rank: seq<nat>)
    requires Tree(parent, rank) && Forest(parent)
    ensures PreOrder(parent, rank, [-1], 0)
  {
    assert !Descends(parent, rank, -1, -1);
    hide Descends;
  }
}
