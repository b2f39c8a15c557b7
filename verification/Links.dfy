/** Splicing nodes into circular lists in any order, seen as arrays of links. Node 0 is the
    sentinel, the nodes behind it are spliced one after the other, each behind its parent. */
module Links {

  datatype Links = Links(next: seq<nat>, prev: seq<nat>)

  ghost predicate InRange(l: Links, n: nat) {
    && |l.next| == |l.prev| == n + 1
    && (forall x | 0 <= x <= n :: l.next[x] <= n && l.prev[x] <= n)
  }

  /** Every node is alone in its list. */
  function Alone(n: nat): (l: Links)
    ensures InRange(l, n)
  {
    Links(seq(n + 1, x requires 0 <= x => x), seq(n + 1, x requires 0 <= x => x))
  }

  /** `__list_splice` of the list of node `i` behind node `p`, with the writes in the order of the code. */
  function Splice(l: Links, n: nat, i: nat, p: nat): (r: Links)
    requires InRange(l, n) && i <= n && p <= n
    ensures InRange(r, n)
  {
    var first, last, after := l.next[i], l.prev[i], l.next[p];
    Links(l.next[p := first][last := after], l.prev[first := p][after := last])
  }

  /** The parents form a forest, in whatever order they are numbered; `par[x]` is 0 for roots. */
  ghost predicate Ranked(par: seq<nat>, rank: seq<nat>) {
    && |rank| == |par| > 0
    && (forall x {:trigger par[x]} | 0 < x < |par| :: par[x] < |par| && rank[par[x]] < rank[x])
  }

  /** The links after the first `k` nodes are spliced. */
  function Spliced(par: seq<nat>, k: nat): (l: Links)
    requires |par| > 0 && k < |par| && forall x | 0 < x < |par| :: par[x] < |par|
    ensures InRange(l, |par| - 1)
  {
    if k == 0 then Alone(|par| - 1) else Splice(Spliced(par, k - 1), |par| - 1, k, par[k])
  }

  /** Node `d` comes after a child of its own. */
  ghost predicate Late(par: seq<nat>, d: nat) {
    exists c :: 0 < c < d && c < |par| && par[c] == d
  }

  /** A waiting node has no predecessor but the last node of its list. */
  ghost predicate Backed(l: Links, n: nat, k: nat)
    requires InRange(l, n)
  {
    forall x | 0 <= x <= n && k < l.next[x] :: x == l.prev[l.next[x]]
  }

  /** No other waiting node is next to a waiting node. */
  ghost predicate Separated(l: Links, n: nat, k: nat)
    requires InRange(l, n)
  {
    forall i | k < i <= n :: (l.next[i] <= k || l.next[i] == i) && (l.prev[i] <= k || l.prev[i] == i)
  }

  /** The list of a waiting node ends no higher in the forest than the node. */
  ghost predicate Downwards(rank: seq<nat>, l: Links, n: nat, k: nat)
    requires InRange(l, n) && |rank| == n + 1
  {
    forall d | k < d <= n :: rank[d] <= rank[l.prev[d]]
  }

  /** A waiting node with a spliced child is not alone. */
  ghost predicate Grown(par: seq<nat>, l: Links, n: nat, k: nat)
    requires InRange(l, n) && |par| == n + 1
  {
    forall c | 0 < c <= k && c <= n && k < par[c] <= n :: l.next[par[c]] != par[c]
  }

  ghost predicate Waiting(par: seq<nat>, rank: seq<nat>, l: Links, k: nat)
    requires |rank| == |par| > 0 && InRange(l, |par| - 1)
  {
    var n := |par| - 1;
    Backed(l, n, k) && Separated(l, n, k) && Downwards(rank, l, n, k) && Grown(par, l, n, k)
  }

  ghost predicate Lost(l: Links, d: nat) {
    forall x | 0 <= x < |l.next| :: l.next[x] != d
  }

  lemma BackedNext(l: Links, n: nat, k: nat, p: nat)
    requires 0 < k <= n && p <= n && InRange(l, n) && Backed(l, n, k - 1) && Separated(l, n, k - 1)
    ensures Backed(Splice(l, n, k, p), n, k)
  {
    var r := Splice(l, n, k, p);
    forall x | 0 <= x <= n && k < r.next[x] ensures x == r.prev[r.next[x]] {
      var d := r.next[x];
      assert l.next[d] == d || l.next[d] <= k - 1;
      assert l.next[k] != d;
    }
  }

  lemma SeparatedNext(l: Links, n: nat, k: nat, p: nat)
    requires 0 < k <= n && p <= n && InRange(l, n) && Separated(l, n, k - 1)
    ensures Separated(Splice(l, n, k, p), n, k)
  {}

  lemma DownwardsNext(rank: seq<nat>, l: Links, n: nat, k: nat, p: nat)
    requires 0 < k <= n && p <= n && InRange(l, n) && |rank| == n + 1 && rank[p] < rank[k]
    requires Backed(l, n, k - 1) && Separated(l, n, k - 1) && Downwards(rank, l, n, k - 1)
    ensures Downwards(rank, Splice(l, n, k, p), n, k)
  {}

  lemma GrownNext(par: seq<nat>, l: Links, n: nat, k: nat)
    requires 0 < k <= n && |par| == n + 1 && par[k] <= n && par[k] != k && InRange(l, n)
    requires Separated(l, n, k - 1) && Grown(par, l, n, k - 1)
    ensures Grown(par, Splice(l, n, k, par[k]), n, k)
  {}

  lemma WaitingNext(par: seq<nat>, rank: seq<nat>, l: Links, k: nat)
    requires Ranked(par, rank) && 0 < k < |par| && InRange(l, |par| - 1) && Waiting(par, rank, l, k - 1)
    ensures Waiting(par, rank, Splice(l, |par| - 1, k, par[k]), k)
  {
    var n := |par| - 1;
    hide Backed, Separated, Downwards, Grown, Splice, InRange;
    BackedNext(l, n, k, par[k]);
    SeparatedNext(l, n, k, par[k]);
    DownwardsNext(rank, l, n, k, par[k]);
    GrownNext(par, l, n, k);
  }

  /** A node that is spliced after one of its children loses its only predecessor. */
  lemma LateIsLost(par: seq<nat>, rank: seq<nat>, l: Links, k: nat)
    requires Ranked(par, rank) && 0 < k < |par| && InRange(l, |par| - 1) && Waiting(par, rank, l, k - 1) && Late(par, k)
    ensures Lost(Splice(l, |par| - 1, k, par[k]), k)
  {}

  /** Splicing gives no node a predecessor that had none. */
  lemma LostForever(par: seq<nat>, l: Links, k: nat, d: nat)
    requires 0 < k < |par| && par[k] < |par| && InRange(l, |par| - 1) && Lost(l, d)
    ensures Lost(Splice(l, |par| - 1, k, par[k]), d)
  {}

  /** In the end no node points to a node that was spliced after one of its children. */
  lemma {:induction false} LateNodesLost(par: seq<nat>, rank: seq<nat>, k: nat)
    requires Ranked(par, rank) && k < |par|
    ensures Waiting(par, rank, Spliced(par, k), k)
    ensures forall d | 0 < d <= k && Late(par, d) :: Lost(Spliced(par, k), d)
  {
    if k > 0 {
      LateNodesLost(par, rank, k - 1);
      var l := Spliced(par, k - 1);
      WaitingNext(par, rank, l, k);
      if Late(par, k) { LateIsLost(par, rank, l, k); }
      forall d | 0 < d < k && Late(par, d) ensures Lost(Spliced(par, k), d) { LostForever(par, l, k, d); }
    }
  }
}
