/** Where a walk along the links leads that starts at some node, when all nodes have been spliced, in
    whatever order they were numbered. */
module Walks {
  import opened Links
  import opened Lists
  import opened Seqs

  /** Node `d` is a proper descendant of node `a`. */
  ghost predicate Below(par: seq<nat>, rank: seq<nat>, a: nat, d: nat)
    requires Ranked(par, rank)
    decreases if d < |par| then rank[d] else 0
  {
    0 < d < |par| && par[d] != 0 && (par[d] == a || Below(par, rank, a, par[d]))
  }

  lemma {:induction false} BelowRank(par: seq<nat>, rank: seq<nat>, a: nat, d: nat)
    requires Ranked(par, rank) && Below(par, rank, a, d)
    ensures 0 < a < |par| && rank[a] < rank[d]
    decreases rank[d]
  {
    if par[d] != a { BelowRank(par, rank, a, par[d]); }
  }

  lemma {:induction false} BelowTrans(par: seq<nat>, rank: seq<nat>, a: nat, m: nat, d: nat)
    requires Ranked(par, rank) && Below(par, rank, a, m) && Below(par, rank, m, d)
    ensures Below(par, rank, a, d)
    decreases rank[d]
  {
    if par[d] != m { BelowTrans(par, rank, a, m, par[d]); }
  }

  // ---------------------------------------------------------------- the trees so far

  /** The first node on the way up from `x` that is not spliced yet, or the sentinel. */
  ghost function Top(par: seq<nat>, rank: seq<nat>, k: nat, x: nat): (t: nat)
    requires Ranked(par, rank) && x < |par|
    ensures t < |par| && rank[t] <= rank[x] && (t == 0 || t > k)
    decreases rank[x]
  {
    if x == 0 || x > k then x else Top(par, rank, k, par[x])
  }

  lemma {:induction false} TopNext(par: seq<nat>, rank: seq<nat>, k: nat, x: nat)
    requires Ranked(par, rank) && 0 < k < |par| && x < |par|
    ensures Top(par, rank, k, x) == var t := Top(par, rank, k - 1, x); if t == k then Top(par, rank, k - 1, par[k]) else t
    decreases rank[x]
  {
    if 0 < x <= k { TopNext(par, rank, k, par[x]); }
  }

  lemma {:induction false} TopBelow(par: seq<nat>, rank: seq<nat>, k: nat, d: nat, g: nat)
    requires Ranked(par, rank) && k < d && Below(par, rank, d, g)
    ensures d < |par| && rank[d] <= rank[Top(par, rank, k, g)]
    decreases rank[g]
  {
    BelowRank(par, rank, d, g);
    if g <= k && par[g] != d { TopBelow(par, rank, k, d, par[g]); }
  }

  lemma {:induction false} TopAbove(par: seq<nat>, rank: seq<nat>, k: nat, x: nat)
    requires Ranked(par, rank) && x < |par|
    ensures var t := Top(par, rank, k, x); t == 0 || t == x || Below(par, rank, t, x)
    decreases rank[x]
  {
    if 0 < x <= k { TopAbove(par, rank, k, par[x]); }
  }

  // ---------------------------------------------------------------- the links so far

  /** The list of a waiting node is closed. */
  ghost predicate Closed(l: Links, n: nat, k: nat)
    requires InRange(l, n)
  {
    forall d | k < d <= n :: l.next[l.prev[d]] == d
  }

  predicate Childless(par: seq<nat>, k: nat, d: nat) {
    forall c | 0 < c <= k && c < |par| :: par[c] != d
  }

  /** A waiting node without a spliced child is alone. */
  ghost predicate Lonely(par: seq<nat>, l: Links, n: nat, k: nat)
    requires InRange(l, n)
  {
    forall d | k < d <= n && Childless(par, k, d) :: l.next[d] == d && l.prev[d] == d
  }

  /** Links lead out of no tree. */
  ghost predicate Together(par: seq<nat>, rank: seq<nat>, l: Links, n: nat, k: nat)
    requires Ranked(par, rank) && InRange(l, n) && |par| == n + 1
  {
    forall x | 0 <= x <= n :: Top(par, rank, k, l.next[x]) == Top(par, rank, k, x)
  }

  /** Behind a waiting node that is not alone comes a node whose parent is late. */
  ghost predicate Orphaned(par: seq<nat>, rank: seq<nat>, l: Links, n: nat, k: nat)
    requires Ranked(par, rank) && InRange(l, n) && |par| == n + 1
  {
    forall d | k < d <= n && l.next[d] != d :: OrphanOf(par, rank, d, l.next[d])
  }

  ghost predicate OrphanOf(par: seq<nat>, rank: seq<nat>, d: nat, y: nat)
    requires Ranked(par, rank)
  {
    0 < y < |par| && Late(par, par[y]) && (par[y] == d || Below(par, rank, d, par[y]))
  }

  ghost predicate InOrder(par: seq<nat>, rank: seq<nat>, l: Links, k: nat)
    requires Ranked(par, rank) && InRange(l, |par| - 1)
  {
    var n := |par| - 1;
    Waiting(par, rank, l, k) && Closed(l, n, k) && Lonely(par, l, n, k) && Together(par, rank, l, n, k) && Orphaned(par, rank, l, n, k)
  }

  /** What is known of the node `k` that is spliced next. */
  lemma NextNode(par: seq<nat>, rank: seq<nat>, l: Links, k: nat)
    requires Ranked(par, rank) && 0 < k < |par| && InRange(l, |par| - 1) && InOrder(par, rank, l, k - 1)
    ensures l.next[l.prev[k]] == k && l.prev[k] != par[k]
    ensures l.prev[k] <= k && l.next[k] <= k
    ensures forall d | k < d < |par| :: l.next[d] != k && l.prev[k] != d && l.next[k] != d && l.prev[d] != l.prev[k]
    ensures !Late(par, k) ==> l.next[k] == l.prev[k] == k
    ensures Late(par, k) ==> OrphanOf(par, rank, k, l.next[k])
  {
    if !Late(par, k) { assert Childless(par, k - 1, k); }
    hide Below, Together;
    if Late(par, k) {
      var c :| 0 < c < k && par[c] == k;
    }
  }

  lemma ClosedNext(par: seq<nat>, rank: seq<nat>, l: Links, k: nat)
    requires Ranked(par, rank) && 0 < k < |par| && InRange(l, |par| - 1) && InOrder(par, rank, l, k - 1)
    ensures Closed(Splice(l, |par| - 1, k, par[k]), |par| - 1, k)
  {
    NextNode(par, rank, l, k);
    hide Orphaned, Together, Late, Below, Downwards, Grown, Lonely;
  }

  lemma LonelyNext(par: seq<nat>, rank: seq<nat>, l: Links, k: nat)
    requires Ranked(par, rank) && 0 < k < |par| && InRange(l, |par| - 1) && InOrder(par, rank, l, k - 1)
    ensures Lonely(par, Splice(l, |par| - 1, k, par[k]), |par| - 1, k)
  {
    NextNode(par, rank, l, k);
    hide Orphaned, Together, Late, Below, Downwards, Grown;
    forall d | k < d < |par| && Childless(par, k, d) ensures Childless(par, k - 1, d) {}
  }

  lemma TogetherNext(par: seq<nat>, rank: seq<nat>, l: Links, k: nat)
    requires Ranked(par, rank) && 0 < k < |par| && InRange(l, |par| - 1) && InOrder(par, rank, l, k - 1)
    ensures Together(par, rank, Splice(l, |par| - 1, k, par[k]), |par| - 1, k)
  {
    NextNode(par, rank, l, k);
    var n, r := |par| - 1, Splice(l, |par| - 1, k, par[k]);
    assert Top(par, rank, k - 1, k) == k;
    forall x | 0 <= x <= n ensures Top(par, rank, k, r.next[x]) == Top(par, rank, k, x) {
      TopNext(par, rank, k, x);
      TopNext(par, rank, k, r.next[x]);
      assert Top(par, rank, k - 1, l.next[x]) == Top(par, rank, k - 1, x);
      assert Top(par, rank, k - 1, l.next[k]) == k && Top(par, rank, k - 1, l.next[l.prev[k]]) == Top(par, rank, k - 1, l.prev[k]);
      hide Top, Waiting, Closed, Lonely, Orphaned;
    }
  }

  lemma OrphanedNext(par: seq<nat>, rank: seq<nat>, l: Links, k: nat)
    requires Ranked(par, rank) && 0 < k < |par| && InRange(l, |par| - 1) && InOrder(par, rank, l, k - 1)
    ensures Orphaned(par, rank, Splice(l, |par| - 1, k, par[k]), |par| - 1, k)
  {
    NextNode(par, rank, l, k);
    var n, r := |par| - 1, Splice(l, |par| - 1, k, par[k]);
    forall d | k < d <= n && r.next[d] != d ensures OrphanOf(par, rank, d, r.next[d]) {
      if d == par[k] {
        if Late(par, k) {
          if par[l.next[k]] != k { BelowTrans(par, rank, d, k, par[l.next[k]]); }
        } else {
          assert 0 < k < d && par[k] == d;
        }
      } else {
        assert r.next[d] == l.next[d];
      }
    }
  }

  lemma AloneInOrder(par: seq<nat>, rank: seq<nat>)
    requires Ranked(par, rank)
    ensures InOrder(par, rank, Alone(|par| - 1), 0)
  {}

  lemma InOrderNext(par: seq<nat>, rank: seq<nat>, l: Links, k: nat)
    requires Ranked(par, rank) && 0 < k < |par| && InRange(l, |par| - 1) && InOrder(par, rank, l, k - 1)
    ensures InOrder(par, rank, Splice(l, |par| - 1, k, par[k]), k)
  {
    WaitingNext(par, rank, l, k);
    ClosedNext(par, rank, l, k);
    LonelyNext(par, rank, l, k);
    TogetherNext(par, rank, l, k);
    OrphanedNext(par, rank, l, k);
    hide Closed, Lonely, Together, Orphaned, Waiting, Splice;
  }

  // ---------------------------------------------------------------- the walk

  /** The nodes that the walk from `s` passes after `k` splices: a node that comes after its parent goes
      right behind it; behind the parent of a late node the walk ends. */
  ghost function Walked(par: seq<nat>, s: nat, k: nat): (w: seq<nat>)
    requires |par| > k
    ensures w != [] && w[0] == s
  {
    if k == 0 then [s] else
      var w := Walked(par, s, k - 1);
      if par[k] !in w then w
      else if Late(par, k) then w[..Position(w, par[k]) + 1]
      else InsertAt(w, Position(w, par[k]), [k])
  }

  ghost predicate ParentBefore(par: seq<nat>, w: seq<nat>, i: nat) {
    i < |w| && w[i] < |par| && exists j :: 0 <= j < i && w[j] == par[w[i]]
  }

  /** `w` begins with `s`; behind it come descendants of `s`, each once, none of them late, each after its parent. */
  ghost predicate Family(par: seq<nat>, rank: seq<nat>, s: nat, w: seq<nat>, k: nat)
    requires Ranked(par, rank)
  {
    && w != [] && w[0] == s
    && (forall i, j | 0 <= i < j < |w| :: w[i] != w[j])
    && (forall i | 1 <= i < |w| :: 0 < w[i] <= k && w[i] < |par| && !Late(par, w[i]) && Below(par, rank, s, w[i]))
    && (forall i: nat | 1 <= i < |w| :: ParentBefore(par, w, i))
  }

  ghost predicate Follows(l: Links, w: seq<nat>) {
    && (forall i | 0 <= i < |w| :: w[i] < |l.next|)
    && (forall i | 0 <= i < |w| - 1 :: l.next[w[i]] == w[i+1])
  }

  /** A node whose parent no walk from `s` ever passes. */
  ghost predicate Stray(par: seq<nat>, rank: seq<nat>, s: nat, y: nat)
    requires Ranked(par, rank)
  {
    !Below(par, rank, s, y) || (y < |par| && Late(par, par[y]) && par[y] != s)
  }

  ghost predicate Leads(par: seq<nat>, rank: seq<nat>, l: Links, s: nat, w: seq<nat>, k: nat)
    requires Ranked(par, rank)
  {
    Family(par, rank, s, w, k) && Follows(l, w) && Stray(par, rank, s, l.next[w[|w|-1]])
  }

  /** What comes behind the parent of `k` is no descendant of `k`, nor of any node below `k`. */
  lemma OutsideAfter(par: seq<nat>, rank: seq<nat>, l: Links, k: nat, s: nat)
    requires Ranked(par, rank) && 0 < k < |par| && InRange(l, |par| - 1) && InOrder(par, rank, l, k - 1)
    requires s == k || Below(par, rank, k, s)
    ensures !Below(par, rank, s, l.next[par[k]])
  {
    hide InOrder, Top;
    TreeKept(par, rank, l, k - 1, par[k]);
    var g := l.next[par[k]];
    if Below(par, rank, s, g) {
      if s != k { BelowTrans(par, rank, k, s, g); }
      TopBelow(par, rank, k - 1, k, g);
    }
  }

  lemma TreeKept(par: seq<nat>, rank: seq<nat>, l: Links, k: nat, x: nat)
    requires Ranked(par, rank) && InRange(l, |par| - 1) && InOrder(par, rank, l, k) && x < |par|
    ensures l.next[x] < |par| && Top(par, rank, k, l.next[x]) == Top(par, rank, k, x)
  {
    hide Top, Waiting, Closed, Lonely, Orphaned;
  }

  /** All nodes of the walk are in one tree. */
  lemma {:induction false} OneTree(par: seq<nat>, rank: seq<nat>, s: nat, w: seq<nat>, k: nat, i: nat)
    requires Ranked(par, rank) && Family(par, rank, s, w, k) && i < |w| && s < |par|
    ensures w[i] < |par| && Top(par, rank, k, w[i]) == Top(par, rank, k, s)
  {
    if i > 0 {
      assert ParentBefore(par, w, i);
      var j :| 0 <= j < i && w[j] == par[w[i]];
      OneTree(par, rank, s, w, k, j);
    }
  }

  lemma InFamily(par: seq<nat>, rank: seq<nat>, s: nat, w: seq<nat>, k: nat)
    requires Ranked(par, rank) && Family(par, rank, s, w, k)
    ensures w != [] && w[0] == s && forall i | 1 <= i < |w| :: 0 < w[i] <= k && w[i] < |par|
    ensures forall i, j | 0 <= i < j < |w| :: w[i] != w[j]
  {
    hide Below, Late, Ranked;
  }

  /** If the list of `k` ends with a node of the walk, the walk starts in the tree of `k`. */
  lemma EndOfTree(par: seq<nat>, rank: seq<nat>, l: Links, s: nat, w: seq<nat>, k: nat, i: nat)
    requires Ranked(par, rank) && 0 < k < |par| && InRange(l, |par| - 1) && InOrder(par, rank, l, k - 1)
    requires Leads(par, rank, l, s, w, k - 1) && s < |par| && i < |w| && w[i] == l.prev[k]
    ensures i == |w| - 1 && (s == k || Below(par, rank, k, s))
  {
    hide InOrder, Below, Late, Stray, Family;
    NextNode(par, rank, l, k);
    OneTree(par, rank, s, w, k - 1, i);
    TreeKept(par, rank, l, k - 1, w[i]);
    assert Top(par, rank, k - 1, k) == k;
    TopAbove(par, rank, k - 1, s);
    hide Top;
    assert i < |w| - 1 ==> l.next[w[i]] == w[i+1];
    InFamily(par, rank, s, w, k - 1);
  }

  /** Splicing a node whose parent is not in the walk changes the walk at most behind its end. */
  lemma StepAway(par: seq<nat>, rank: seq<nat>, l: Links, s: nat, w: seq<nat>, k: nat)
    requires Ranked(par, rank) && 0 < k < |par| && InRange(l, |par| - 1) && InOrder(par, rank, l, k - 1)
    requires Leads(par, rank, l, s, w, k - 1) && 0 < s < |par| && par[k] !in w
    ensures Leads(par, rank, Splice(l, |par| - 1, k, par[k]), s, w, k)
  {
    hide InOrder, Below, Late;
    NextNode(par, rank, l, k);
    var r := Splice(l, |par| - 1, k, par[k]);
    forall i | 0 <= i < |w| && w[i] == l.prev[k]
      ensures i == |w| - 1 && !Below(par, rank, s, l.next[par[k]])
    {
      hide Leads, Splice;
      EndOfTree(par, rank, l, s, w, k, i);
      OutsideAfter(par, rank, l, k, s);
    }
    hide Ranked;
    assert forall i | 0 <= i < |w| :: r.next[w[i]] == if w[i] == l.prev[k] then l.next[par[k]] else l.next[w[i]];
  }

  lemma CutFamily(par: seq<nat>, rank: seq<nat>, s: nat, w: seq<nat>, k: nat, q: nat)
    requires Ranked(par, rank) && 0 < k && Family(par, rank, s, w, k - 1) && q < |w|
    ensures Family(par, rank, s, w[..q+1], k)
  {
    hide Below, Late, Ranked;
    var c := w[..q+1];
    forall i: nat | 1 <= i < |c| ensures ParentBefore(par, c, i) {
      assert ParentBefore(par, w, i);
      var j :| 0 <= j < i && w[j] == par[w[i]];
      assert c[j] == w[j];
    }
    hide ParentBefore;
  }

  lemma CutFollows(l: Links, r: Links, w: seq<nat>, q: nat)
    requires Follows(l, w) && q < |w| && |r.next| == |l.next| && forall i | 0 <= i < q :: r.next[w[i]] == l.next[w[i]]
    ensures Follows(r, w[..q+1])
  {}

  /** A late node cuts the walk behind its parent. */
  lemma StepCut(par: seq<nat>, rank: seq<nat>, l: Links, s: nat, w: seq<nat>, k: nat, q: nat)
    requires Ranked(par, rank) && 0 < k < |par| && InRange(l, |par| - 1) && InOrder(par, rank, l, k - 1)
    requires Leads(par, rank, l, s, w, k - 1) && 0 < s < |par| && q < |w| && w[q] == par[k] && Late(par, k)
    ensures Leads(par, rank, Splice(l, |par| - 1, k, par[k]), s, w[..q+1], k)
  {
    hide InOrder, Below, Late, Family, Follows;
    NextNode(par, rank, l, k);
    BelowParent(par, rank, s, w, k, q);
    OneWay(par, rank, s, k);
    forall i | 0 <= i < |w| ensures w[i] != l.prev[k] {
      hide Leads, Splice;
      if w[i] == l.prev[k] { EndOfTree(par, rank, l, s, w, k, i); }
    }
    assert Stray(par, rank, s, l.next[k]);
    CutFamily(par, rank, s, w, k, q);
    InFamily(par, rank, s, w, k - 1);
    CutFollows(l, Splice(l, |par| - 1, k, par[k]), w, q);
  }

  lemma BelowParent(par: seq<nat>, rank: seq<nat>, s: nat, w: seq<nat>, k: nat, q: nat)
    requires Ranked(par, rank) && 0 < k < |par| && 0 < s && q < |w| && w[q] == par[k]
    requires Family(par, rank, s, w, k - 1)
    ensures Below(par, rank, s, k)
  {}

  lemma OneWay(par: seq<nat>, rank: seq<nat>, s: nat, k: nat)
    requires Ranked(par, rank) && Below(par, rank, s, k)
    ensures s != k && !Below(par, rank, k, s)
  {
    BelowRank(par, rank, s, k);
    if Below(par, rank, k, s) { BelowRank(par, rank, k, s); }
  }

  lemma JoinParents(par: seq<nat>, w: seq<nat>, k: nat, q: nat)
    requires k < |par| && q < |w| && w[q] == par[k] && forall i: nat | 1 <= i < |w| :: ParentBefore(par, w, i)
    ensures var w' := InsertAt(w, q, [k]); forall i: nat | 1 <= i < |w'| :: ParentBefore(par, w', i)
  {
    var w' := InsertAt(w, q, [k]);
    InsertedAt(w, q, [k]);
    hide InsertAt;
    forall i: nat | 1 <= i < |w'| ensures ParentBefore(par, w', i) {
      if i == q + 1 {
        assert w'[q] == par[w'[i]];
      } else {
        var i0 := if i <= q then i else i - 1;
        assert ParentBefore(par, w, i0);
        var j :| 0 <= j < i0 && w[j] == par[w[i0]];
        assert w'[if j <= q then j else j + 1] == w[j];
      }
    }
  }

  lemma JoinFamily(par: seq<nat>, rank: seq<nat>, s: nat, w: seq<nat>, k: nat, q: nat)
    requires Ranked(par, rank) && 0 < k < |par| && Family(par, rank, s, w, k - 1) && q < |w| && w[q] == par[k]
    requires s != k && Below(par, rank, s, k) && !Late(par, k)
    ensures Family(par, rank, s, InsertAt(w, q, [k]), k)
  {
    InsertedAt(w, q, [k]);
    hide Below, InsertAt, Late, Ranked, ParentBefore;
    JoinParents(par, w, k, q);
  }

  lemma JoinFollows(l: Links, r: Links, w: seq<nat>, q: nat, k: nat)
    requires Follows(l, w) && q < |w| && |r.next| == |l.next| && k < |l.next|
    requires forall i | 0 <= i < |w| && i != q :: r.next[w[i]] == l.next[w[i]]
    requires r.next[w[q]] == k && r.next[k] == l.next[w[q]]
    ensures Follows(r, InsertAt(w, q, [k]))
    ensures var w' := InsertAt(w, q, [k]); r.next[w'[|w'|-1]] == l.next[w[|w|-1]]
  {
    InsertedAt(w, q, [k]);
    hide InsertAt;
  }

  /** A node that comes after its parent, if that is in the walk, joins it right there. */
  lemma StepJoin(par: seq<nat>, rank: seq<nat>, l: Links, s: nat, w: seq<nat>, k: nat, q: nat)
    requires Ranked(par, rank) && 0 < k < |par| && InRange(l, |par| - 1) && InOrder(par, rank, l, k - 1)
    requires Leads(par, rank, l, s, w, k - 1) && 0 < s < |par| && q < |w| && w[q] == par[k] && !Late(par, k)
    ensures Leads(par, rank, Splice(l, |par| - 1, k, par[k]), s, InsertAt(w, q, [k]), k)
  {
    hide InOrder, Below, Late, Family, Follows, InsertAt;
    NextNode(par, rank, l, k);
    BelowParent(par, rank, s, w, k, q);
    OneWay(par, rank, s, k);
    InFamily(par, rank, s, w, k - 1);
    JoinFamily(par, rank, s, w, k, q);
    JoinFollows(l, Splice(l, |par| - 1, k, par[k]), w, q, k);
  }

  /** After any number of splices the links lead from `s` through exactly the nodes of `Walked`, and then
      to a node whose parent is not among them. */
  lemma {:induction false} WalkedLeads(par: seq<nat>, rank: seq<nat>, s: nat, k: nat)
    requires Ranked(par, rank) && 0 < s < |par| && k < |par|
    ensures InOrder(par, rank, Spliced(par, k), k) && Leads(par, rank, Spliced(par, k), s, Walked(par, s, k), k)
  {
    hide InOrder, Leads, InsertAt, Splice;
    if k == 0 {
      AloneInOrder(par, rank);
      LeadsSelf(par, rank, s);
    } else {
      WalkedLeads(par, rank, s, k - 1);
      var l, w := Spliced(par, k - 1), Walked(par, s, k - 1);
      InOrderNext(par, rank, l, k);
      if par[k] !in w {
        StepAway(par, rank, l, s, w, k);
      } else if Late(par, k) {
        StepCut(par, rank, l, s, w, k, Position(w, par[k]));
      } else {
        StepJoin(par, rank, l, s, w, k, Position(w, par[k]));
      }
    }
  }

  lemma LeadsSelf(par: seq<nat>, rank: seq<nat>, s: nat)
    requires Ranked(par, rank) && 0 < s < |par|
    ensures Leads(par, rank, Alone(|par| - 1), s, [s], 0)
  {
    if Below(par, rank, s, s) { OneWay(par, rank, s, s); }
  }

  // ---------------------------------------------------------------- who is in the walk

  /** Behind the end of the walk the next parent is not in it. */
  lemma StrayParent(par: seq<nat>, rank: seq<nat>, s: nat, w: seq<nat>, k: nat, y: nat)
    requires Ranked(par, rank) && Family(par, rank, s, w, k) && 0 < s < |par| && Stray(par, rank, s, y)
    ensures 0 < y < |par| ==> par[y] !in w
  {
    hide Late;
  }

  /** Parents come before their children, and before all descendants. */
  lemma {:induction false} AncestorsFirst(par: seq<nat>, rank: seq<nat>, s: nat, w: seq<nat>, k: nat, i: nat, j: nat)
    requires Ranked(par, rank) && Family(par, rank, s, w, k) && 0 < s < |par|
    requires 1 <= i < |w| && 1 <= j < |w| && Below(par, rank, w[i], w[j])
    ensures i < j
    decreases j
  {
    assert ParentBefore(par, w, j);
    var m :| 0 <= m < j && w[m] == par[w[j]];
    if w[m] != w[i] {
      OneWay(par, rank, s, w[i]);
      AncestorsFirst(par, rank, s, w, k, i, m);
    }
  }

  /** No proper descendant of `s` is late. */
  ghost predicate Punctual(par: seq<nat>, rank: seq<nat>, s: nat)
    requires Ranked(par, rank)
  {
    forall d | 0 < d < |par| && Below(par, rank, s, d) :: !Late(par, d)
  }

  lemma WalkedGrows(par: seq<nat>, s: nat, k: nat, d: nat)
    requires 0 < k < |par|
    requires var w := Walked(par, s, k - 1); if d == k then par[k] in w && !Late(par, k) else d in w && (par[k] in w ==> !Late(par, k))
    ensures d in Walked(par, s, k)
  {
    var w := Walked(par, s, k - 1);
    hide InsertAt, Late;
    if par[k] in w { Inserted(w, Position(w, par[k]), k, d); }
  }

  /** All proper descendants of `s` up to node `k` are in `w`. */
  ghost predicate Passes(par: seq<nat>, rank: seq<nat>, s: nat, w: seq<nat>, k: nat)
    requires Ranked(par, rank)
  {
    forall d | 0 < d <= k && Below(par, rank, s, d) :: d in w
  }

  lemma PassesNone(par: seq<nat>, rank: seq<nat>, s: nat, w: seq<nat>)
    requires Ranked(par, rank)
    ensures Passes(par, rank, s, w, 0)
  {}

  lemma PassesNext(par: seq<nat>, rank: seq<nat>, s: nat, k: nat)
    requires Ranked(par, rank) && 0 < k < |par| && Passes(par, rank, s, Walked(par, s, k - 1), k - 1)
    requires Late(par, k) ==> par[k] !in Walked(par, s, k - 1)
    requires Below(par, rank, s, k) ==> !Late(par, k) && par[k] in Walked(par, s, k - 1)
    ensures Passes(par, rank, s, Walked(par, s, k), k)
  {
    hide Late, Ranked;
    forall d | 0 < d <= k && Below(par, rank, s, d) ensures d in Walked(par, s, k) { WalkedGrows(par, s, k, d); }
  }

  lemma PassesParent(par: seq<nat>, rank: seq<nat>, s: nat, w: seq<nat>, k: nat)
    requires Ranked(par, rank) && 0 < s && 0 < k < |par| && Punctual(par, rank, s) && Passes(par, rank, s, w, k - 1) && s in w
    ensures Below(par, rank, s, k) ==> !Late(par, k) && par[k] in w
  {
    NextPunctual(par, rank, s, k);
    hide Late, Punctual;
  }

  lemma {:induction false} AllWalked(par: seq<nat>, rank: seq<nat>, s: nat, k: nat)
    requires Ranked(par, rank) && 0 < s < |par| && k < |par| && Punctual(par, rank, s)
    ensures Passes(par, rank, s, Walked(par, s, k), k)
  {
    hide InOrder, Spliced, Follows, Stray, Family, Late, Punctual, Ranked, InsertAt, Passes, Below;
    if k == 0 {
      PassesNone(par, rank, s, Walked(par, s, 0));
    } else {
      AllWalked(par, rank, s, k - 1);
      WalkedLeads(par, rank, s, k - 1);
      var w := Walked(par, s, k - 1);
      PassesParent(par, rank, s, w, k);
      if par[k] in w { BelowParent(par, rank, s, w, k, Position(w, par[k])); }
      PassesNext(par, rank, s, k);
    }
  }

  lemma NextPunctual(par: seq<nat>, rank: seq<nat>, s: nat, k: nat)
    requires Ranked(par, rank) && 0 < s && 0 < k < |par| && Punctual(par, rank, s)
    ensures Below(par, rank, s, k) ==>
      !Late(par, k) && (par[k] == s || (0 < par[k] <= k - 1 && Below(par, rank, s, par[k])))
  {
    if Below(par, rank, s, k) && par[k] != s {
      assert !Late(par, par[k]);
    }
  }

  lemma Inserted(w: seq<nat>, q: nat, k: nat, x: nat)
    requires q < |w| && (x in w || x == k)
    ensures x in InsertAt(w, q, [k])
  {
    InsertedAt(w, q, [k]);
    var r := InsertAt(w, q, [k]);
    hide InsertAt;
    if x == k {
      assert r[q+1] == k;
    } else {
      var i :| 0 <= i < |w| && w[i] == x;
      assert r[if i <= q then i else i + 1] == x;
    }
  }

  /** The walk from `s` passes all proper descendants of `s` if and only if none of them was spliced after
      one of its own children. */
  lemma WalkedAllIff(par: seq<nat>, rank: seq<nat>, s: nat)
    requires Ranked(par, rank) && 0 < s < |par|
    ensures Passes(par, rank, s, Walked(par, s, |par| - 1), |par| - 1) <==> Punctual(par, rank, s)
  {
    hide Late, InOrder, Spliced, Follows, Stray, Ranked, InsertAt, Walked;
    var w := Walked(par, s, |par| - 1);
    WalkedLeads(par, rank, s, |par| - 1);
    NoneLate(par, rank, s, w, |par| - 1);
    if Punctual(par, rank, s) { AllWalked(par, rank, s, |par| - 1); }
  }

  lemma NoneLate(par: seq<nat>, rank: seq<nat>, s: nat, w: seq<nat>, k: nat)
    requires Ranked(par, rank) && 0 < s < |par| && Family(par, rank, s, w, k)
    ensures forall d | 0 < d < |par| && Below(par, rank, s, d) && d in w :: !Late(par, d)
  {
    hide Late, Ranked;
    forall d | 0 < d < |par| && Below(par, rank, s, d) && d in w ensures !Late(par, d) { OneWay(par, rank, s, d); }
  }
}
