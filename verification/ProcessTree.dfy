/** `kill_all_descendants` of main.c: processes are spliced into circular lists, each behind its
    parent, and a walk from our own process signals what it comes across. */
module ProcessTree {
  import opened Forests
  import opened Links
  import opened Lists
  import opened Seqs
  import opened Walks

  /** What `/proc/<pid>/stat` says of one process. */
  datatype Stat = Stat(pid: int, ppid: int)

  class Process {
    const pid: int
    const ppid: int
    var visited: bool
    var pp: Process?
    const ll: ListHead<int>   // its container is the position of the process in the table

    constructor (stat: Stat, index: int)
      ensures pid == stat.pid && ppid == stat.ppid && !visited && pp == null
      ensures fresh(ll) && ll.container == index && ll.next == ll && ll.prev == ll
    {
      pid, ppid := stat.pid, stat.ppid;
      visited, pp := false, null;
      ll := new ListHead<int>(index);
    }
  }

  /** The position of a process in the table, or -1. */
  function IndexOf(table: seq<Stat>, pid: int): (i: int)
    ensures -1 <= i < |table|
    ensures i >= 0 ==> table[i].pid == pid
    ensures i == -1 ==> forall j | 0 <= j < |table| :: table[j].pid != pid
  {
    if table == [] then -1
    else if table[|table|-1].pid == pid then |table| - 1
    else IndexOf(table[..|table|-1], pid)
  }

  function Parents(table: seq<Stat>): (r: seq<int>)
    ensures |r| == |table|
  {
    seq(|table|, i requires 0 <= i < |table| => IndexOf(table, table[i].ppid))
  }

  function NodeOf(lls: seq<ListHead<int>>, sentinel: ListHead<int>, x: int): ListHead<int>
    requires -1 <= x < |lls|
  {
    if x == -1 then sentinel else lls[x]
  }

  function Nodes(lls: seq<ListHead<int>>, sentinel: ListHead<int>, order: seq<int>): seq<ListHead<int>>
    requires forall k | 0 <= k < |order| :: -1 <= order[k] < |lls|
  {
    seq(|order|, k requires 0 <= k < |order| => NodeOf(lls, sentinel, order[k]))
  }

  /** The list nodes of the table and of the sentinel are all different. */
  ghost predicate Separate(lls: seq<ListHead<int>>, sentinel: ListHead<int>) {
    && (forall i, j | 0 <= i < j < |lls| :: lls[i] != lls[j])
    && sentinel !in lls
    && sentinel.container == -1
    && forall i | 0 <= i < |lls| :: lls[i].container == i
  }

  lemma NodesInsert(lls: seq<ListHead<int>>, sentinel: ListHead<int>, order: seq<int>, p: nat, x: int)
    requires p < |order| && -1 <= x < |lls| && forall k | 0 <= k < |order| :: -1 <= order[k] < |lls|
    ensures forall k | 0 <= k <= |order| :: -1 <= InsertAt(order, p, [x])[k] < |lls|
    ensures Nodes(lls, sentinel, InsertAt(order, p, [x])) == InsertAt(Nodes(lls, sentinel, order), p, [NodeOf(lls, sentinel, x)])
  {
    InsertIndex(order, p, x);
    InsertedAt(Nodes(lls, sentinel, order), p, [NodeOf(lls, sentinel, x)]);
    var a := Nodes(lls, sentinel, InsertAt(order, p, [x]));
    var b := InsertAt(Nodes(lls, sentinel, order), p, [NodeOf(lls, sentinel, x)]);
    assert |a| == |b|;
    assert forall i | 0 <= i < |a| :: a[i] == b[i];
  }

  lemma LinkStep(parent: seq<int>, i: nat) returns (order: seq<int>, p: nat)
    requires Forest(parent) && i < |parent|
    ensures order == Linked(parent, i) && p < |order| && order[p] == parent[i]
    ensures Linked(parent, i + 1) == InsertAt(order, p, [i])
    ensures forall k | 0 <= k < |order| :: -1 <= order[k] < i
  {
    order := Linked(parent, i);
    p := Position(order, parent[i]);
  }

  function Node(lls: seq<ListHead<int>>, sentinel: ListHead<int>, x: nat): ListHead<int>
    requires x <= |lls|
  {
    if x == 0 then sentinel else lls[x-1]
  }

  ghost predicate Represents(lls: seq<ListHead<int>>, sentinel: ListHead<int>, l: Links)
    reads lls, sentinel
  {
    && InRange(l, |lls|)
    && forall x | 0 <= x <= |lls| :: Node(lls, sentinel, x).next == Node(lls, sentinel, l.next[x])
         && Node(lls, sentinel, x).prev == Node(lls, sentinel, l.prev[x])
  }

  /** The first `i` processes are linked in pre-order and the others are alone. */
  ghost predicate LinkedSoFar(lls: seq<ListHead<int>>, sentinel: ListHead<int>, parent: seq<int>, i: nat)
    requires |lls| == |parent| && i <= |lls|
    reads lls, sentinel
  {
    && Forest(parent) && InTable(Linked(parent, i), |lls|)
    && Ring(Nodes(lls, sentinel, Linked(parent, i)))
    && forall j | i <= j < |lls| :: lls[j].next == lls[j] && lls[j].prev == lls[j]
  }

  /** After `i` processes, in any order, the links are those of `Spliced`; and if the parents come first, the
      list is the pre-order. */
  ghost predicate LinkedTo(lls: seq<ListHead<int>>, sentinel: ListHead<int>, parent: seq<int>, i: nat)
    requires |lls| == |parent| && i <= |lls| && InTable(parent, |parent|)
    reads lls, sentinel
  {
    && Represents(lls, sentinel, Spliced(Numbered(parent), i))
    && (Forest(parent) ==> LinkedSoFar(lls, sentinel, parent, i))
  }

  /** Everything is in place to link process `i` behind position `p` of `outer`. */
  ghost predicate Ready(lls: seq<ListHead<int>>, sentinel: ListHead<int>, parent: seq<int>, i: nat, pp: ListHead<int>,
                        outer: seq<ListHead<int>>, p: nat)
    requires |lls| == |parent| && i < |lls|
    reads lls, sentinel, outer, pp
  {
    && Splicable(lls[i], pp, pp.next, [lls[i]], outer, p)
    && (forall j | i < j < |lls| :: lls[j] !in outer)
    && Forest(parent) && InTable(Linked(parent, i + 1), |lls|)
    && InsertAt(outer, p, Payload([lls[i]])) == Nodes(lls, sentinel, Linked(parent, i + 1))
  }

  lemma ReadyToSplice(lls: seq<ListHead<int>>, sentinel: ListHead<int>, parent: seq<int>, i: nat, pp: ListHead<int>)
      returns (outer: seq<ListHead<int>>, p: nat)
    requires |lls| == |parent| && i < |lls| && Separate(lls, sentinel) && -1 <= parent[i] < |lls|
    requires pp == NodeOf(lls, sentinel, parent[i]) && LinkedSoFar(lls, sentinel, parent, i)
    ensures Ready(lls, sentinel, parent, i, pp, outer, p)
  {
    hide Linked, Position, InsertAt, Descends, PreOrder, Payload;
    var order;
    order, p := LinkStep(parent, i);
    outer := Nodes(lls, sentinel, order);
    OuterNodes(lls, sentinel, order, i);
    assert pp.next == After(outer, p);
    NodesInsert(lls, sentinel, order, p, i);
    PayloadEnds([lls[i]]);
    assert Payload([lls[i]]) == [lls[i]];
    hide Ring, Separate;
    assert Ring([lls[i]]) by { RingOfOne(lls[i]); }
  }

  lemma MaybeReady(lls: seq<ListHead<int>>, sentinel: ListHead<int>, parent: seq<int>, i: nat, pp: ListHead<int>)
      returns (outer: seq<ListHead<int>>, p: nat)
    requires |lls| == |parent| && i < |lls| && Separate(lls, sentinel) && -1 <= parent[i] < |lls|
    requires pp == NodeOf(lls, sentinel, parent[i])
    ensures LinkedSoFar(lls, sentinel, parent, i) ==> Ready(lls, sentinel, parent, i, pp, outer, p)
    ensures LinkedSoFar(lls, sentinel, parent, i) ==> lls[i].next == lls[i].prev == lls[i]
    ensures LinkedSoFar(lls, sentinel, parent, i) ==>
      forall j | i < j < |lls| :: lls[j] != lls[i] && lls[j] != pp && lls[j] != pp.next
  {
    outer, p := [], 0;
    if LinkedSoFar(lls, sentinel, parent, i) {
      outer, p := ReadyToSplice(lls, sentinel, parent, i, pp);
      Bystanders(lls, sentinel, parent, i, pp, outer, p);
    }
  }

  lemma RingOfOne(n: ListHead<int>)
    requires n.next == n && n.prev == n
    ensures Ring([n])
  {}

  lemma OuterNodes(lls: seq<ListHead<int>>, sentinel: ListHead<int>, order: seq<int>, i: nat)
    requires Separate(lls, sentinel) && i <= |lls| && forall k | 0 <= k < |order| :: -1 <= order[k] < i
    ensures var outer := Nodes(lls, sentinel, order);
      && |outer| == |order| && (forall k | 0 <= k < |order| :: outer[k] == NodeOf(lls, sentinel, order[k]))
      && forall j | i <= j < |lls| :: lls[j] !in outer
  {}

  lemma SameNode(lls: seq<ListHead<int>>, sentinel: ListHead<int>)
    requires Separate(lls, sentinel)
    ensures forall x, y | 0 <= x <= |lls| && 0 <= y <= |lls| ::
      Node(lls, sentinel, x) == Node(lls, sentinel, y) <==> x == y
  {}

  /** The splice on the nodes and on the link arrays. */
  method SpliceNodes(lls: seq<ListHead<int>>, sentinel: ListHead<int>, i: nat, pp: ListHead<int>, ghost l: Links, ghost p: nat,
                     ghost outer: seq<ListHead<int>>, ghost k: nat)
    requires i < |lls| && Separate(lls, sentinel) && p <= |lls| && pp == Node(lls, sentinel, p) && Represents(lls, sentinel, l)
    modifies lls[i].next`prev, pp`next, lls[i].prev`next, pp.next`prev
    ensures Represents(lls, sentinel, Splice(l, |lls|, i + 1, p))
    ensures old(Splicable(lls[i], pp, pp.next, [lls[i]], outer, k)) ==> k < |outer| && Ring(InsertAt(outer, k, Payload([lls[i]])))
  {
    hide Splicable, Ring, Separate, InsertAt, Payload;
    SameNode(lls, sentinel);
    assert Node(lls, sentinel, i + 1) == lls[i];
    ghost var first, last, after := l.next[i+1], l.prev[i+1], l.next[p];
    assert lls[i].next == Node(lls, sentinel, first) && lls[i].prev == Node(lls, sentinel, last);
    assert pp.next == Node(lls, sentinel, after);
    SpliceBetween(lls[i], pp, pp.next, [lls[i]], outer, k);
  }

  /** Link the process at position `i` behind its parent, whatever was linked before. */
  method LinkOne(lls: seq<ListHead<int>>, sentinel: ListHead<int>, ghost parent: seq<int>, i: nat, pp: ListHead<int>, ghost l: Links)
    requires |lls| == |parent| && i < |lls| && Separate(lls, sentinel) && -1 <= parent[i] < |lls|
    requires pp == NodeOf(lls, sentinel, parent[i]) && Represents(lls, sentinel, l)
    modifies lls, sentinel
    ensures Represents(lls, sentinel, Splice(l, |lls|, i + 1, parent[i] + 1))
    ensures old(LinkedSoFar(lls, sentinel, parent, i)) ==> LinkedSoFar(lls, sentinel, parent, i + 1)
  {
    hide Linked, Separate, InsertAt, Payload, Represents, Ring, Splice, Splicable, Forest, Nodes;
    ghost var outer, p := MaybeReady(lls, sentinel, parent, i, pp);
    InLists(lls, sentinel, l, i + 1);
    InLists(lls, sentinel, l, parent[i] + 1);
    SpliceNodes(lls, sentinel, i, pp, l, parent[i] + 1, outer, p);
  }

  lemma Bystanders(lls: seq<ListHead<int>>, sentinel: ListHead<int>, parent: seq<int>, i: nat, pp: ListHead<int>,
                   outer: seq<ListHead<int>>, p: nat)
    requires |lls| == |parent| && i < |lls| && Separate(lls, sentinel) && Ready(lls, sentinel, parent, i, pp, outer, p)
    ensures lls[i].next == lls[i].prev == lls[i]
    ensures forall j | i < j < |lls| :: lls[j] != lls[i] && lls[j] != pp && lls[j] != pp.next
  {
    assert pp in outer && pp.next in outer;
    assert Ring([lls[i]]) && [lls[i]][0].next == lls[i];
  }

  lemma InLists(lls: seq<ListHead<int>>, sentinel: ListHead<int>, l: Links, x: nat)
    requires Represents(lls, sentinel, l) && x <= |lls|
    ensures InRange(l, |lls|)
    ensures Node(lls, sentinel, x) == sentinel || Node(lls, sentinel, x) in lls
    ensures Node(lls, sentinel, x).next == sentinel || Node(lls, sentinel, x).next in lls
    ensures Node(lls, sentinel, x).prev == sentinel || Node(lls, sentinel, x).prev in lls
  {}

  ghost predicate DistinctPids(table: seq<Stat>) {
    forall i, j | 0 <= i < j < |table| :: table[i].pid != table[j].pid
  }

  /** Reading `/proc`: one struct per process, each alone in its list. */
  method ReadTable(table: seq<Stat>) returns (ps: seq<Process>)
    ensures |ps| == |table| && fresh(ps)
    ensures forall i, j | 0 <= i < j < |ps| :: ps[i] != ps[j] && ps[i].ll != ps[j].ll
    ensures forall i | 0 <= i < |ps| ::
      && ps[i].pid == table[i].pid && ps[i].ppid == table[i].ppid && !ps[i].visited
      && fresh(ps[i].ll) && ps[i].ll.container == i && ps[i].ll.next == ps[i].ll && ps[i].ll.prev == ps[i].ll
  {
    ps := [];
    for n := 0 to |table|
      invariant |ps| == n && fresh(ps)
      invariant forall i, j | 0 <= i < j < |ps| :: ps[i] != ps[j] && ps[i].ll != ps[j].ll
      invariant forall i | 0 <= i < |ps| ::
        && ps[i].pid == table[i].pid && ps[i].ppid == table[i].ppid && !ps[i].visited
        && fresh(ps[i].ll) && ps[i].ll.container == i && ps[i].ll.next == ps[i].ll && ps[i].ll.prev == ps[i].ll
    {
      var p := new Process(table[n], n);
      ps := ps + [p];
    }
  }

  ghost predicate ParentsSet(ps: seq<Process>, sentinel: Process, parent: seq<int>)
    reads ps`pp
  {
    |ps| == |parent| && InTable(parent, |parent|) && ParentsSetTo(ps, sentinel, parent, |ps|)
  }

  /** The structs are linked as `l` says, and the links lead from the first node of `w` through `w`. */
  ghost predicate Laid(ps: seq<Process>, sentinel: Process, lls: seq<ListHead<int>>, parent: seq<int>, rank: seq<nat>,
                       l: Links, w: seq<nat>)
    reads ps`pp, sentinel`pp, lls, sentinel.ll
  {
    && |ps| == |parent| == |lls| && Tree(parent, rank) && ParentsSet(ps, sentinel, parent)
    && (forall i, j | 0 <= i < j < |ps| :: ps[i] != ps[j]) && (forall i | 0 <= i < |ps| :: ps[i].ll == lls[i])
    && sentinel !in ps && sentinel.pp != null && sentinel.pp !in ps && sentinel.pp != sentinel
    && Separate(lls, sentinel.ll) && Represents(lls, sentinel.ll, l)
    && w != [] && 0 < w[0] <= |ps| && Leads(Numbered(parent), rank, l, w[0], w, |ps|)
  }

  /** The walk along the links from process `self`: signal the next process as long as its parent has
      been visited. It passes the nodes of `w`. */
  method Walk(ps: seq<Process>, sentinel: Process, lls: seq<ListHead<int>>, self: nat,
              ghost parent: seq<int>, ghost rank: seq<nat>, ghost l: Links, ghost w: seq<nat>)
      returns (killed: seq<int>)
    requires Laid(ps, sentinel, lls, parent, rank, l, w) && self < |ps| && w[0] == self + 1
    requires !sentinel.pp.visited && forall i | 0 <= i < |ps| :: !ps[i].visited
    modifies ps`visited, sentinel`visited
    ensures Signalled(ps, w, killed)
  {
    hide Laid, Signalled, Node, Seen;
    Begins(ps, sentinel, lls, parent, rank, l, w, self);
    ghost var c, seen: set<int> := 0, {self};
    ps[self].visited := true;
    sentinel.visited := false;
    var curr := ps[self].ll;
    killed := [];
    SeenFirst(w, self);
    while true
      invariant c < |w| && w[c] <= |lls| && curr == Node(lls, sentinel.ll, w[c])
      invariant Laid(ps, sentinel, lls, parent, rank, l, w)
      invariant Marked(ps, seen) && Seen(w, c, seen) && !sentinel.visited
      invariant sentinel.pp != null && !sentinel.pp.visited
      invariant Signalled(ps, w[..c+1], killed)
      decreases |w| - c
    {
      Ahead(ps, sentinel, lls, parent, rank, l, w, c, seen);
      curr := curr.next;
      // container_of
      var x := curr.container;
      var next := if x == -1 then sentinel else ps[x];
      if !next.pp.visited {
        break;
      }
      SignalNext(ps, w[..c+1], killed, x);
      killed := killed + [next.pid];
      next.visited := true;
      SeenNext(w, c, seen, x);
      c, seen := c + 1, seen + {x};
    }
    assert w[..c+1] == w;
  }

  ghost predicate Marked(ps: seq<Process>, seen: set<int>)
    reads ps`visited
  {
    forall i | 0 <= i < |ps| :: ps[i].visited <==> i in seen
  }

  /** `seen` are the processes of `w` up to position `c`. */
  ghost predicate Seen(w: seq<nat>, c: nat, seen: set<int>) {
    c < |w| && forall i: nat :: i in seen <==> i + 1 in w[..c+1]
  }

  /** All processes of `w` but the first have been signalled. */
  ghost predicate Signalled(ps: seq<Process>, w: seq<nat>, killed: seq<int>) {
    |killed| == |w| - 1 && forall i | 1 <= i < |w| :: 0 < w[i] <= |ps| && killed[i-1] == ps[w[i]-1].pid
  }

  lemma Begins(ps: seq<Process>, sentinel: Process, lls: seq<ListHead<int>>, parent: seq<int>, rank: seq<nat>, l: Links,
               w: seq<nat>, self: nat)
    requires Laid(ps, sentinel, lls, parent, rank, l, w) && self < |ps| && w[0] == self + 1
    ensures |ps| == |lls| && w != [] && ps[self].ll == Node(lls, sentinel.ll, w[0]) && w[..1] == [w[0]]
    ensures sentinel.pp != null && sentinel.pp != sentinel && forall i | 0 <= i < |ps| :: ps[i] != sentinel && ps[i] != sentinel.pp
    ensures forall i | 0 <= i < |ps| && i != self :: ps[i] != ps[self]
    ensures Signalled(ps, w[..1], [])
  {
    hide Leads, Represents, Separate, Tree, ParentsSet;
  }

  lemma SeenFirst(w: seq<nat>, self: nat)
    requires w != [] && w[0] == self + 1
    ensures Seen(w, 0, {self})
  {
    assert w[..1] == [self + 1];
  }

  /** The link from position `c` leads to the next node of the walk, or out of it. */
  lemma FollowLink(lls: seq<ListHead<int>>, sentinel: ListHead<int>, parent: seq<int>, rank: seq<nat>, l: Links, w: seq<nat>, c: nat)
    requires |parent| == |lls| && Tree(parent, rank) && Separate(lls, sentinel) && Represents(lls, sentinel, l)
    requires w != [] && Leads(Numbered(parent), rank, l, w[0], w, |lls|) && c < |w| && w[c] <= |lls|
    ensures |l.next| == |lls| + 1 && l.next[w[c]] <= |lls|
    ensures var n := Node(lls, sentinel, w[c]).next; n == Node(lls, sentinel, l.next[w[c]]) && n.container + 1 == l.next[w[c]]
    ensures l.next[w[c]] == 0 ==> c + 1 == |w|
  {
    assert c + 1 < |w| ==> l.next[w[c]] == w[c+1] && w[c+1] > 0;
  }

  lemma NextParent(ps: seq<Process>, sentinel: Process, parent: seq<int>, rank: seq<nat>, l: Links, w: seq<nat>, c: nat,
                   seen: set<int>, x: int)
    requires |ps| == |parent| && Tree(parent, rank) && ParentsSet(ps, sentinel, parent) && sentinel !in ps && !sentinel.visited
    requires w != [] && 0 < w[0] <= |ps| && Leads(Numbered(parent), rank, l, w[0], w, |ps|) && c < |w|
    requires Marked(ps, seen) && Seen(w, c, seen) && w[c] < |l.next| && 0 <= x < |ps| && l.next[w[c]] == x + 1
    ensures ps[x].pp != null && (ps[x].pp.visited <==> c + 1 < |w|)
    ensures c + 1 < |w| ==> w[c+1] == x + 1
  {
    var par := Numbered(parent);
    if c + 1 < |w| {
      assert ParentBefore(par, w, c + 1);
      var j :| 0 <= j < c + 1 && w[j] == par[w[c+1]];
      assert w[..c+1][j] == par[x+1];
      assert w[j] > 0;
    } else {
      StrayParent(par, rank, w[0], w, |ps|, x + 1);
      assert w[..c+1] == w;
    }
  }

  /** What comes next: a process, whose parent has been visited exactly if the walk goes on, or the sentinel. */
  lemma Ahead(ps: seq<Process>, sentinel: Process, lls: seq<ListHead<int>>, parent: seq<int>, rank: seq<nat>, l: Links,
              w: seq<nat>, c: nat, seen: set<int>)
    requires Laid(ps, sentinel, lls, parent, rank, l, w) && Marked(ps, seen) && Seen(w, c, seen) && !sentinel.visited && w[c] <= |lls|
    ensures |ps| == |lls| && sentinel.pp != null
    ensures var n := Node(lls, sentinel.ll, w[c]).next; var x := n.container;
      && -1 <= x < |ps| && n == Node(lls, sentinel.ll, x + 1) && (c + 1 < |w| ==> w[c+1] == x + 1 > 0)
      && (x >= 0 ==> Behind(ps, sentinel, x) && (ps[x].pp.visited <==> c + 1 < |w|))
  {
    FollowLink(lls, sentinel.ll, parent, rank, l, w, c);
    hide Represents, Separate, Leads, Tree, Seen, Marked;
    var x := l.next[w[c]];
    if x > 0 {
      NextParent(ps, sentinel, parent, rank, l, w, c, seen, x - 1);
      hide ParentsSet;
    }
  }

  ghost predicate Behind(ps: seq<Process>, sentinel: Process, x: nat)
    reads ps`pp, sentinel`pp
  {
    && x < |ps| && ps[x].pp != null && ps[x] != sentinel && ps[x] != sentinel.pp
    && forall i | 0 <= i < |ps| && i != x :: ps[i] != ps[x]
  }

  lemma SeenNext(w: seq<nat>, c: nat, seen: set<int>, x: nat)
    requires c + 1 < |w| && w[c+1] == x + 1 && Seen(w, c, seen)
    ensures Seen(w, c + 1, seen + {x}) && w[..c+2] == w[..c+1] + [x + 1]
  {
    var v := w[..c+1] + [x + 1];
    assert w[..c+2] == v;
    forall i: nat ensures i in seen + {x} <==> i + 1 in v {
      if i == x { assert v[c+1] == i + 1; }
    }
  }

  lemma SignalNext(ps: seq<Process>, w: seq<nat>, killed: seq<int>, x: nat)
    requires x < |ps| && w != [] && Signalled(ps, w, killed)
    ensures Signalled(ps, w + [x + 1], killed + [ps[x].pid])
  {
    var w', k' := w + [x + 1], killed + [ps[x].pid];
    forall i | 1 <= i < |w'| ensures 0 < w'[i] <= |ps| && k'[i-1] == ps[w'[i]-1].pid {
      if i < |w| { assert w'[i] == w[i]; }
    }
  }

  /** `who` lists proper descendants of `self`, each once, parents before their children. */
  ghost predicate Orderly(parent: seq<int>, rank: seq<nat>, self: int, who: seq<int>)
    requires Tree(parent, rank)
  {
    && (forall x | x in who :: Descends(parent, rank, self, x))
    && (forall i, j | 0 <= i < j < |who| :: who[i] != who[j])
    && (forall i, j | 0 <= i < |who| && 0 <= j < |who| && Descends(parent, rank, who[i], who[j]) :: i < j)
  }

  /** `killed` lists the process ids of proper descendants of process `pid`, each once, parents before
      their children. */
  ghost predicate KillsDescendants(table: seq<Stat>, rank: seq<nat>, pid: int, killed: seq<int>)
    requires Tree(Parents(table), rank)
  {
    exists who :: Orderly(Parents(table), rank, IndexOf(table, pid), who) && PidsOf(table, who, killed)
  }

  /** `killed` holds the ids of all proper descendants of process `pid`. */
  ghost predicate KillsAll(table: seq<Stat>, rank: seq<nat>, pid: int, killed: seq<int>)
    requires Tree(Parents(table), rank)
  {
    forall d | 0 <= d < |table| && Descends(Parents(table), rank, IndexOf(table, pid), d) :: table[d].pid in killed
  }

  /** No proper descendant of process `self` is enumerated after one of its own children. */
  ghost predicate NoneAfterChild(parent: seq<int>, rank: seq<nat>, self: int)
    requires Tree(parent, rank)
  {
    forall c, d | 0 <= c < d < |parent| && parent[c] == d :: !Descends(parent, rank, self, d)
  }

  ghost predicate PidsOf(table: seq<Stat>, who: seq<int>, killed: seq<int>) {
    |killed| == |who| && forall i | 0 <= i < |who| :: 0 <= who[i] < |table| && killed[i] == table[who[i]].pid
  }

  /** The processes behind the first one of a walk. */
  function Passed(w: seq<nat>): seq<int>
    requires w != []
  {
    seq(|w| - 1, i requires 0 <= i < |w| - 1 => var x: int := w[i+1]; x - 1)
  }

  /** The processes that a walk from `self` signals. */
  ghost function Victims(parent: seq<int>, self: nat): seq<int>
    requires InTable(parent, |parent|)
  {
    Passed(Walked(Numbered(parent), self + 1, |parent|))
  }

  lemma ForestIsPunctual(parent: seq<int>, rank: seq<nat>, self: int)
    requires Tree(parent, rank) && Forest(parent)
    ensures NoneAfterChild(parent, rank, self)
  {}

  /** `kill_all_descendants`, for processes enumerated in any order: it comes to an end, and signals only
      proper descendants of process `pid`, each at most once and parents before children. It signals
      all of them if and only if none of them is enumerated after one of its own children; in particular
      if every process is enumerated after its parent. */
  method KillAllDescendants(table: seq<Stat>, pid: int, ghost rank: seq<nat>) returns (killed: seq<int>)
    requires DistinctPids(table) && Tree(Parents(table), rank) && IndexOf(table, pid) >= 0
    ensures PidsOf(table, Victims(Parents(table), IndexOf(table, pid)), killed)
    ensures KillsDescendants(table, rank, pid, killed)
    ensures KillsAll(table, rank, pid, killed) <==> NoneAfterChild(Parents(table), rank, IndexOf(table, pid))
    ensures Forest(Parents(table)) ==> KillsAll(table, rank, pid, killed)
  {
    hide Forest, Ring, Descends, Linked, Nodes, Leads, InOrder, ParentsSet, Signalled, IndexOf, Parents, Separate, PidsOf, Tree;
    hide Represents, LinkedSoFar, Spliced, Walked, KillsDescendants, KillsAll, NoneAfterChild;
    var ps, sentinel, lls := Prepare(table);
    LinkAll(table, ps, sentinel, lls);
    ghost var parent, self := Parents(table), IndexOf(table, pid);
    ghost var l, w := LeadsFrom(parent, rank, self);
    killed := Walk(ps, sentinel, lls, IndexOf(table, pid), parent, rank, l, w);
    SignalledPids(ps, table, w, killed);
    VictimsOrderly(parent, rank, self);
    KilledOrderly(table, rank, pid, killed);
    KilledAllIff(table, rank, pid, killed);
    if Forest(parent) { ForestIsPunctual(parent, rank, self); }
  }

  lemma LeadsFrom(parent: seq<int>, rank: seq<nat>, self: nat) returns (l: Links, w: seq<nat>)
    requires Tree(parent, rank) && self < |parent|
    ensures l == Spliced(Numbered(parent), |parent|) && w == Walked(Numbered(parent), self + 1, |parent|)
    ensures Leads(Numbered(parent), rank, l, self + 1, w, |parent|) && Family(Numbered(parent), rank, self + 1, w, |parent|)
  {
    hide InOrder;
    l, w := Spliced(Numbered(parent), |parent|), Walked(Numbered(parent), self + 1, |parent|);
    WalkedLeads(Numbered(parent), rank, self + 1, |parent|);
  }

  /** Whatever the order of enumeration, the walk passes only proper descendants, each once, parents first. */
  lemma VictimsOrderly(parent: seq<int>, rank: seq<nat>, self: nat)
    requires Tree(parent, rank) && self < |parent|
    ensures Orderly(parent, rank, self, Victims(parent, self))
  {
    hide Walked, Below, InOrder, Leads, Family, Spliced, Late;
    var _, w := LeadsFrom(parent, rank, self);
    var par, who := Numbered(parent), Victims(parent, self);
    InFamily(par, rank, self + 1, w, |parent|);
    assert forall i | 0 <= i < |who| :: who[i] + 1 == w[i+1];
    forall x | x in who ensures Descends(parent, rank, self, x) {
      var i :| 0 <= i < |who| && who[i] == x;
      FamilyBelow(par, rank, self + 1, w, |parent|, i + 1);
    }
    forall i, j | 0 <= i < |who| && 0 <= j < |who| && Descends(parent, rank, who[i], who[j]) ensures i < j {
      AncestorsFirst(par, rank, self + 1, w, |parent|, i + 1, j + 1);
    }
  }

  lemma FamilyBelow(par: seq<nat>, rank: seq<nat>, s: nat, w: seq<nat>, k: nat, i: nat)
    requires Ranked(par, rank) && Family(par, rank, s, w, k) && 1 <= i < |w|
    ensures Below(par, rank, s, w[i])
  {
    hide Late, Ranked;
  }

  lemma KilledOrderly(table: seq<Stat>, rank: seq<nat>, pid: int, killed: seq<int>)
    requires Tree(Parents(table), rank) && IndexOf(table, pid) >= 0
    requires var who := Victims(Parents(table), IndexOf(table, pid));
      PidsOf(table, who, killed) && Orderly(Parents(table), rank, IndexOf(table, pid), who)
    ensures KillsDescendants(table, rank, pid, killed)
  {}

  lemma InVictims(parent: seq<int>, self: nat, d: nat)
    requires InTable(parent, |parent|) && d != self
    ensures d in Victims(parent, self) <==> d + 1 in Walked(Numbered(parent), self + 1, |parent|)
  {
    var w, who := Walked(Numbered(parent), self + 1, |parent|), Victims(parent, self);
    hide Walked;
    assert forall i | 0 <= i < |who| :: who[i] + 1 == w[i+1];
    if d + 1 in w {
      var i :| 0 <= i < |w| && w[i] == d + 1;
      assert who[i-1] == d;
    }
  }

  lemma VictimsAllIff(parent: seq<int>, rank: seq<nat>, self: nat)
    requires Tree(parent, rank) && self < |parent|
    ensures (forall d | 0 <= d < |parent| && Descends(parent, rank, self, d) :: d in Victims(parent, self)) <==>
      NoneAfterChild(parent, rank, self)
  {
    var par := Numbered(parent);
    var w := Walked(par, self + 1, |parent|);
    WalkedAllIff(par, rank, self + 1);
    PunctualIff(parent, rank, self);
    hide Walked, Victims, Punctual, NoneAfterChild, Tree, Below;
    forall d: nat | d < |parent| && Descends(parent, rank, self, d)
      ensures d in Victims(parent, self) <==> d + 1 in w
    {
      OneWay(par, rank, self + 1, d + 1);
      InVictims(parent, self, d);
    }
    if forall d | 0 <= d < |parent| && Descends(parent, rank, self, d) :: d in Victims(parent, self) {
      forall x | 0 < x <= |parent| && Below(par, rank, self + 1, x) ensures x in w {
        assert Descends(parent, rank, self, x - 1);
      }
    }
  }

  lemma PunctualIff(parent: seq<int>, rank: seq<nat>, self: nat)
    requires Tree(parent, rank) && self < |parent|
    ensures Punctual(Numbered(parent), rank, self + 1) <==> NoneAfterChild(parent, rank, self)
  {
    var par := Numbered(parent);
    hide Below, Ranked;
    if Punctual(par, rank, self + 1) {
      forall c, d | 0 <= c < d < |parent| && parent[c] == d ensures !Descends(parent, rank, self, d) {
        assert 0 < c + 1 < d + 1 && par[c+1] == d + 1;
        assert Late(par, d + 1);
      }
    }
    if NoneAfterChild(parent, rank, self) {
      forall x | 0 < x < |par| && Below(par, rank, self + 1, x) ensures !Late(par, x) {
        assert Descends(parent, rank, self, x - 1);
      }
    }
  }

  lemma KilledAllIff(table: seq<Stat>, rank: seq<nat>, pid: int, killed: seq<int>)
    requires DistinctPids(table) && Tree(Parents(table), rank) && IndexOf(table, pid) >= 0
    requires PidsOf(table, Victims(Parents(table), IndexOf(table, pid)), killed)
    ensures KillsAll(table, rank, pid, killed) <==> NoneAfterChild(Parents(table), rank, IndexOf(table, pid))
  {
    var parent, self := Parents(table), IndexOf(table, pid);
    var who := Victims(parent, self);
    VictimsAllIff(parent, rank, self);
    hide Victims, NoneAfterChild, Descends, Parents, IndexOf, Tree;
    forall d | 0 <= d < |table| ensures table[d].pid in killed <==> d in who { PidInKilled(table, who, killed, d); }
  }

  lemma PidInKilled(table: seq<Stat>, who: seq<int>, killed: seq<int>, d: nat)
    requires DistinctPids(table) && PidsOf(table, who, killed) && d < |table|
    ensures table[d].pid in killed <==> d in who
  {
    if table[d].pid in killed {
      var i :| 0 <= i < |killed| && killed[i] == table[d].pid;
      assert who[i] == d;
    }
    if d in who {
      var i :| 0 <= i < |who| && who[i] == d;
      assert killed[i] == table[d].pid;
    }
  }

  /** The structs before linking. The sentinel's parent is never visited. */
  method Prepare(table: seq<Stat>) returns (ps: seq<Process>, sentinel: Process, lls: seq<ListHead<int>>)
    ensures |ps| == |table| == |lls| && fresh(ps) && fresh(lls) && fresh(sentinel) && fresh(sentinel.ll)
    ensures sentinel !in ps && sentinel.pp != null && sentinel.pp !in ps && sentinel.pp != sentinel
    ensures !sentinel.pp.visited && sentinel.ll.next == sentinel.ll && sentinel.ll.prev == sentinel.ll
    ensures forall i, j | 0 <= i < j < |ps| :: ps[i] != ps[j]
    ensures forall i | 0 <= i < |ps| :: ps[i].pid == table[i].pid && ps[i].ppid == table[i].ppid
    ensures forall i | 0 <= i < |ps| :: !ps[i].visited && ps[i].ll == lls[i]
    ensures forall i | 0 <= i < |ps| :: lls[i].next == lls[i] && lls[i].prev == lls[i]
    ensures Separate(lls, sentinel.ll)
  {
    ps := ReadTable(table);
    var limbo := new Process(Stat(0, 0), -2);
    sentinel := new Process(Stat(0, 0), -1);
    sentinel.pp := limbo;
    lls := seq(|ps|, i requires 0 <= i < |ps| => ps[i].ll);
    Apart(lls, sentinel.ll);
  }

  lemma SignalledPids(ps: seq<Process>, table: seq<Stat>, w: seq<nat>, killed: seq<int>)
    requires w != [] && Signalled(ps, w, killed) && |ps| == |table| && forall i | 0 <= i < |ps| :: ps[i].pid == table[i].pid
    ensures PidsOf(table, Passed(w), killed)
  {
    forall i | 0 <= i < |killed| ensures 0 <= Passed(w)[i] < |table| && killed[i] == table[Passed(w)[i]].pid {
      assert Passed(w)[i] + 1 == w[i+1];
    }
  }

  /** One struct for each process of the table, with its own list node. */
  ghost predicate Structs(table: seq<Stat>, ps: seq<Process>, sentinel: Process, lls: seq<ListHead<int>>) {
    && |ps| == |table| == |lls| && sentinel !in ps && Separate(lls, sentinel.ll)
    && (forall i, j | 0 <= i < j < |ps| :: ps[i] != ps[j])
    && (forall i | 0 <= i < |ps| :: ps[i].ppid == table[i].ppid && ps[i].ll == lls[i])
  }

  lemma StructAt(table: seq<Stat>, ps: seq<Process>, sentinel: Process, lls: seq<ListHead<int>>, i: nat)
    requires Structs(table, ps, sentinel, lls) && i < |ps|
    ensures |ps| == |table| == |lls| && ps[i].ppid == table[i].ppid && Separate(lls, sentinel.ll)
    ensures forall j | 0 <= j < i :: ps[j] != ps[i]
  {
    hide Separate;
  }

  lemma ParentNode(table: seq<Stat>, ps: seq<Process>, sentinel: Process, lls: seq<ListHead<int>>, i: nat, x: int, pp: Process)
    requires Structs(table, ps, sentinel, lls) && i < |ps| && x == IndexOf(table, table[i].ppid)
    requires -1 <= x < |ps| && pp == if x == -1 then sentinel else ps[x]
    ensures InTable(Parents(table), |table|) && Parents(table)[i] == x && pp.ll == NodeOf(lls, sentinel.ll, x)
  {
    hide Separate;
  }

  /** The linking loop, for processes in any order: the links are those of `Spliced`, and if the
      parents come first the list is the pre-order. */
  method LinkAll(table: seq<Stat>, ps: seq<Process>, sentinel: Process, lls: seq<ListHead<int>>)
    requires Structs(table, ps, sentinel, lls)
    requires sentinel.ll.next == sentinel.ll && sentinel.ll.prev == sentinel.ll
    requires forall j | 0 <= j < |lls| :: lls[j].next == lls[j] && lls[j].prev == lls[j]
    modifies ps`pp, lls, sentinel.ll
    ensures |ps| == |lls| == |table| && InTable(Parents(table), |table|)
    ensures LinkedTo(lls, sentinel.ll, Parents(table), |ps|) && ParentsSet(ps, sentinel, Parents(table))
  {
    hide LinkedTo, Structs, IndexOf, InTable;
    ghost var parent := Parents(table);
    ParentsInTable(table);
    StructsFit(table, ps, sentinel, lls);
    NoneLinked(lls, sentinel.ll, parent);
    for i := 0 to |ps|
      invariant LinkedTo(lls, sentinel.ll, parent, i) && ParentsSetTo(ps, sentinel, parent, i)
    {
      LinkProcess(table, ps, sentinel, lls, parent, i);
    }
  }

  /** One round of the linking loop. */
  method LinkProcess(table: seq<Stat>, ps: seq<Process>, sentinel: Process, lls: seq<ListHead<int>>, ghost parent: seq<int>, i: nat)
    requires Structs(table, ps, sentinel, lls) && |ps| == |lls| == |table| && parent == Parents(table) && i < |ps|
    requires InTable(parent, |table|) && LinkedTo(lls, sentinel.ll, parent, i) && ParentsSetTo(ps, sentinel, parent, i)
    modifies ps`pp, lls, sentinel.ll
    ensures LinkedTo(lls, sentinel.ll, parent, i + 1) && ParentsSetTo(ps, sentinel, parent, i + 1)
  {
    hide LinkedTo, Separate, IndexOf, Structs, Parents, InTable;
    StructAt(table, ps, sentinel, lls, i);
    var found := IndexOf(table, ps[i].ppid);
    var pp := if found == -1 then sentinel else ps[found];
    ParentNode(table, ps, sentinel, lls, i, found, pp);
    ps[i].pp := pp;
    LinkNext(lls, sentinel.ll, parent, i, pp.ll);
  }

  lemma StructsFit(table: seq<Stat>, ps: seq<Process>, sentinel: Process, lls: seq<ListHead<int>>)
    requires Structs(table, ps, sentinel, lls)
    ensures |ps| == |table| == |lls| && Separate(lls, sentinel.ll)
  {
    hide Separate;
  }

  ghost predicate ParentsSetTo(ps: seq<Process>, sentinel: Process, parent: seq<int>, n: nat)
    requires n <= |ps| == |parent| && InTable(parent, |parent|)
    reads ps`pp
  {
    forall i {:trigger ps[i].pp} | 0 <= i < n :: ps[i].pp == if parent[i] == -1 then sentinel else ps[parent[i]]
  }

  lemma ParentsInTable(table: seq<Stat>)
    ensures InTable(Parents(table), |table|)
  {}

  method LinkNext(lls: seq<ListHead<int>>, sentinel: ListHead<int>, ghost parent: seq<int>, i: nat, pp: ListHead<int>)
    requires |lls| == |parent| && InTable(parent, |parent|) && i < |lls| && Separate(lls, sentinel)
    requires pp == NodeOf(lls, sentinel, parent[i]) && LinkedTo(lls, sentinel, parent, i)
    modifies lls, sentinel
    ensures LinkedTo(lls, sentinel, parent, i + 1)
  {
    hide LinkedSoFar, Represents, Separate, Forest, Splice, InRange;
    SplicedNext(Numbered(parent), i + 1);
    LinkOne(lls, sentinel, parent, i, pp, Spliced(Numbered(parent), i));
  }

  /** The list of the sentinel holds all processes if and only if no process was enumerated after
      one of its children; such a process is never reached by following the list. */
  lemma ListIsWholeIff(lls: seq<ListHead<int>>, sentinel: ListHead<int>, parent: seq<int>, rank: seq<nat>)
    requires |lls| == |parent| && Separate(lls, sentinel) && forall i | 0 <= i < |parent| :: -1 <= parent[i] < |parent|
    requires Ranked(Numbered(parent), rank) && LinkedTo(lls, sentinel, parent, |lls|)
    ensures Forest(parent) <==> ListIsWhole(lls, sentinel)
    ensures forall d | 0 <= d < |lls| && Late(Numbered(parent), d + 1) :: !PointedTo(lls, sentinel, lls[d])
  {
    var n := |lls|;
    forall d | 0 <= d < n && Late(Numbered(parent), d + 1) ensures !PointedTo(lls, sentinel, lls[d]) {
      LateMissed(lls, sentinel, parent, rank, d);
    }
    if Forest(parent) {
      var order := Linked(parent, n);
      hide Linked;
      assert forall i | 0 <= i < n :: i in order;
    } else {
      var d := SomeoneLate(parent, rank);
      if ListIsWhole(lls, sentinel) { WholePointsTo(lls, sentinel, d); }
    }
  }

  ghost predicate ListIsWhole(lls: seq<ListHead<int>>, sentinel: ListHead<int>)
    reads lls, sentinel
  {
    exists order :: InTable(order, |lls|) && (forall i | 0 <= i < |lls| :: i in order) && Ring(Nodes(lls, sentinel, order))
  }

  ghost predicate PointedTo(lls: seq<ListHead<int>>, sentinel: ListHead<int>, n: ListHead<int>)
    reads lls, sentinel
  {
    exists x :: 0 <= x <= |lls| && Node(lls, sentinel, x).next == n
  }

  lemma LateMissed(lls: seq<ListHead<int>>, sentinel: ListHead<int>, parent: seq<int>, rank: seq<nat>, d: nat)
    requires |lls| == |parent| && Separate(lls, sentinel) && forall i | 0 <= i < |parent| :: -1 <= parent[i] < |parent|
    requires Ranked(Numbered(parent), rank) && Represents(lls, sentinel, Spliced(Numbered(parent), |parent|))
    requires d < |lls| && Late(Numbered(parent), d + 1)
    ensures !PointedTo(lls, sentinel, lls[d])
  {
    var l := Spliced(Numbered(parent), |parent|);
    LateNodesLost(Numbered(parent), rank, |parent|);
    SameNode(lls, sentinel);
    hide Spliced, Late, Ranked;
    assert Lost(l, d + 1) && lls[d] == Node(lls, sentinel, d + 1);
  }

  lemma SomeoneLate(parent: seq<int>, rank: seq<nat>) returns (d: nat)
    requires (forall i | 0 <= i < |parent| :: -1 <= parent[i] < |parent|) && !Forest(parent) && Ranked(Numbered(parent), rank)
    ensures d < |parent| && Late(Numbered(parent), d + 1)
  {
    var par := Numbered(parent);
    var i :| 0 <= i < |parent| && parent[i] >= i;
    d := parent[i];
    assert par[i+1] == d + 1 && rank[par[i+1]] < rank[i+1];
    assert 0 < i + 1 < d + 1 && par[i+1] == d + 1;
  }

  lemma WholePointsTo(lls: seq<ListHead<int>>, sentinel: ListHead<int>, d: nat)
    requires ListIsWhole(lls, sentinel) && d < |lls|
    ensures PointedTo(lls, sentinel, lls[d])
  {
    var order :| InTable(order, |lls|) && (forall i | 0 <= i < |lls| :: i in order) && Ring(Nodes(lls, sentinel, order));
    var ring := Nodes(lls, sentinel, order);
    assert d as int in order;
    var k :| 0 <= k < |order| && order[k] == d;
    var before := if k == 0 then |order| - 1 else k - 1;
    assert ring[before].next == ring[k] == lls[d];
    assert Node(lls, sentinel, order[before] + 1) == ring[before];
  }

  lemma SplicedNext(par: seq<nat>, k: nat)
    requires 0 < k < |par| && forall x | 0 < x < |par| :: par[x] < |par|
    ensures Spliced(par, k) == Splice(Spliced(par, k - 1), |par| - 1, k, par[k])
  {}

  lemma Apart(lls: seq<ListHead<int>>, sentinel: ListHead<int>)
    requires forall i, j | 0 <= i < j < |lls| :: lls[i] != lls[j]
    requires sentinel !in lls && sentinel.container == -1
    requires forall i | 0 <= i < |lls| :: lls[i].container == i
    ensures Separate(lls, sentinel)
  {}

  lemma NoneLinked(lls: seq<ListHead<int>>, sentinel: ListHead<int>, parent: seq<int>)
    requires |lls| == |parent| && InTable(parent, |parent|)
    requires sentinel.next == sentinel && sentinel.prev == sentinel
    requires forall j | 0 <= j < |lls| :: lls[j].next == lls[j] && lls[j].prev == lls[j]
    ensures LinkedTo(lls, sentinel, parent, 0)
  {
    if Forest(parent) { assert Nodes(lls, sentinel, Linked(parent, 0)) == [sentinel]; }
  }

  /** Enumeration with a child before its parent: us (0), our grandchild (1), then our child (2). When the
      child is spliced in, its own node is taken for a list head and stays out of the list; behind us
      comes the grandchild, whose parent has not been visited: nobody is signalled. */
  method ChildBeforeParent() returns (table: seq<Stat>, ghost rank: seq<nat>, killed: seq<int>)
    ensures table == [Stat(10, 1), Stat(12, 11), Stat(11, 10)] && Tree(Parents(table), rank)
    ensures Descends(Parents(table), rank, 0, 2) && Descends(Parents(table), rank, 0, 1)
    ensures killed == []
  {
    table, rank := [Stat(10, 1), Stat(12, 11), Stat(11, 10)], [0, 1, 3, 2];
    LateChild(table, rank);
    hide Tree, Descends, Parents, Victims, KillsAll, KillsDescendants, NoneAfterChild;
    killed := KillAllDescendants(table, 10, rank);
  }

  lemma LateChild(table: seq<Stat>, rank: seq<nat>)
    requires table == [Stat(10, 1), Stat(12, 11), Stat(11, 10)] && rank == [0, 1, 3, 2]
    ensures Parents(table) == [-1, 2, 0] && IndexOf(table, 10) == 0 && Tree([-1, 2, 0], rank) && Victims([-1, 2, 0], 0) == []
    ensures Descends([-1, 2, 0], rank, 0, 2) && Descends([-1, 2, 0], rank, 0, 1)
  {
    var par := Numbered([-1, 2, 0]);
    assert par == [0, 0, 3, 1];
    LateTable(table);
    hide IndexOf, Parents;
    assert Walked(par, 1, 0) == [1] && Walked(par, 1, 1) == [1] && Walked(par, 1, 2) == [1];
    assert Late(par, 3) by { assert 0 < 2 < 3 && par[2] == 3; }
    assert Walked(par, 1, 3) == [1];
  }

  lemma LateTable(table: seq<Stat>)
    requires table == [Stat(10, 1), Stat(12, 11), Stat(11, 10)]
    ensures Parents(table) == [-1, 2, 0] && IndexOf(table, 10) == 0
  {
    var t1, t2 := table[..2], table[..2][..1];
    assert t1 == [Stat(10, 1), Stat(12, 11)] && t2 == [Stat(10, 1)] && t2[..0] == [];
    assert IndexOf(t2[..0], 1) == IndexOf(t2, 1) == IndexOf(t1, 1) == -1;
    assert IndexOf(t2, 10) == IndexOf(t1, 10) == IndexOf(table, 10) == 0;
    assert IndexOf(table, 1) == -1 && IndexOf(table, 11) == 2;
  }
}
