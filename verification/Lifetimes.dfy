/** What exact counting means for the lifetime of objects. Every statement is about
    an arbitrary consistent heap; `Heap` shows that every API call, with all the
    destructors it sets off, leads from consistent heaps to consistent heaps. */
module Lifetimes {
  import opened Values
  import opened Runtime

  lemma {:induction false} FiredAt(log: seq<Event>, k: nat)
    requires k < |log| && log[k].Fires?
    ensures FiredIn(log)[log[k].o] >= 1
  {
    if k < |log| - 1 { FiredAt(log[..|log|-1], k); }
  }

  lemma {:induction false} FiredTwice(log: seq<Event>, i: nat, j: nat)
    requires i < j < |log| && log[i].Fires? && log[j].Fires? && log[i].o == log[j].o
    ensures FiredIn(log)[log[i].o] >= 2
  {
    if j < |log| - 1 { FiredTwice(log[..|log|-1], i, j); } else { FiredAt(log[..j], i); }
  }

  lemma {:induction false} FiredSomewhere(log: seq<Event>, o: Ref)
    requires o in FiredIn(log)
    ensures exists k :: 0 <= k < |log| && log[k].Fires? && log[k].o == o
  {
    var last := |log| - 1;
    if !(log[last].Fires? && log[last].o == o) {
      FiredSomewhere(log[..last], o);
      var k :| 0 <= k < last && log[k].Fires? && log[k].o == o;
      assert log[k] == log[..last][k];
    }
  }

  /** If the object was created with a destructor, that destructor has run. */
  ghost predicate DtorDone(b: Book, o: Ref) {
    o in b.armed ==> exists k :: 0 <= k < |b.log| && b.log[k].Fires? && b.log[k].o == o
  }

  /** No destructor ever runs twice, and an object whose destruction is over has had
      its destructor run. */
  lemma DestructorOnce(objs: seq<ObjectState>, roots: seq<Root>, b: Book)
    requires Consistent(objs, roots, b)
    ensures forall i, j | 0 <= i < j < |b.log| && b.log[i].Fires? && b.log[j].Fires? :: b.log[i].o != b.log[j].o
    ensures forall o | o in b.finished :: DtorDone(b, o)
  {
    forall i, j | 0 <= i < j < |b.log| && b.log[i].Fires? && b.log[j].Fires? ensures b.log[i].o != b.log[j].o {
      if b.log[i].o == b.log[j].o {
        FiredTwice(b.log, i, j);
        Parts(objs, roots, b, b.log[i].o);
      }
    }
    forall o | o in b.finished ensures DtorDone(b, o) {
      Parts(objs, roots, b, o);
      if o in b.armed { FiredSomewhere(b.log, o); }
    }
  }

  /** A block is freed exactly when nothing refers to it any more, weakly or
      strongly, and that never happens before its destruction is over. */
  lemma FreedExactly(objs: seq<ObjectState>, roots: seq<Root>, b: Book, o: Ref)
    requires Consistent(objs, roots, b) && o < |objs|
    ensures objs[o].freed <==> Strong(o) !in Owned(objs, roots, b) && Weak(o) !in Owned(objs, roots, b)
    ensures objs[o].freed ==> o in b.finished && objs[o].destroyed && objs[o].dtor.NoDtor?
  {
    Parts(objs, roots, b, o);
  }

  /** An object is alive exactly while a strong reference to it exists; a weak
      reference can be upgraded exactly then. */
  lemma AliveExactly(objs: seq<ObjectState>, roots: seq<Root>, b: Book, o: Ref)
    requires Consistent(objs, roots, b) && o < |objs|
    ensures objs[o].refCount > 0 <==> Strong(o) in Owned(objs, roots, b)
    ensures objs[o].refCount == 0 ==> o in b.finished
    ensures o !in b.finished ==> objs[o].refCount > 0 && !objs[o].freed
  {
    Parts(objs, roots, b, o);
  }

  // ---------------------------------------------------------------- garbage

  ghost predicate Refers(objs: seq<ObjectState>, i: Ref, j: Ref) {
    i < |objs| && Strong(j) in MemberClaims(objs[i].members)
  }

  ghost predicate Anchored(roots: seq<Root>, b: Book, o: Ref) {
    Strong(o) in b.held || Strong(o) in RootClaims(roots)
  }

  /** A dead object still has a member that refers to `o`: it got it when its own members were swept. */
  ghost predicate Leftover(objs: seq<ObjectState>, o: Ref) {
    exists i: nat :: i < |objs| && objs[i].refCount == 0 && Refers(objs, i, o)
  }

  /** A path of strong member references to `o`. */
  ghost predicate PathTo(objs: seq<ObjectState>, p: seq<Ref>, o: Ref) {
    && p != [] && p[|p|-1] == o
    && forall k | 0 <= k < |p| - 1 :: Refers(objs, p[k], p[k+1])
  }

  /** Foreign code or a root leads to `o`. */
  ghost predicate Reachable(objs: seq<ObjectState>, roots: seq<Root>, b: Book, o: Ref) {
    exists p :: PathTo(objs, p, o) && Anchored(roots, b, p[0])
  }

  /** What a dead object was left with leads to `o`. */
  ghost predicate Stranded(objs: seq<ObjectState>, o: Ref) {
    exists p :: PathTo(objs, p, o) && Leftover(objs, p[0])
  }

  /** The strong references between objects follow a ranking, so none go in a circle. */
  ghost predicate Acyclic(objs: seq<ObjectState>, rank: seq<nat>) {
    && |rank| == |objs|
    && forall i: nat, j: nat | Refers(objs, i, j) && j < |objs| :: rank[i] < rank[j]
  }

  lemma {:induction false} EdgeOwner(objs: seq<ObjectState>, c: Claim) returns (i: nat)
    requires c in Edges(objs)
    ensures i < |objs| && c in MemberClaims(objs[i].members)
  {
    var n := |objs| - 1;
    if c in MemberClaims(objs[n].members) {
      i := n;
    } else {
      i := EdgeOwner(objs[..n], c);
      assert objs[..n][i] == objs[i];
    }
  }

  lemma {:induction false} OwnerEdge(objs: seq<ObjectState>, c: Claim, i: nat)
    requires i < |objs| && c in MemberClaims(objs[i].members)
    ensures c in Edges(objs)
  {
    if i < |objs| - 1 { OwnerEdge(objs[..|objs|-1], c, i); }
  }

  /** No program call is running. */
  ghost predicate Settled(b: Book) {
    b.pending == multiset{} && b.guards == multiset{}
  }

  /** Only an object that got a member when no loop would reach it leaves anything behind. */
  lemma LeftoverIsLate(objs: seq<ObjectState>, roots: seq<Root>, b: Book, o: Ref)
    requires Consistent(objs, roots, b) && Leftover(objs, o)
    ensures exists i :: i in b.late && i < |objs| && objs[i].refCount == 0 && Refers(objs, i, o)
  {
    var i: nat :| i < |objs| && objs[i].refCount == 0 && Refers(objs, i, o);
    Parts(objs, roots, b, i);
  }

  lemma Extend(objs: seq<ObjectState>, p: seq<Ref>, i: Ref, q: seq<Ref>, o: Ref)
    requires PathTo(objs, p, i) && PathTo(objs, q, o) && (i == q[0] || Refers(objs, i, q[0]))
    ensures var r := p + if i == q[0] then q[1..] else q; PathTo(objs, r, o) && r[0] == p[0]
  {
    var r := p + if i == q[0] then q[1..] else q;
    var d := if i == q[0] then |p| - 1 else |p|;
    assert forall k | d <= k < |r| :: r[k] == q[k - d];
    forall k | 0 <= k < |r| - 1 ensures Refers(objs, r[k], r[k+1]) {
      if k < |p| - 1 { assert Refers(objs, p[k], p[k+1]); }
      if k >= d { assert Refers(objs, q[k - d], q[k - d + 1]); }
    }
  }

  /** Whatever is reachable or stranded is alive, cycles or not. */
  lemma ReachableIsAlive(objs: seq<ObjectState>, roots: seq<Root>, b: Book, p: seq<Ref>, o: Ref)
    requires Consistent(objs, roots, b) && PathTo(objs, p, o) && (Anchored(roots, b, p[0]) || Leftover(objs, p[0]))
    ensures o < |objs| && objs[o].refCount > 0
  {
    if |p| > 1 {
      assert Refers(objs, p[|p|-2], p[|p|-1]);
      OwnerEdge(objs, Strong(o), p[|p|-2]);
    } else if !Anchored(roots, b, o) {
      var i: nat :| i < |objs| && objs[i].refCount == 0 && Refers(objs, i, o);
      OwnerEdge(objs, Strong(o), i);
    }
    assert Strong(o) in Owned(objs, roots, b);
    Parts(objs, roots, b, o);
  }

  lemma {:induction false} AliveIsReachable(objs: seq<ObjectState>, roots: seq<Root>, b: Book, rank: seq<nat>, o: Ref)
    requires Consistent(objs, roots, b) && Settled(b) && Acyclic(objs, rank)
    requires o < |objs| && objs[o].refCount > 0
    ensures Reachable(objs, roots, b, o) || Stranded(objs, o)
    decreases rank[o]
  {
    hide Consistent, Counts, InHeap, Leftover;
    AliveExactly(objs, roots, b, o);
    assert PathTo(objs, [o], o);
    if !Anchored(roots, b, o) && !Leftover(objs, o) {
      assert Strong(o) in Edges(objs);
      var i := EdgeOwner(objs, Strong(o));
      assert Refers(objs, i, o);
      if objs[i].refCount == 0 { LeftBy(objs, i, o); }
      AliveIsReachable(objs, roots, b, rank, i);
      var p :| PathTo(objs, p, i) && (Anchored(roots, b, p[0]) || Leftover(objs, p[0]));
      Longer(objs, p, i, o);
    }
  }

  lemma LeftBy(objs: seq<ObjectState>, i: Ref, o: Ref)
    requires i < |objs| && objs[i].refCount == 0 && Refers(objs, i, o)
    ensures Leftover(objs, o)
  {}

  lemma Longer(objs: seq<ObjectState>, p: seq<Ref>, i: Ref, o: Ref)
    requires PathTo(objs, p, i) && Refers(objs, i, o)
    ensures exists q :: PathTo(objs, q, o) && q[0] == p[0]
  {
    if i == o {
      assert PathTo(objs, p, o);
    } else {
      Extend(objs, p, i, [o], o);
    }
  }

  /** No garbage: between calls, if the strong references form no cycle, an object is alive exactly
      when foreign code, a root, or something that a dead object was left with leads to it. */
  lemma NoGarbage(objs: seq<ObjectState>, roots: seq<Root>, b: Book, rank: seq<nat>, o: Ref)
    requires Consistent(objs, roots, b) && Settled(b) && Acyclic(objs, rank) && o < |objs|
    ensures objs[o].refCount > 0 <==> Reachable(objs, roots, b, o) || Stranded(objs, o)
  {
    if objs[o].refCount > 0 {
      AliveIsReachable(objs, roots, b, rank, o);
    }
    if Reachable(objs, roots, b, o) || Stranded(objs, o) {
      var p :| PathTo(objs, p, o) && (Anchored(roots, b, p[0]) || Leftover(objs, p[0]));
      ReachableIsAlive(objs, roots, b, p, o);
    }
  }

  /** Exactly the objects that foreign code or a root can reach are alive if and only if nothing that a
      dead object was left with is out of their reach. */
  lemma NoGarbageIff(objs: seq<ObjectState>, roots: seq<Root>, b: Book, rank: seq<nat>)
    requires Consistent(objs, roots, b) && Settled(b) && Acyclic(objs, rank)
    ensures (forall o: nat | o < |objs| :: objs[o].refCount > 0 <==> Reachable(objs, roots, b, o)) <==>
      (forall o: nat | Leftover(objs, o) :: Reachable(objs, roots, b, o))
  {
    hide Consistent, Settled, Acyclic, Leftover;
    if forall o: nat | o < |objs| :: objs[o].refCount > 0 <==> Reachable(objs, roots, b, o) {
      forall o: nat | Leftover(objs, o) ensures Reachable(objs, roots, b, o) {
        assert PathTo(objs, [o], o);
        ReachableIsAlive(objs, roots, b, [o], o);
      }
    }
    if forall o: nat | Leftover(objs, o) :: Reachable(objs, roots, b, o) {
      forall o: nat | o < |objs| ensures objs[o].refCount > 0 <==> Reachable(objs, roots, b, o) {
        NoGarbage(objs, roots, b, rank, o);
        if Stranded(objs, o) {
          var q :| PathTo(objs, q, o) && Leftover(objs, q[0]);
          var p :| PathTo(objs, p, q[0]) && Anchored(roots, b, p[0]);
          Extend(objs, p, q[0], q, o);
        }
      }
    }
  }

  /** When foreign code has given everything back and no root is left, all blocks of an acyclic heap are
      freed if and only if no dead object was left with a reference; and if none got a member when no
      loop would reach it, all tables are empty and all destructors have run. */
  lemma EverythingFreed(objs: seq<ObjectState>, b: Book, rank: seq<nat>)
    requires Consistent(objs, [], b) && Settled(b) && Acyclic(objs, rank) && b.held == multiset{}
    ensures (forall o | 0 <= o < |objs| :: objs[o].freed) <==>
      (forall i | 0 <= i < |objs| && objs[i].refCount == 0 :: MemberClaims(objs[i].members) == multiset{})
    ensures b.late == {} ==> forall o: nat | o < |objs| :: objs[o].freed && objs[o].members == [] && DtorDone(b, o)
  {
    hide Counts, InHeap, Acyclic, DtorDone;
    if forall i | 0 <= i < |objs| && objs[i].refCount == 0 :: MemberClaims(objs[i].members) == multiset{} {
      AllDead(objs, b, rank);
      forall o: nat | o < |objs| ensures objs[o].freed {
        FreedExactly(objs, [], b, o);
        if Strong(o) in Edges(objs) { var i := EdgeOwner(objs, Strong(o)); }
        if Weak(o) in Edges(objs) { var i := EdgeOwner(objs, Weak(o)); }
      }
    }
    if forall o | 0 <= o < |objs| :: objs[o].freed {
      forall i | 0 <= i < |objs| ensures MemberClaims(objs[i].members) == multiset{} { FreedHoldsNothing(objs, b, i); }
    }
    if b.late == {} { NothingLate(objs, b, rank); }
  }

  lemma AllDead(objs: seq<ObjectState>, b: Book, rank: seq<nat>)
    requires Consistent(objs, [], b) && Settled(b) && Acyclic(objs, rank) && b.held == multiset{}
    requires forall i | 0 <= i < |objs| && objs[i].refCount == 0 :: MemberClaims(objs[i].members) == multiset{}
    ensures forall o | 0 <= o < |objs| :: objs[o].refCount == 0
  {
    hide Consistent, Settled, Acyclic;
    assert forall o :: !Leftover(objs, o);
    forall o: nat | o < |objs| ensures objs[o].refCount == 0 {
      NoGarbage(objs, [], b, rank, o);
      NothingReachable(objs, b, o);
    }
  }

  lemma NothingReachable(objs: seq<ObjectState>, b: Book, o: Ref)
    requires b.held == multiset{}
    ensures !Reachable(objs, [], b, o)
  {
    assert forall p :: PathTo(objs, p, o) ==> !Anchored([], b, p[0]);
  }

  lemma FreedHoldsNothing(objs: seq<ObjectState>, b: Book, i: Ref)
    requires Consistent(objs, [], b) && i < |objs| && forall o | 0 <= o < |objs| :: objs[o].freed
    ensures MemberClaims(objs[i].members) == multiset{}
  {
    hide Counts, InHeap, Lifecycle, Table;
    if MemberClaims(objs[i].members) != multiset{} {
      var c :| c in MemberClaims(objs[i].members);
      OwnerEdge(objs, c, i);
      assert c in Owned(objs, [], b);
      assert c.target < |objs| by { Parts(objs, [], b, i); }
      FreedExactly(objs, [], b, c.target);
    }
  }

  lemma NothingLate(objs: seq<ObjectState>, b: Book, rank: seq<nat>)
    requires Consistent(objs, [], b) && Settled(b) && Acyclic(objs, rank) && b.held == multiset{} && b.late == {}
    ensures forall o: nat | o < |objs| :: objs[o].refCount == 0 && objs[o].members == [] && DtorDone(b, o)
  {
    hide Counts, InHeap, Acyclic, Settled, DtorDone;
    DestructorOnce(objs, [], b);
    forall i: nat | i < |objs| && objs[i].refCount == 0 ensures objs[i].members == [] { Parts(objs, [], b, i); }
    AllDead(objs, b, rank);
    forall o: nat | o < |objs| ensures objs[o].members == [] && o in b.finished { Parts(objs, [], b, o); }
  }

  // ---------------------------------------------------------------- what leaks

  lemma OneMember(name: string, v: Value)
    ensures MemberClaims([Member(name, v)]) == Leaves(v)
  {
    assert [Member(name, v)][1..] == [];
  }

  lemma EdgesOfOne(x: ObjectState)
    ensures Edges([x]) == MemberClaims(x.members)
  {
    assert [x][..0] == [];
  }

  function Cycle(): ObjectState {
    ObjectState(1, 1, false, NoDtor, [Member("self", Object(0))], false)
  }

  function Idle(): Book {
    Book(multiset{}, multiset{}, multiset{}, {}, multiset{}, {}, {}, {}, map[], [])
  }

  lemma CycleOwned()
    ensures Owned([Cycle()], [], Idle()) == multiset{Strong(0)}
  {
    OneMember("self", Object(0));
    EdgesOfOne(Cycle());
    hide Edges, MemberClaims;
  }

  /** An object that holds itself outlives every outside reference: the acyclicity in `NoGarbage` cannot
      be dropped. */
  lemma CycleLeaks() returns (objs: seq<ObjectState>, b: Book)
    ensures Consistent(objs, [], b) && Settled(b) && b.held == multiset{}
    ensures |objs| == 1 && objs[0].refCount > 0 && !Reachable(objs, [], b, 0) && !Stranded(objs, 0)
  {
    objs, b := [Cycle()], Idle();
    CycleOwned();
    hide Owned;
    NothingReachable(objs, b, 0);
    assert forall o :: !Leftover(objs, o);
  }

  function Orphan(): ObjectState {
    ObjectState(1, 1, false, NoDtor, [], false)
  }

  // ---------------------------------------------------------------- whole runs

  /** Every run of calls from the beginning ends with nothing in progress; no destructor ran twice, and
      without cycles exactly what foreign code, a root or a leftover leads to is alive. */
  method AnyRun(script: Script) returns (h: Heap)
    ensures fresh(h) && h.Valid() && Settled(h.book) && Made(0, h.book.log, script)
    ensures forall i, j | 0 <= i < j < |h.book.log| && h.book.log[i].Fires? && h.book.log[j].Fires? ::
      h.book.log[i].o != h.book.log[j].o
    ensures forall rank, o: nat | Acyclic(h.objs, rank) && o < |h.objs| ::
      h.objs[o].refCount > 0 <==> Reachable(h.objs, h.roots, h.book, o) || Stranded(h.objs, o)
  {
    hide Consistent, Settled, Acyclic, Made, Progress, DtorDone, ScriptWeight, RootsKept, Reachable, Stranded, RootIds;
    h := new Heap();
    ghost var objs0, b0 := h.objs, h.book;
    h.RunScript(script);
    StillSettled(objs0, b0, h.objs, h.book);
    DestructorOnce(h.objs, h.roots, h.book);
    forall rank, o: nat | Acyclic(h.objs, rank) && o < |h.objs|
      ensures h.objs[o].refCount > 0 <==> Reachable(h.objs, h.roots, h.book, o) || Stranded(h.objs, o)
    {
      NoGarbage(h.objs, h.roots, h.book, rank, o);
    }
  }

  lemma StillSettled(objs: seq<ObjectState>, b: Book, objs': seq<ObjectState>, b': Book)
    requires Progress(objs, b, objs', b') && b'.pending == b.pending == multiset{} && b.guards == multiset{}
    ensures Settled(b')
  {}

  /** Copying a value and freeing the copy changes nothing at all. */
  method CopyThenFree(h: Heap, v: Value)
    requires h.Valid() && Copyable(v) && Available(h.objs, v)
    modifies h
    ensures h.Valid() && h.objs == old(h.objs) && h.roots == old(h.roots) && h.book == old(h.book)
  {
    hide Consistent, Raised, Quiet;
    ghost var objs0, b0 := h.objs, h.book;
    h.CopyValue(v);
    CopiedQuiet(objs0, h.objs, b0.pending, v, 0);
    h.FreeValue(v);
    Lowered(objs0, h.objs, Leaves(v));
  }
}
