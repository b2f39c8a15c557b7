/** When foreign code may change a member table while loops over it are running. The loop of
    `_di_finalize_object` saves its next member before each removal, and each removal may call
    foreign code. Of all calls that code can make, only two can take a saved member away:
    removing it by name, and finalizing the object once more. */
module Reentry {
  import opened Values
  import opened Runtime
  import opened Lifetimes

  import Seqs

  /** No running loop has saved a member that is gone. */
  ghost predicate LoopsKept(objs: seq<ObjectState>, b: Book) {
    forall p | p in b.cursor && b.cursor[p].Some? :: p < |objs| && b.cursor[p].value in Names(objs[p].members)
  }

  /** In a consistent heap all running loops are in order. */
  lemma LoopsInOrder(objs: seq<ObjectState>, roots: seq<Root>, b: Book)
    requires Consistent(objs, roots, b)
    ensures LoopsKept(objs, b)
  {
    hide Counts, InHeap, Owned;
    forall p | p in b.cursor && b.cursor[p].Some? ensures p < |objs| && b.cursor[p].value in Names(objs[p].members) {
      Parts(objs, roots, b, p);
    }
  }

  /** Unlinking a member leaves all running loops in order, and the heap consistent, if and only if
      no loop has saved just this member. */
  lemma UnlinkKeepsIff(objs: seq<ObjectState>, roots: seq<Root>, b: Book, o: Ref, j: nat)
    requires Consistent(objs, roots, b) && o < |objs| && !objs[o].freed && j < |objs[o].members|
    ensures LoopsKept(objs[o := Dropped(objs[o], j)], b) <==> !Pinned(b, o, objs[o].members[j].name)
    ensures Consistent(objs[o := Dropped(objs[o], j)], roots, Released(b, objs[o].members[j].value)) <==>
      !Pinned(b, o, objs[o].members[j].name)
  {
    var objs', b' := objs[o := Dropped(objs[o], j)], Released(b, objs[o].members[j].value);
    Parts(objs, roots, b, o);
    WithoutNames(objs[o].members, j);
    hide Consistent, Owned, Names, Distinct;
    if Pinned(b, o, objs[o].members[j].name) {
      if Consistent(objs', roots, b') { LoopsInOrder(objs', roots, b'); }
    } else {
      Unlink(objs, roots, b, o, j);
      LoopsInOrder(objs', roots, b');
    }
  }

  /** The member loop of a second finalization takes the members from the front of the table. Its first `k`
      removals leave all running loops in order if and only if no loop of the object has saved one of the
      first `k` members. */
  lemma FinalizeKeepsIff(objs: seq<ObjectState>, roots: seq<Root>, b: Book, o: Ref, k: nat)
    requires Consistent(objs, roots, b) && o < |objs| && k <= |objs[o].members|
    ensures LoopsKept(objs[o := objs[o].(members := objs[o].members[k..])], b) <==>
      forall j | 0 <= j < k :: !Pinned(b, o, objs[o].members[j].name)
  {
    LoopsInOrder(objs, roots, b);
    Parts(objs, roots, b, o);
    var ms := objs[o].members;
    assert forall j | 0 <= j < |ms[k..]| :: ms[k..][j] == ms[k + j];
    if Saved(b, o).Some? {
      var j :| 0 <= j < |ms| && ms[j].name == Saved(b, o).value;
      if j >= k { assert ms[k..][j - k].name == Saved(b, o).value; }
    }
  }

  /** All its removals together, if and only if none is saved. */
  lemma FinalizeAllIff(objs: seq<ObjectState>, roots: seq<Root>, b: Book, o: Ref)
    requires Consistent(objs, roots, b) && o < |objs|
    ensures LoopsKept(objs[o := objs[o].(members := [])], b) <==> Saved(b, o).None?
  {
    var ms := objs[o].members;
    FinalizeKeepsIff(objs, roots, b, o, |ms|);
    assert ms[|ms|..] == [];
    LoopsInOrder(objs, roots, b);
    if Saved(b, o).Some? {
      var j :| 0 <= j < |ms| && ms[j].name == Saved(b, o).value;
      assert Pinned(b, o, ms[j].name);
    }
  }

  // ---------------------------------------------------------------- runs, step by step

  /** `di_unref_object` on the last reference, up to the point where `di_destroy_object` has taken its guard
      and marked the object. */
  method Enter(h: Heap, o: Ref)
    requires h.Valid() && Strong(o) in h.book.pending && o < |h.objs| && h.objs[o].refCount == 1 && !h.objs[o].destroyed
    modifies h
    ensures h.Valid() && h.roots == old(h.roots) && h.nextRoot == old(h.nextRoot)
    ensures h.objs == old(h.objs)[o := old(h.objs)[o].(destroyed := true)] && h.book == Guarded(old(h.book), o)
    ensures o !in h.book.cursor && !h.objs[o].freed
  {
    hide Consistent, RootIds, Progress, Raised, Potential;
    ghost var objs0 := h.objs;
    StrongTarget(h.objs, h.roots, h.book, o);
    DestroyEntry(h.objs, h.roots, h.book, o);
    h.objs := h.objs[o := h.objs[o].(refCount := h.objs[o].refCount - 1)];
    h.book := Minus(h.book, Strong(o));
    assert h.objs[o := Up(h.objs[o], Strong(o))] == objs0;
    BeginDestroy(h.objs, h.roots, h.book, o);
    h.RefObject(o);
    h.book := WithGuard(h.book, o);
    h.objs := h.objs[o := h.objs[o].(destroyed := true)];
  }

  /** Clearing the destructor and calling it. */
  method Fire(h: Heap, o: Ref)
    requires h.Valid() && o < |h.objs| && h.objs[o].dtor.Runs?
    modifies h
    ensures h.Valid() && h.roots == old(h.roots) && h.nextRoot == old(h.nextRoot)
    ensures h.objs == old(h.objs)[o := old(h.objs)[o].(dtor := NoDtor)]
    ensures h.book == Fired(old(h.book), o, old(h.objs)[o].members)
  {
    hide Consistent, Progress, Potential;
    TakeDtor(h.objs, h.roots, h.book, o);
    h.book := Fired(h.book, o, h.objs[o].members);
    h.objs := h.objs[o := h.objs[o].(dtor := NoDtor)];
  }

  /** The removal of the members of a destroyed object begins. */
  method Sweep(h: Heap, o: Ref)
    requires h.Valid() && o < |h.objs| && h.objs[o].destroyed
    modifies h`book
    ensures h.Valid() && h.book == old(h.book).(swept := old(h.book.swept) + {o})
  {
    hide Consistent, Progress;
    BeginSweep(h.objs, h.roots, h.book, o);
    h.book := h.book.(swept := h.book.swept + {o});
  }

  /** The first round of the member loop, up to the point where the value of the removed member is freed. */
  method TakeFirst(h: Heap, o: Ref)
    requires h.Valid() && o < |h.objs| && Strong(o) in h.book.guards && o !in h.book.cursor && h.objs[o].members != []
    modifies h
    ensures h.Valid() && h.roots == old(h.roots) && h.nextRoot == old(h.nextRoot)
    ensures h.objs == old(h.objs)[o := Dropped(old(h.objs)[o], 0)]
    ensures var ms := old(h.objs)[o].members; var next := if |ms| > 1 then Some(ms[1].name) else None;
      h.book == Released(old(h.book).(cursor := old(h.book.cursor)[o := next]), ms[0].value)
  {
    hide Consistent, Progress, Potential;
    var ms := h.objs[o].members;
    var m := if ms == [] then None else Some(ms[0].name);
    StartLoop(h.objs, h.roots, h.book, o, m);
    h.book := h.book.(cursor := h.book.cursor[o := m]);
    SaveNext(h.objs, h.roots, h.book, o, 0);
    var next := if 1 < |ms| then Some(ms[1].name) else None;
    h.book := h.book.(cursor := h.book.cursor[o := next]);
    Unlink(h.objs, h.roots, h.book, o, 0);
    h.objs := h.objs[o := h.objs[o].(members := Seqs.Remove(ms, 0))];
    h.book := Released(h.book, ms[0].value);
  }

  /** The member loop ends. */
  method Stop(h: Heap, o: Ref)
    requires h.Valid() && o < |h.objs| && Strong(o) in h.book.guards && o in h.book.cursor
    modifies h`book
    ensures h.Valid() && h.book == old(h.book).(cursor := old(h.book.cursor) - {o})
  {
    hide Consistent;
    SetCursor(h.objs, h.roots, h.book, o, h.book.cursor - {o});
    h.book := h.book.(cursor := h.book.cursor - {o});
  }

  /** The end of `di_destroy_object`, when its guard is the only reference left. */
  method Leave(h: Heap, o: Ref)
    requires h.Valid() && o < |h.objs| && h.objs[o].destroyed && h.objs[o].dtor.NoDtor? && h.objs[o].refCount == 1
    requires o in h.book.swept && o !in h.book.cursor && Strong(o) in h.book.guards && h.objs[o].weakCount > 0
    requires o !in h.book.late ==> h.objs[o].members == []
    modifies h
    ensures h.Valid() && h.roots == old(h.roots) && h.nextRoot == old(h.nextRoot)
    ensures h.objs == old(h.objs)[o := Gone(old(h.objs)[o])]
    ensures h.book == Minus(Unguarded(Finished(old(h.book), o), o), Strong(o))
  {
    hide Consistent, RootIds, Progress, Potential, Raised, DtorRan, RootsKept;
    Finish(h.objs, h.roots, h.book, o);
    Unguard(h.objs, h.roots, Finished(h.book, o), o);
    h.book := Unguarded(Finished(h.book, o), o);
    h.UnrefObject(o);
  }

  // ---------------------------------------------------------------- a destructor that meddles

  function Second(second: bool): seq<Member> {
    if second then [Member("b", Plain(0))] else []
  }

  method TwoObjects() returns (h: Heap)
    ensures fresh(h) && h.Valid() && h.roots == [] && h.objs == [Orphan(), Orphan()]
    ensures h.book == Idle().(held := multiset{Strong(0), Strong(1)})
  {
    hide Consistent, RootIds, Progress, Potential, Hold, Born;
    h := new Heap();
    BornHeld(h.book, 0, NoDtor);
    var _ := h.NewObject(NoDtor);
    assert h.book == Idle().(held := multiset{Strong(0)});
    BornHeld(h.book, 1, NoDtor);
    var _ := h.NewObject(NoDtor);
    assert multiset{Strong(0)} + multiset{Strong(1)} == multiset{Strong(0), Strong(1)};
  }

  lemma BornHeld(b: Book, o: Ref, d: Dtor)
    ensures Hold(Born(b, o, d), Strong(o)) ==
      b.(held := b.held + multiset{Strong(o)}, armed := if d.Runs? then b.armed + {o} else b.armed)
  {
    assert (b.pending + multiset{Strong(o)}) - multiset{Strong(o)} == b.pending;
  }

  /** An owner (0), an object (1) and an object with a destructor (2), all held by foreign code. */
  method ThreeObjects(calls: Script) returns (h: Heap)
    ensures fresh(h) && h.Valid() && h.roots == []
    ensures h.objs == [Orphan(), Orphan(), ObjectState(1, 1, false, Runs(calls), [], false)]
    ensures h.book == Idle().(held := multiset{Strong(0), Strong(1), Strong(2)}, armed := {2})
  {
    hide Consistent, RootIds, Progress, Potential, Hold, Born;
    h := TwoObjects();
    BornHeld(h.book, 2, Runs(calls));
    var _ := h.NewObject(Runs(calls));
    assert multiset{Strong(0), Strong(1)} + multiset{Strong(2)} == multiset{Strong(0), Strong(1), Strong(2)};
  }

  method StoreHelper(calls: Script) returns (h: Heap)
    ensures fresh(h) && h.Valid() && h.roots == []
    ensures h.objs == [Orphan().(members := [Member("a", Object(2))]), Orphan(), ObjectState(1, 1, false, Runs(calls), [], false)]
    ensures h.book == Idle().(held := multiset{Strong(0), Strong(1)}, armed := {2})
  {
    hide Consistent, RootIds, Progress, Potential, Quiet, Raised, RootsKept, CheckNewMember, Stored, YieldAll;
    h := ThreeObjects(calls);
    StoreBook(h.book);
    var rc := h.AddMemberMove(0, "a", Object(2));
    assert h.objs[0] == Orphan().(members := [Member("a", Object(2))]);
  }

  lemma StoreBook(b: Book)
    requires b.held == multiset{Strong(0), Strong(1), Strong(2)} && b.pending == multiset{} && b.swept == {}
    ensures Stored(YieldAll(b, multiset{Strong(2)}), 0, Object(2)) == b.(held := multiset{Strong(0), Strong(1)})
    ensures CheckNewMember([], "a") == Ok
  {
    assert RealName("a") == "";
    assert b.held - multiset{Strong(2)} == multiset{Strong(0), Strong(1)};
  }

  method StoreSecond(second: bool, calls: Script) returns (h: Heap)
    ensures fresh(h) && h.Valid() && h.roots == []
    ensures h.objs == [Orphan().(members := [Member("a", Object(2))] + Second(second)), Orphan(),
                       ObjectState(1, 1, false, Runs(calls), [], false)]
    ensures h.book == Idle().(held := multiset{Strong(0), Strong(1)}, armed := {2})
  {
    hide Consistent, RootIds, Progress, Potential, Quiet, Raised, RootsKept, CheckNewMember, Stored, YieldAll;
    h := StoreHelper(calls);
    if second {
      SecondBook(h.book);
      var rc := h.AddMemberMove(0, "b", Plain(0));
    }
    assert h.objs[0] == Orphan().(members := [Member("a", Object(2))] + Second(second));
  }

  lemma SecondBook(b: Book)
    requires b.swept == {}
    ensures Stored(YieldAll(b, multiset{}), 0, Plain(0)) == b
    ensures CheckNewMember([Member("a", Object(2))], "b") == Ok
  {
    assert RealName("b") == "";
    assert b.held - multiset{} == b.held && (b.pending + multiset{}) - multiset{} == b.pending;
  }

  /** The owner has members "a", which holds object 2, and, if wanted, "b". Foreign code has references to the
      owner, strong and weak, and to object 1. */
  method Build(second: bool, calls: Script) returns (h: Heap)
    ensures fresh(h) && h.Valid() && h.roots == []
    ensures h.objs == [ObjectState(1, 2, false, NoDtor, [Member("a", Object(2))] + Second(second), false), Orphan(),
                       ObjectState(1, 1, false, Runs(calls), [], false)]
    ensures h.book == Idle().(held := multiset{Strong(0), Strong(1), Weak(0)}, armed := {2})
  {
    hide Consistent, RootIds, Progress, Potential, Raised;
    h := StoreSecond(second, calls);
    RaisedOne(h.objs, Weak(0));
    h.RetainWeak(0);
    assert h.book.held == multiset{Strong(0), Strong(1), Weak(0)};
  }

  /** Foreign code releases the owner: its destruction begins. */
  method ReleaseOwner(second: bool, calls: Script) returns (h: Heap)
    ensures fresh(h) && h.Valid() && h.roots == []
    ensures h.objs == [ObjectState(1, 2, true, NoDtor, [Member("a", Object(2))] + Second(second), false), Orphan(),
                       ObjectState(1, 1, false, Runs(calls), [], false)]
    ensures h.book == Idle().(held := multiset{Strong(1), Weak(0)}, guards := multiset{Strong(0)}, armed := {2}, swept := {0})
  {
    hide Consistent, RootIds, Progress, Raised, Potential, DtorRan, RootsKept;
    h := Build(second, calls);
    YieldHeld(h.objs, h.roots, h.book, multiset{Strong(0)});
    h.book := Yield(h.book, Strong(0));
    assert h.book.pending == multiset{Strong(0)} && h.book.held == multiset{Strong(1), Weak(0)};
    Enter(h, 0);
    assert h.book.pending == multiset{} && h.book.guards == multiset{Strong(0)};
    Sweep(h, 0);
  }

  /** The member loop of the owner saves "b", or nothing, and frees "a"; the destruction of object 2 begins. */
  method FreeFirst(second: bool, calls: Script) returns (h: Heap)
    ensures fresh(h) && h.Valid() && h.roots == []
    ensures h.objs == [ObjectState(1, 2, true, NoDtor, Second(second), false), Orphan(),
                       ObjectState(1, 1, true, Runs(calls), [], false)]
    ensures h.book == Idle().(held := multiset{Strong(1), Weak(0)}, guards := multiset{Strong(0), Strong(2)}, armed := {2},
                              swept := {0}, cursor := map[0 := if second then Some("b") else None])
  {
    hide Consistent, RootIds;
    h := ReleaseOwner(second, calls);
    FirstOf(second);
    TakeFirst(h, 0);
    assert h.book.pending == multiset{Strong(2)};
    Enter(h, 2);
    assert h.book.pending == multiset{} && h.book.guards == multiset{Strong(0), Strong(2)};
  }

  lemma FirstOf(second: bool)
    ensures var ms := [Member("a", Object(2))] + Second(second);
      Seqs.Remove(ms, 0) == Second(second) && ms[0].value == Object(2) && |ms| == 1 + |Second(second)|
      && (second ==> ms[1].name == "b")
  {}

  /** The destructor of object 2 starts. */
  method Meddle(second: bool, calls: Script) returns (h: Heap)
    ensures fresh(h) && h.Valid() && h.roots == []
    ensures h.objs == [ObjectState(1, 2, true, NoDtor, Second(second), false), Orphan(), Orphan().(destroyed := true)]
    ensures h.book == Book(multiset{Strong(1), Weak(0)}, multiset{}, multiset{Strong(0), Strong(2)}, {2}, multiset{2},
                           {0}, {}, {}, map[0 := if second then Some("b") else None], [Fires(2, [])])
  {
    hide Consistent, RootIds;
    h := FreeFirst(second, calls);
    Fire(h, 2);
    assert h.book.fired == multiset{2};
  }

  /** It can happen: the destructor upgrades its reference to the owner and removes "b", which is there. After
      that the loop of the owner follows a freed pointer. */
  method SavedMemberRemoved() returns (h: Heap)
    ensures fresh(h) && h.Valid() && h.book.log == [Fires(2, [])] && 2 !in h.book.finished
    ensures |h.objs| == 3 && h.objs[0].refCount > 0 && Strong(0) in h.book.held
    ensures Find(h.objs[0].members, "b") == Some(0) && Saved(h.book, 0) == Some("b")
    ensures !LoopsKept(h.objs[0 := Dropped(h.objs[0], 0)], h.book)
  {
    hide Consistent, RootIds, Progress, Raised, Potential;
    h := Meddle(true, [UpgradeAct(0), Remove(0, "b")]);
    RaisedOne(h.objs, Strong(0));
    var ok := h.Upgrade(0);
    UnlinkKeepsIff(h.objs, h.roots, h.book, 0, 0);
  }

  /** The destructor upgrades its reference to the owner, whose last member is just being removed. */
  method UpgradeLate() returns (h: Heap)
    ensures fresh(h) && h.Valid() && h.roots == []
    ensures h.objs == [ObjectState(2, 2, true, NoDtor, [], false), Orphan(), Orphan().(destroyed := true)]
    ensures h.book == Book(multiset{Strong(0), Strong(1), Weak(0)}, multiset{}, multiset{Strong(0), Strong(2)}, {2}, multiset{2},
                           {0}, {}, {}, map[0 := None], [Fires(2, [])])
  {
    hide Consistent, RootIds, Progress, Raised, Potential;
    h := Meddle(false, [UpgradeAct(0), AddMove(0, "new", Object(1)), UnrefAct(0), DropWeakAct(0)]);
    RaisedOne(h.objs, Strong(0));
    var ok := h.Upgrade(0);
    assert h.book.held == multiset{Strong(0), Strong(1), Weak(0)};
  }

  /** It stores object 1 in the owner. */
  method AddLate() returns (h: Heap)
    ensures fresh(h) && h.Valid() && h.roots == []
    ensures h.objs == [ObjectState(2, 2, true, NoDtor, [Member("new", Object(1))], false), Orphan(), Orphan().(destroyed := true)]
    ensures h.book == Book(multiset{Strong(0), Weak(0)}, multiset{}, multiset{Strong(0), Strong(2)}, {2}, multiset{2},
                           {0}, {}, {0}, map[0 := None], [Fires(2, [])])
  {
    hide Consistent, RootIds, Progress, Raised, Potential, Quiet, RootsKept, CheckNewMember, Stored, YieldAll;
    h := UpgradeLate();
    NewName();
    LateBook(h.book);
    var rc := h.AddMemberMove(0, "new", Object(1));
    assert h.objs[0] == ObjectState(2, 2, true, NoDtor, [Member("new", Object(1))], false);
  }

  lemma NewName()
    ensures CheckNewMember([], "new") == Ok
  {
    assert RealName("new") == "";
  }

  lemma LateBook(b: Book)
    requires b.held == multiset{Strong(0), Strong(1), Weak(0)} && b.pending == multiset{} && b.swept == {0} && b.late == {}
    requires b.cursor == map[0 := None]
    ensures Stored(YieldAll(b, multiset{Strong(1)}), 0, Object(1)) == b.(held := multiset{Strong(0), Weak(0)}, late := {0})
  {
    assert b.held - multiset{Strong(1)} == multiset{Strong(0), Weak(0)};
  }

  /** It gives its references to the owner back and returns. */
  method GiveBack() returns (h: Heap)
    ensures fresh(h) && h.Valid() && h.roots == []
    ensures h.objs == [ObjectState(1, 1, true, NoDtor, [Member("new", Object(1))], false), Orphan(), Orphan().(destroyed := true)]
    ensures h.book == Book(multiset{}, multiset{}, multiset{Strong(0), Strong(2)}, {2}, multiset{2},
                           {0}, {}, {0}, map[0 := None], [Fires(2, [])])
  {
    hide Consistent, RootIds, Progress, Raised, Potential, RootsKept, DtorRan;
    h := AddLate();
    ghost var objs0 := h.objs;
    h.Release(0);
    OneLess(objs0, h.objs, 0);
    assert h.book.held == multiset{Weak(0)};
    h.ReleaseWeak(0);
    assert h.book.held == multiset{};
  }

  /** The destruction of object 2 ends. */
  method EndHelper() returns (h: Heap)
    ensures fresh(h) && h.Valid() && h.roots == []
    ensures h.objs == [ObjectState(1, 1, true, NoDtor, [Member("new", Object(1))], false), Orphan(),
                       ObjectState(0, 0, true, NoDtor, [], true)]
    ensures h.book == Book(multiset{}, multiset{}, multiset{Strong(0)}, {2}, multiset{2},
                           {0, 2}, {2}, {0}, map[0 := None], [Fires(2, [])])
  {
    hide Consistent, RootIds, Unguarded, Finished, Minus;
    h := GiveBack();
    Sweep(h, 2);
    HelperBook(h.book);
    Leave(h, 2);
  }

  lemma HelperBook(b: Book)
    requires b.guards == multiset{Strong(0), Strong(2)} && b.pending == multiset{} && b.finished == {}
    ensures Minus(Unguarded(Finished(b, 2), 2), Strong(2)) == b.(guards := multiset{Strong(0)}, finished := {2})
  {
    assert b.guards - multiset{Strong(2)} == multiset{Strong(0)};
  }

  /** An object that gets a member while its last one is being removed keeps it for good. When all destructions
      have ended, the block of the owner is freed, and what its new member refers to stays alive, out of reach. */
  method LateLeaks() returns (h: Heap, ghost rank: seq<nat>)
    ensures fresh(h) && h.Valid() && Settled(h.book) && Acyclic(h.objs, rank)
    ensures h.roots == [] && h.book.held == multiset{} && h.book.late == {0}
    ensures |h.objs| == 3 && h.objs[0].freed && h.objs[1].refCount > 0
    ensures !Reachable(h.objs, [], h.book, 1) && Stranded(h.objs, 1)
  {
    hide Consistent, RootIds, Acyclic, Reachable, Stranded;
    h := EndHelper();
    Stop(h, 0);
    Leave(h, 0);
    assert h.book.guards == multiset{} && h.book.pending == multiset{};
    rank := [0, 1, 0];
    LateGraph(h.objs, h.book);
  }

  lemma OneLess(objs: seq<ObjectState>, objs': seq<ObjectState>, o: Ref)
    requires o < |objs| && objs[o].refCount > 1 && objs == Raised(objs', multiset{Strong(o)})
    ensures objs' == objs[o := StrongDown(objs[o])]
  {
    assert |objs'| == |objs|;
    RaisedOne(objs', Strong(o));
  }

  lemma LateGraph(objs: seq<ObjectState>, b: Book)
    requires |objs| == 3 && objs[0].members == [Member("new", Object(1))] && objs[1].members == [] && objs[2].members == []
    requires objs[0].refCount == 0 && b.held == multiset{}
    ensures Acyclic(objs, [0, 1, 0]) && !Reachable(objs, [], b, 1) && Stranded(objs, 1)
  {
    OneMember("new", Object(1));
    forall i: nat, j: nat ensures Refers(objs, i, j) <==> i == 0 && j == 1 {}
    hide Refers, MemberClaims;
    LeftBy(objs, 0, 1);
    NothingReachable(objs, b, 1);
    hide Leftover, Reachable;
    assert PathTo(objs, [1], 1);
  }
}
