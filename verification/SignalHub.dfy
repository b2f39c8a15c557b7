/** The signal functions of object.c as methods on the structs they update. Foreign code
    (signal handlers, and whatever runs while an object is destroyed) is an arbitrary finite
    script of calls; a call whose own contract does not hold when it is reached is skipped. */
module SignalHub {
  import opened Seqs
  import opened SignalLog
  import opened Signals

  const MAX_NARGS := 128
  const E2BIG := 7

  datatype Action =
    | NewObject
    | RetainOwner(o: nat)
    | ReleaseOwner(o: nat, during: Script)             // `during` runs while the object is destroyed
    | Listen(o: nat, n: string)
    | Retain(h: nat)
    | Drop(h: nat, after: Script)                      // `after`: `__del_signal`, and releasing the handler
    | Emit(o: nat, n: string, nargs: nat, calls: seq<Script>) // `calls[i]` is what the i-th handler does

  datatype Script = Script(acts: seq<Action>)

  function ActionSize(a: Action): nat
    decreases a
  {
    match a
    case ReleaseOwner(_, s) => 1 + ScriptSize(s.acts)
    case Drop(_, s) => 1 + ScriptSize(s.acts)
    case Emit(_, _, _, calls) => 1 + CallsSize(calls)
    case _ => 1
  }

  function ScriptSize(s: seq<Action>): nat
    decreases s
  {
    if s == [] then 0 else ActionSize(s[0]) + ScriptSize(s[1..])
  }

  function CallsSize(calls: seq<Script>): nat
    decreases calls
  {
    if calls == [] then 0 else ScriptSize(calls[0].acts) + CallsSize(calls[1..])
  }

  lemma {:induction false} SizeOfAct(s: seq<Action>, i: nat)
    requires i < |s|
    ensures ActionSize(s[i]) <= ScriptSize(s)
  {
    if i > 0 { SizeOfAct(s[1..], i - 1); }
  }

  lemma {:induction false} SizeOfCall(calls: seq<Script>, i: nat)
    requires i < |calls|
    ensures ScriptSize(calls[i].acts) <= CallsSize(calls)
  {
    if i > 0 { SizeOfCall(calls[1..], i - 1); }
  }

  /** A script that emits nothing. */
  predicate Silent(s: seq<Action>)
    decreases s
  {
    forall i | 0 <= i < |s| :: SilentAct(s[i])
  }

  predicate SilentAct(a: Action)
    decreases a
  {
    match a
    case ReleaseOwner(_, s) => Silent(s.acts)
    case Drop(_, s) => Silent(s.acts)
    case Emit(_, _, _, _) => false
    case _ => true
  }

  /** A handle that is alive, with one reference to it. */
  predicate OneRef(handles: seq<Handle>, h: nat) {
    h < |handles| && !handles[h].destroyed && handles[h].refs == 1
  }

  /** The same handles, but for their weak counts. */
  predicate Alike(a: seq<Handle>, b: seq<Handle>) {
    |a| == |b| && forall h | 0 <= h < |a| :: b[h].destroyed == a[h].destroyed && b[h].refs == a[h].refs
  }

  lemma AlikeSelf(a: seq<Handle>)
    ensures Alike(a, a)
  {}

  lemma AlikeAt(a: seq<Handle>, b: seq<Handle>, h: nat)
    requires Alike(a, b) && h < |a|
    ensures |b| == |a| && b[h].destroyed == a[h].destroyed
    ensures forall n :: Alike(a, b[h := b[h].(weak := n)])
  {}

  /** A script that only drops one handle. */
  predicate Drops(script: Script) {
    |script.acts| == 1 && script.acts[0].Drop?
  }

  predicate Gone(handles: seq<Handle>, h: nat) {
    h < |handles| && handles[h].destroyed && handles[h].refs == 0
  }

  class Hub {
    var owners: seq<Owner>
    var signals: seq<Signal>
    var handles: seq<Handle>
    ghost var pins: multiset<nat>
    ghost var log: History

    ghost function W(): World
      reads this
    {
      World(owners, signals, handles, pins, log)
    }

    ghost predicate Valid()
      reads this
    {
      Inv(W()) && Settled(W())
    }

    constructor ()
      ensures Valid() && W() == World([], [], [], multiset{}, [])
    {
      owners, signals, handles, pins, log := [], [], [], multiset{}, [];
    }

    /** The part of `di_listen_to` that makes the signal struct. */
    method CreateSignal(o: nat, n: string) returns (s: nat)
      requires Inv(W()) && o < |owners| && !owners[o].destroyed && n !in owners[o].table
      modifies this
      ensures W() == OpenSignal(old(W()), o, n) && s == old(|signals|) && handles == old(handles) && pins == old(pins)
    {
      hide Inv;
      s := |signals|;
      signals := signals + [Signal(n, o, [], 0, false)];
      var owner := owners[o];
      owners := owners[o := owner.(weak := owner.weak + 1, table := owner.table[n := s])];
      if !Internal(n) {
        log := log + [Opened(o, n)];
      } else {
        assert log + [] == log;
      }
    }

    /** `di_listen_to` */
    method ListenTo(o: nat, n: string) returns (h: nat)
      requires Valid() && o < |owners| && !owners[o].destroyed
      modifies this
      ensures Valid() && Kept(old(W()), W(), NONE)
      ensures h == old(|handles|) && handles[..h] == old(handles) && |handles| == h + 1 && OneRef(handles, h) && pins == old(pins)
      ensures Listening(log, o, n) == [h] + old(Listening(log, o, n))
      ensures o < |owners| && !owners[o].destroyed && n in owners[o].table && handles[h].signal == owners[o].table[n]
    {
      hide Inv, Kept, Settled, Listening, Internal, OpenSignal;
      ghost var w0 := W();
      var s: nat;
      if n in owners[o].table {
        s := owners[o].table[n];
        KeptSame(w0);
        StillSettled(w0, s);
      } else {
        s := CreateSignal(o, n);
        OpenSignalInv(w0, o, n);
        OpenSignalKept(w0, o, n);
        OpenedSignal(w0, o, n);
      }
      ghost var w1 := W();
      SignalAt(w1, o, n);
      h := |handles|;
      handles := handles + [Handle(1, 2, false, s, false)];
      signals := signals[s := signals[s].(listeners := [h] + signals[s].listeners, nlisteners := signals[s].nlisteners + 1)];
      log := log + [Born(h, o, n)];
      AddListenerInv(w1, s);
      AddListenerKept(w1, s);
      KeptTrans(w0, w1, W(), NONE);
      AddListenerHeard(w0, w1, o, n, s);
    }

    /** The part of `di_listen_handle_dtor` that frees the signal struct after its last listener. */
    method FreeSignal(s: nat)
      requires Inv(W()) && s < |signals| && !signals[s].freed && signals[s].listeners == []
      requires signals[s].owner < |owners| && owners[signals[s].owner].weak > 0
      modifies this
      ensures W() == CloseSignal(old(W()), s)
    {
      hide Inv;
      var o, n := signals[s].owner, signals[s].name;
      var owner := owners[o];
      // di_upgrade_weak_ref: the reference it takes is dropped at the end of this block
      if owner.refs > 0 {
        owner := owner.(table := owner.table - {n});
        if !Internal(n) {
          log := log + [Closed(o, n)];
        } else {
          assert log + [] == log;
        }
      } else {
        assert log + [] == log;
      }
      owners := owners[o := owner.(weak := owner.weak - 1)];
      signals := signals[s := signals[s].(freed := true)];
      log := log + [SignalFreed(s)];
    }

    /** `di_listen_handle_dtor`, from the moment that the last reference to the handle is dropped. */
    method HandleDtor(h: nat)
      requires Valid() && h < |handles| && !handles[h].destroyed
      modifies this
      ensures Valid() && Kept(old(W()), W(), NONE.(h := h)) && pins == old(pins)
      ensures h < |handles| && handles[h].destroyed && handles[h].refs == 1 && handles[h].entryFreed
    {
      hide Inv, Kept, Settled, Without, Internal, MayTouch;
      ghost var w0 := W();
      LeaveInv(w0, h);
      LeaveKept(w0, h);
      LeaveSettled(w0, h);
      handles := handles[h := handles[h].(refs := 1, destroyed := true)];
      log := log + [Died(h)];
      var s := handles[h].signal;
      signals := signals[s := signals[s].(nlisteners := signals[s].nlisteners - 1, listeners := Without(signals[s].listeners, h))];
      ghost var w1 := W();
      if signals[s].listeners == [] {
        CloseSignalInv(w1, s);
        CloseSignalKept(w1, s);
        CloseSignalSettled(w1, s, h);
        FreeSignal(s);
        KeptTrans(w0, w1, W(), NONE.(h := h));
      } else {
        ListenersLeft(w1, s, h);
      }
      ghost var w2 := W();
      DyingWeak(w2, h);
      handles := handles[h := handles[h].(weak := handles[h].weak - 1, entryFreed := true)];
      assert log + [] == log;
      TouchInv(w2, h, handles[h], pins);
      TouchKeepsAll(w2, h, handles[h]);
      KeptTrans(w0, w2, W(), NONE.(h := h));
      EntrySettled(w2, h, handles[h]);
    }

    /** `di_decrement_weak_ref_count` for a handle */
    method DecrementWeak(h: nat)
      requires h < |handles| && handles[h].weak > 0
      modifies this`handles, this`log
      ensures handles == old(handles)[h := old(handles)[h].(weak := old(handles)[h].weak - 1)]
      ensures log == old(log) + if old(handles)[h].weak == 1 then [HandleFreed(h)] else []
    {
      handles := handles[h := handles[h].(weak := handles[h].weak - 1)];
      log := log + if handles[h].weak == 0 then [HandleFreed(h)] else [];
    }

    method NewObject() returns (o: nat)
      requires Valid()
      modifies this
      ensures Valid() && Kept(old(W()), W(), NONE) && o == old(|owners|) && |owners| == o + 1 && !owners[o].destroyed
      ensures handles == old(handles) && log == old(log) && pins == old(pins)
    {
      hide Inv, Kept, Settled;
      NewOwnerInv(W());
      NewOwnerKept(W());
      SettledSame(W(), NewOwner(W()));
      o := |owners|;
      owners := owners + [Owner(1, 1, false, map[])];
    }

    /** Taking or giving back a reference that is not the last one. */
    method SetOwnerRefs(o: nat, refs: nat)
      requires Valid() && o < |owners| && !owners[o].destroyed && refs > 0
      modifies this`owners
      ensures Valid() && Kept(old(W()), W(), NONE) && owners == old(owners)[o := old(owners)[o].(refs := refs)]
    {
      hide Kept, Settled, Inv;
      ghost var w0, x := W(), owners[o].(refs := refs);
      OwnerAlive(w0, o);
      TouchOwnerInv(w0, o, x);
      TouchOwnerKeeps(w0, o, x);
      SettledSame(w0, TouchOwner(w0, o, x));
      owners := owners[o := owners[o].(refs := refs)];
    }

    method SetHandleRefs(h: nat, refs: nat)
      requires Valid() && h < |handles| && !handles[h].destroyed && refs > 0
      modifies this`handles
      ensures Valid() && Kept(old(W()), W(), NONE) && handles == old(handles)[h := old(handles)[h].(refs := refs)]
    {
      hide Kept, Settled, Inv, MayTouch;
      ghost var w0, x := W(), handles[h].(refs := refs);
      LiveMayTouch(w0, h, refs);
      assert log + [] == log;
      TouchInv(w0, h, x, pins);
      TouchKeepsAll(w0, h, x);
      TouchSettled(w0, h, x, pins);
      handles := handles[h := handles[h].(refs := refs)];
    }

    /** `di_unref_object` on an object that has signals */
    method Release(o: nat, during: Script)
      requires Valid() && o < |owners| && !owners[o].destroyed
      modifies this
      ensures Valid() && Kept(old(W()), W(), NONE)
      ensures old(owners[o].refs) == 1 ==> OwnerGone(o) in log
      ensures Silent(during.acts) ==> pins == old(pins)
      decreases 1 + ScriptSize(during.acts), 2
    {
      hide Kept, Settled, Inv;
      ghost var w0 := W();
      OwnerAlive(w0, o);
      var refs := owners[o].refs - 1;
      if refs > 0 {
        SetOwnerRefs(o, refs);
      } else {
        // di_destroy_object: the destroyer's guard is the only strong reference
        owners := owners[o := owners[o].(refs := 1, destroyed := true)];
        ghost var w1 := W();
        TouchOwnerInv(w0, o, owners[o]);
        TouchOwnerKeeps(w0, o, owners[o]);
        SettledSame(w0, w1);
        Run(during);
        ghost var w2 := W();
        KeptTrans(w0, w1, w2, NONE.(o := o));
        FinishOwnerInv(w2, o);
        OwnerFinished(w0, w2, o);
        owners := owners[o := owners[o].(refs := 0, weak := owners[o].weak - 1, table := map[])];
        log := log + [OwnerGone(o)];
        SettledSame(w2, W());
        assert log[|log|-1] == OwnerGone(o);
      }
    }

    /** `di_unref_object` on a listen handle */
    method DropHandle(h: nat, after: Script)
      requires Valid() && h < |handles| && !handles[h].destroyed
      modifies this
      ensures Valid() && Kept(old(W()), W(), NONE)
      ensures old(OneRef(handles, h)) ==> Gone(handles, h)
      ensures Silent(after.acts) ==> pins == old(pins)
      decreases 1 + ScriptSize(after.acts), 2
    {
      hide Kept, Settled, Inv, MayTouch;
      ghost var w0 := W();
      HandleAlive(w0, h);
      var refs := handles[h].refs - 1;
      if refs > 0 {
        SetHandleRefs(h, refs);
      } else {
        HandleDtor(h);
        ghost var w1 := W();
        Run(after);
        ghost var w2 := W();
        KeptTrans(w0, w1, w2, NONE.(h := h));
        DyingMayTouch(w2, h);
        ghost var x := handles[h].(refs := 0, weak := handles[h].weak - 1);
        TouchInv(w2, h, x, pins);
        HandleGone(w0, w2, h, x);
        TouchSettled(w2, h, x, pins);
        handles := handles[h := handles[h].(refs := 0)];
        DecrementWeak(h);
        assert handles == w2.handles[h := x];
      }
    }

    method Run(script: Script)
      requires Valid()
      modifies this
      ensures Valid() && Kept(old(W()), W(), NONE)
      ensures Silent(script.acts) ==> pins == old(pins)
      ensures Drops(script) && old(OneRef(handles, script.acts[0].h)) ==> Gone(handles, script.acts[0].h)
      decreases ScriptSize(script.acts), 4
    {
      hide Kept, Settled, Inv;
      ghost var w0 := W();
      KeptSame(w0);
      for i := 0 to |script.acts|
        invariant Valid() && Kept(w0, W(), NONE) && (i == 0 ==> W() == w0)
        invariant Silent(script.acts) ==> pins == w0.pins
        invariant i == 1 && Drops(script) && OneRef(w0.handles, script.acts[0].h) ==> Gone(handles, script.acts[0].h)
      {
        ghost var w1 := W();
        SizeOfAct(script.acts, i);
        Perform(script.acts[i]);
        KeptTrans(w0, w1, W(), NONE);
      }
    }

    /** One call by foreign code, made only if it respects the contract of the call. */
    method Perform(a: Action)
      requires Valid()
      modifies this
      ensures Valid() && Kept(old(W()), W(), NONE)
      ensures SilentAct(a) ==> pins == old(pins)
      ensures a.Drop? && old(OneRef(handles, a.h)) ==> Gone(handles, a.h)
      decreases ActionSize(a), 3
    {
      hide Kept, Settled, Inv;
      KeptSame(W());
      match a
      case NewObject =>
        var _ := NewObject();
      case RetainOwner(o) =>
        if o < |owners| && !owners[o].destroyed { SetOwnerRefs(o, owners[o].refs + 1); }
      case ReleaseOwner(o, during) =>
        if o < |owners| && !owners[o].destroyed { Release(o, during); }
      case Listen(o, n) =>
        if o < |owners| && !owners[o].destroyed { var _ := ListenTo(o, n); }
      case Retain(h) =>
        if h < |handles| && !handles[h].destroyed { SetHandleRefs(h, handles[h].refs + 1); }
      case Drop(h, after) =>
        if h < |handles| && !handles[h].destroyed { DropHandle(h, after); }
      case Emit(o, n, nargs, calls) =>
        if o < |owners| && owners[o].refs > 0 { var _ := EmitN(o, n, nargs, calls); }
    }

    /** `di_emitn` */
    method EmitN(o: nat, n: string, nargs: nat, calls: seq<Script>) returns (rc: int)
      requires Valid() && o < |owners| && owners[o].refs > 0
      modifies this
      ensures Valid() && Kept(old(W()), W(), NONE)
      ensures nargs > MAX_NARGS ==> rc == -E2BIG && W() == old(W())
      ensures nargs <= MAX_NARGS ==>
        && rc == 0 && Snaps(log) > old(Snaps(log)) && SnapOf(log, old(Snaps(log))) == old(Listening(log, o, n))
        && Turns(log, old(Snaps(log))) == |old(Listening(log, o, n))|
      decreases 1 + CallsSize(calls), 2
    {
      if nargs > MAX_NARGS {
        KeptSame(W());
        return -E2BIG;
      }
      hide Kept, Settled, Inv;
      ghost var w0 := W();
      var all := Snapshot(o, n);
      ghost var w1, e := W(), old(Snaps(log));
      rc := 0;
      for i := 0 to |all|
        invariant Turning(w0, W(), all, i, e)
      {
        var script := if i < |calls| then calls[i] else Script([]);
        if i < |calls| { SizeOfCall(calls, i); }
        TakeTurn(all, i, script, w0, e);
      }
      EmissionDone(w0, W(), all, e);
    }

    /** The first part of `di_emitn`: copying the weak references to the listen handles. */
    method Snapshot(o: nat, n: string) returns (all: seq<nat>)
      requires Valid() && o < |owners| && owners[o].refs > 0
      modifies this
      ensures all == old(Listening(log, o, n)) && Turning(old(W()), W(), all, 0, old(Snaps(log)))
      ensures pins == old(pins) + multiset(all) && |handles| == old(|handles|)
      ensures forall h | 0 <= h < |handles| && old(OneRef(handles, h)) :: OneRef(handles, h)
    {
      hide Kept, Settled, Inv, Listening, Snaps, SnapOf, Turns;
      ghost var w0 := W();
      KeptSame(w0);
      all := [];
      if n in owners[o].table {
        SignalAt(w0, o, n);
        var s := owners[o].table[n];
        var l := signals[s].listeners;
        ListenersLive(w0, s);
        all := CopyHandles(l);
        assert |all| == signals[s].nlisteners;
      } else {
        NobodyListens(w0, o, n);
      }
      ghost var w1 := W();
      SnapshotFits(w0, w1, o, n);
      NoteInv(w1, Snapped(Snaps(log), o, n, all));
      SnappedKept(w0, w1, o, n, multiset(all));
      log := log + [Snapped(Snaps(log), o, n, all)];
      SettledSame(w1, W());
      TurningStarts(w0, W(), all, Snaps(w0.log));
    }

    /** The loop that copies the weak references of the listener list. */
    method CopyHandles(l: seq<nat>) returns (all: seq<nat>)
      requires Valid() && forall i | 0 <= i < |l| :: l[i] < |handles| && !handles[l[i]].destroyed
      modifies this`handles, this`pins
      ensures Valid() && all == l && Kept(old(W()), W(), NONE.(held := multiset(l)))
      ensures pins == old(pins) + multiset(l) && Alike(old(handles), handles)
    {
      hide Kept, Settled, Inv, Alike;
      ghost var w0 := W();
      KeptSame(w0);
      AlikeSelf(w0.handles);
      all := [];
      for i := 0 to |l|
        invariant all == l[..i] && Alike(w0.handles, handles) && pins == w0.pins + multiset(l[..i])
        invariant Inv(W()) && Settled(W()) && Kept(w0, W(), NONE.(held := multiset(l[..i])))
      {
        ghost var wi := W();
        AlikeAt(w0.handles, handles, l[i]);
        PinInv(wi, l[i]);
        PinKept(w0, wi, l[i], NONE.(held := multiset(l[..i])));
        TouchSettled(wi, l[i], handles[l[i]].(weak := handles[l[i]].weak + 1), pins + multiset{l[i]});
        assert l[..i+1] == l[..i] + [l[i]];
        handles := handles[l[i] := handles[l[i]].(weak := handles[l[i]].weak + 1)];
        pins := pins + multiset{l[i]};
        all := all + [l[i]];
        assert W() == Pin(wi, l[i]);
      }
      assert l[..|l|] == l;
    }

    /** `di_drop_weak_ref` on a weak reference that an emission holds */
    method PutBack(h: nat)
      requires h < |handles| && handles[h].weak > 0
      modifies this`handles, this`log, this`pins
      ensures W() == Unpin(old(W()), h) && pins == old(pins) - multiset{h}
      ensures handles == old(handles)[h := old(handles)[h].(weak := old(handles)[h].weak - 1)]
    {
      pins := pins - multiset{h};
      DecrementWeak(h);
    }

    /** A turn whose handle is alive: its handler is called. */
    method CallHandler(all: seq<nat>, i: nat, script: Script, ghost w0: World, ghost e: nat)
      requires i < |all| && Turning(w0, W(), all, i, e) && all[i] < |handles| && handles[all[i]].refs > 0
      modifies this
      ensures Turning(w0, W(), all, i + 1, e)
      ensures old(log) + [Called(e, all[i])] <= log
      ensures Silent(script.acts) ==> pins == old(pins) - multiset{all[i]}
      ensures Drops(script) && old(OneRef(handles, script.acts[0].h)) ==> Gone(handles, script.acts[0].h)
      decreases ScriptSize(script.acts), 5
    {
      hide Kept, Settled, Inv, Snaps, SnapOf, Turns, Fits, Emitting, Skips, Unpin, MayTouch;
      ghost var w1 := W();
      TurnFacts(w0, w1, all, i, e);
      handles := handles[all[i] := handles[all[i]].(refs := handles[all[i]].refs + 1)];
      // the handler is read from the handle, which cannot fail: the handle is not being destroyed
      handles := handles[all[i] := handles[all[i]].(refs := handles[all[i]].refs - 1)];
      log := log + [Called(e, all[i])];
      ghost var w2 := W();
      assert handles == w1.handles;
      CalledKeeps(w0, w1, all, i, e);
      Run(script);
      ghost var w3 := W();
      RunKeeps(w0, w2, w3, all, i, e);
      PutBackKeeps(w0, w3, all, i, e);
      PutBack(all[i]);
    }

    /** One round of the loop of `di_emitn`. */
    method TakeTurn(all: seq<nat>, i: nat, script: Script, ghost w0: World, ghost e: nat)
      requires i < |all| && Turning(w0, W(), all, i, e)
      modifies this
      ensures Turning(w0, W(), all, i + 1, e) && all[i] < |old(handles)|
      ensures old(log) + [if old(handles)[all[i]].refs > 0 then Called(e, all[i]) else Skipped(e, all[i])] <= log
      ensures old(handles)[all[i]].refs > 0 ==>
        && (Silent(script.acts) ==> pins == old(pins) - multiset{all[i]})
        && (Drops(script) && old(OneRef(handles, script.acts[0].h)) ==> Gone(handles, script.acts[0].h))
      ensures old(handles)[all[i]].refs == 0 ==> pins == old(pins) && handles == old(handles)
      decreases ScriptSize(script.acts), 6
    {
      hide Kept, Settled, Inv, Snaps, SnapOf, Turns, Fits, Emitting, Skips;
      TurnFacts(w0, W(), all, i, e);
      // di_upgrade_weak_ref
      if handles[all[i]].refs == 0 {
        SkippedKeeps(w0, W(), all, i, e);
        log := log + [Skipped(e, all[i])];
      } else {
        CallHandler(all, i, script, w0, e);
      }
    }
  }

  /** The emission `e`, begun in the state `a`, has made `t` turns and holds the handles from `i` on. */
  ghost predicate Emitting(a: World, w: World, all: seq<nat>, i: nat, t: nat, e: nat) {
    && Inv(a) && Inv(w) && Settled(w) && i <= |all|
    && Kept(a, w, NONE.(held := multiset(all[i..]), e := e))
    && Snaps(a.log) == e < Snaps(w.log) && SnapOf(w.log, e) == all && Turns(w.log, e) == t
    && (forall k | 0 <= k < |all| :: all[k] < |a.handles| && !a.handles[all[k]].destroyed)
  }

  ghost predicate Turning(a: World, w: World, all: seq<nat>, i: nat, e: nat) {
    Emitting(a, w, all, i, i, e)
  }

  lemma SkippedKeeps(a: World, w: World, all: seq<nat>, i: nat, e: nat)
    requires i < |all| && Turning(a, w, all, i, e) && all[i] < |w.handles| && w.handles[all[i]].refs == 0
    ensures Turning(a, w.(log := w.log + [Skipped(e, all[i])]), all, i + 1, e)
  {
    hide Kept, Inv, Snaps, SnapOf, Turns, Fits, Skips, Settled;
    var ev := Skipped(e, all[i]);
    TurnFacts(a, w, all, i, e);
    HeldNext(all, i);
    NoteInv(w, ev);
    SettledSame(w, w.(log := w.log + [ev]));
    TurnKept(a, w, NONE.(held := multiset(all[i..]), e := e), ev);
  }

  lemma HeldNext(all: seq<nat>, i: nat)
    requires i < |all|
    ensures all[i] in multiset(all[i..]) && multiset(all[i..]) - multiset{all[i]} == multiset(all[i+1..])
  {
    assert all[i..] == [all[i]] + all[i+1..];
  }

  lemma CalledKeeps(a: World, w: World, all: seq<nat>, i: nat, e: nat)
    requires i < |all| && Turning(a, w, all, i, e) && all[i] < |w.handles| && w.handles[all[i]].refs > 0
    ensures var w' := w.(log := w.log + [Called(e, all[i])]); Emitting(a, w', all, i, i + 1, e) && Inv(w') && Settled(w')
  {
    hide Kept, Inv, Snaps, SnapOf, Turns, Fits, Skips, Settled;
    var ev := Called(e, all[i]);
    TurnFacts(a, w, all, i, e);
    NoteInv(w, ev);
    SettledSame(w, w.(log := w.log + [ev]));
    TurnKept(a, w, NONE.(held := multiset(all[i..]), e := e), ev);
  }

  lemma RunKeeps(a: World, b: World, c: World, all: seq<nat>, i: nat, e: nat)
    requires i < |all| && Emitting(a, b, all, i, i + 1, e) && Kept(b, c, NONE) && Inv(c) && Settled(c)
    ensures Emitting(a, c, all, i, i + 1, e) && b.log <= c.log
  {
    KeptLog(b, c);
    KeptTrans(a, b, c, NONE.(held := multiset(all[i..]), e := e));
    hide Kept, Inv, Snaps, SnapOf, Turns;
  }

  lemma PutBackKeeps(a: World, w: World, all: seq<nat>, i: nat, e: nat)
    requires i < |all| && Emitting(a, w, all, i, i + 1, e)
    ensures all[i] < |w.handles| && w.handles[all[i]].weak > 0
    ensures Turning(a, Unpin(w, all[i]), all, i + 1, e) && w.log <= Unpin(w, all[i]).log
  {
    hide Kept, Inv, Snaps, SnapOf, Turns, Skips, Settled;
    var h, d := all[i], NONE.(held := multiset(all[i..]), e := e);
    HeldNext(all, i);
    StillPinned(a, w, h, d);
    PinnedExists(w, h);
    UnpinInv(w, h);
    UnpinKept(a, w, h, d);
    UnpinTurns(w, h, e);
    TouchSettled(w, h, w.handles[h].(weak := w.handles[h].weak - 1), w.pins - multiset{h});
  }

  lemma PinnedExists(w: World, h: nat)
    requires Inv(w) && h in w.pins
    ensures h < |w.handles|
  {}

  lemma TurningStarts(a: World, w: World, all: seq<nat>, e: nat)
    requires Inv(a) && Inv(w) && Settled(w)
    requires Kept(a, w, NONE.(held := multiset(all), e := e))
    requires Snaps(a.log) == e < Snaps(w.log) && SnapOf(w.log, e) == all && Turns(w.log, e) == Turns(a.log, e)
    requires forall k | 0 <= k < |all| :: all[k] < |a.handles| && !a.handles[all[k]].destroyed
    ensures Turning(a, w, all, 0, e)
  {
    assert all[0..] == all;
    TurnsInOrder(a.log, e);
  }

  lemma EmissionDone(a: World, w: World, all: seq<nat>, e: nat)
    requires Turning(a, w, all, |all|, e)
    ensures Kept(a, w, NONE) && Inv(w) && Settled(w)
    ensures Snaps(w.log) > e && SnapOf(w.log, e) == all && Turns(w.log, e) == |all|
  {
    assert all[|all|..] == [];
    EmissionOver(a, w, e);
  }

  lemma ListenersLive(w: World, s: nat)
    requires Inv(w) && s < |w.signals| && !w.signals[s].freed
    ensures forall i | 0 <= i < |w.signals[s].listeners| ::
      w.signals[s].listeners[i] < |w.handles| && !w.handles[w.signals[s].listeners[i]].destroyed
  {
    assert SignalOk(s, w.signals[s], w.handles);
  }

  lemma NobodyListens(w: World, o: nat, n: string)
    requires Inv(w) && o < |w.owners| && w.owners[o].refs > 0 && n !in w.owners[o].table
    ensures Listening(w.log, o, n) == []
  {
    if Listening(w.log, o, n) != [] { HeardIsTabled(w, o, n); }
  }

  lemma SnapshotFits(a: World, w: World, o: nat, n: string)
    requires Inv(a) && o < |a.owners| && a.owners[o].refs > 0 && w.log == a.log
    ensures Fits(w.log, Snapped(Snaps(w.log), o, n, Listening(w.log, o, n)))
  {}

  /** The facts on which a turn relies: the memory behind the weak reference is there, and a
      handle that can be upgraded is not in the middle of its destruction. */
  lemma TurnFacts(a: World, w: World, all: seq<nat>, i: nat, e: nat)
    requires i < |all| && Turning(a, w, all, i, e)
    ensures var h := all[i];
      && h < |w.handles| && w.handles[h].weak > 0 && w.pins[h] > Skips(w.log, h)
      && (w.handles[h].refs == 0 <==> w.handles[h].destroyed)
      && Fits(w.log, if w.handles[h].refs == 0 then Skipped(e, h) else Called(e, h))
  {
    var h := all[i];
    assert all[i..][0] == h;
    assert HandleCounted(h, w.handles[h], w.pins) && HandleOk(h, w.handles[h], w.signals);
    StillPinned(a, w, h, NONE.(held := multiset(all[i..]), e := e));
  }

  lemma StillPinned(a: World, w: World, h: nat, d: Debt)
    requires Inv(a) && Kept(a, w, d) && h in d.held
    ensures w.pins[h] > Skips(w.log, h)
  {
    PinsCover(a, h);
  }

  lemma KeptLog(a: World, b: World)
    requires Kept(a, b, NONE)
    ensures a.log <= b.log
  {}

  lemma SettledSame(a: World, b: World)
    requires Settled(a) && b.signals == a.signals && b.handles == a.handles
    ensures Settled(b)
  {}

  lemma OwnerAlive(w: World, o: nat)
    requires Inv(w) && o < |w.owners| && !w.owners[o].destroyed
    ensures w.owners[o].refs > 0
  {
    assert OwnerTabled(o, w.owners[o], w.signals);
  }

  lemma HandleAlive(w: World, h: nat)
    requires Inv(w) && h < |w.handles| && !w.handles[h].destroyed
    ensures w.handles[h].refs > 0
  {
    assert HandleOk(h, w.handles[h], w.signals);
  }

  lemma LiveMayTouch(w: World, h: nat, refs: nat)
    requires Inv(w) && h < |w.handles| && !w.handles[h].destroyed && refs > 0
    ensures MayTouch(w, h, w.handles[h].(refs := refs), w.pins) && w.handles[h].weak > 0
  {
    assert HandleOk(h, w.handles[h], w.signals) && HandleCounted(h, w.handles[h], w.pins);
    PinsCover(w, h);
  }

  lemma DyingMayTouch(w: World, h: nat)
    requires Inv(w) && Settled(w) && h < |w.handles| && w.handles[h].destroyed && w.handles[h].refs == 1
    ensures w.handles[h].weak > 0
    ensures MayTouch(w, h, w.handles[h].(refs := 0, weak := w.handles[h].weak - 1), w.pins)
  {
    assert HandleCounted(h, w.handles[h], w.pins);
    PinsCover(w, h);
  }

  lemma TouchSettled(w: World, h: nat, x: Handle, pins: multiset<nat>)
    requires Settled(w) && h < |w.handles| && x.destroyed == w.handles[h].destroyed && x.entryFreed == w.handles[h].entryFreed
    ensures Settled(Touch(w, h, x, pins))
  {}

  /** Nothing is unsettled but the entry of `h` and, if it is empty, the list of `s`. */
  ghost predicate Leaving(w: World, h: nat, s: nat) {
    && h < |w.handles| && w.handles[h].destroyed && w.handles[h].refs == 1 && !w.handles[h].entryFreed
    && (forall t | 0 <= t < |w.signals| && t != s && !w.signals[t].freed :: w.signals[t].listeners != [])
    && (forall g | 0 <= g < |w.handles| && g != h && w.handles[g].destroyed :: w.handles[g].entryFreed)
  }

  lemma LeaveSettled(w: World, h: nat)
    requires Inv(w) && Settled(w) && h < |w.handles| && !w.handles[h].destroyed
    requires w.handles[h].signal < |w.signals| && w.signals[w.handles[h].signal].nlisteners > 0
    ensures Leaving(Leave(w, h), h, w.handles[h].signal) && !w.signals[w.handles[h].signal].freed
  {
    assert HandleOk(h, w.handles[h], w.signals);
  }

  lemma CloseSignalSettled(w: World, s: nat, h: nat)
    requires Leaving(w, h, s) && s < |w.signals| && w.signals[s].owner < |w.owners| && w.owners[w.signals[s].owner].weak > 0
    ensures Leaving(CloseSignal(w, s), h, |w.signals|)
  {}

  lemma ListenersLeft(w: World, s: nat, h: nat)
    requires Leaving(w, h, s) && s < |w.signals| && w.signals[s].listeners != []
    ensures Leaving(w, h, |w.signals|)
  {}

  lemma DyingWeak(w: World, h: nat)
    requires Inv(w) && h < |w.handles| && w.handles[h].destroyed && w.handles[h].refs == 1 && !w.handles[h].entryFreed
    ensures w.handles[h].weak >= 2
    ensures MayTouch(w, h, w.handles[h].(weak := w.handles[h].weak - 1, entryFreed := true), w.pins)
  {
    assert HandleCounted(h, w.handles[h], w.pins);
    PinsCover(w, h);
  }

  lemma EntrySettled(w: World, h: nat, x: Handle)
    requires Leaving(w, h, |w.signals|) && x.entryFreed
    ensures Settled(w.(handles := w.handles[h := x]))
  {}

  /** Creating the struct of a signal changes nobody's listeners. */
  lemma OpenedSignal(w: World, o: nat, n: string)
    requires o < |w.owners| && n !in w.owners[o].table
    ensures var w' := OpenSignal(w, o, n);
      && |w'.owners| == |w.owners| && w'.handles == w.handles && n in w'.owners[o].table && w'.owners[o].table[n] == |w.signals|
      && w'.owners[o].destroyed == w.owners[o].destroyed
      && (forall m :: Listening(w'.log, o, m) == Listening(w.log, o, m))
      && (Settled(w) ==> SettledBut(w', |w.signals|))
  {
    Append(w.log, Opened(o, n));
    hide Listening;
    assert w.log + [] == w.log;
  }

  ghost predicate SettledBut(w: World, s: nat) {
    && (forall t | 0 <= t < |w.signals| && t != s && !w.signals[t].freed :: w.signals[t].listeners != [])
    && (forall h | 0 <= h < |w.handles| && w.handles[h].destroyed :: w.handles[h].entryFreed)
  }

  lemma StillSettled(w: World, s: nat)
    requires Settled(w)
    ensures SettledBut(w, s)
  {}

  lemma SignalAt(w: World, o: nat, n: string)
    requires Inv(w) && o < |w.owners| && n in w.owners[o].table
    ensures var s := w.owners[o].table[n];
      s < |w.signals| && !w.signals[s].freed && w.signals[s].owner == o && w.signals[s].name == n
      && w.signals[s].listeners == Listening(w.log, o, n) && w.signals[s].nlisteners == |w.signals[s].listeners|
  {
    assert OwnerTabled(o, w.owners[o], w.signals);
    var s := w.owners[o].table[n];
    assert SignalOk(s, w.signals[s], w.handles);
  }

  lemma AddListenerHeard(w0: World, w: World, o: nat, n: string, s: nat)
    requires s < |w.signals| && w.signals[s].owner == o && w.signals[s].name == n
    requires Listening(w.log, o, n) == Listening(w0.log, o, n) && SettledBut(w, s)
    ensures Listening(AddListener(w, s).log, o, n) == [|w.handles|] + Listening(w0.log, o, n)
    ensures Settled(AddListener(w, s))
  {
    Append(w.log, Born(|w.handles|, o, n));
    hide Listening;
  }

  // ---------------------------------------------------------------- what every run keeps

  /** A state between runs: nothing is in progress. */
  ghost predicate AtRest(w: World) {
    && Inv(w) && Settled(w)
    && (forall h: nat :: w.pins[h] == Skips(w.log, h))
    && (forall e: nat | e < Snaps(w.log) :: Turns(w.log, e) == |SnapOf(w.log, e)|)
    && (forall h | 0 <= h < |w.handles| && w.handles[h].destroyed :: w.handles[h].refs == 0)
    && (forall o | 0 <= o < |w.owners| && w.owners[o].destroyed :: w.owners[o].refs == 0)
  }

  /** Every run of calls leaves nothing in progress: all emissions it began are finished, all
      destructions are complete, and every weak reference is given back but those to handles
      that an emission found dead. */
  lemma RunsLeaveRest(a: World, b: World)
    requires AtRest(a) && Kept(a, b, NONE) && Inv(b) && Settled(b)
    ensures AtRest(b)
  {
    hide Inv, Settled, Skips, Snaps, Turns, SnapOf;
  }

  method AnyRun(script: Script) returns (hub: Hub)
    ensures fresh(hub) && hub.Valid() && AtRest(hub.W())
  {
    hub := new Hub();
    ghost var a := hub.W();
    assert AtRest(a);
    hide Inv, Settled, AtRest, Kept;
    hub.Run(script);
    RunsLeaveRest(a, hub.W());
  }

  /** The memory of a handle is given back exactly if the handle is dead and no emission has
      found it dead: `di_emitn` keeps its weak reference to a handle that it skips. */
  lemma FreedUnlessSkipped(w: World, h: nat)
    requires AtRest(w) && h < |w.handles|
    ensures HandleFreed(h) in w.log <==> Died(h) in w.log && Skips(w.log, h) == 0
  {
    assert HandleCounted(h, w.handles[h], w.pins) && HandleOk(h, w.handles[h], w.signals);
    hide Skips;
  }

  method TwoListeners(n: string) returns (hub: Hub, o: nat, g: nat, h: nat)
    ensures fresh(hub) && hub.Valid() && AtRest(hub.W()) && hub.pins == multiset{}
    ensures o < |hub.owners| && hub.owners[o].refs > 0 && !hub.owners[o].destroyed && Listening(hub.log, o, n) == [g, h]
    ensures g != h && OneRef(hub.handles, g) && OneRef(hub.handles, h)
  {
    hide Inv, Settled, AtRest, Kept, Listening;
    hub := new Hub();
    ghost var w0 := hub.W();
    Empty(w0);
    o := hub.NewObject();
    ghost var w1 := hub.W();
    h := hub.ListenTo(o, n);
    ghost var w2 := hub.W();
    KeptTrans(w0, w1, w2, NONE);
    g := hub.ListenTo(o, n);
    ghost var w3 := hub.W();
    KeptTrans(w0, w2, w3, NONE);
    assert hub.handles[h] == w2.handles[h];
    OwnerAlive(w3, o);
    RunsLeaveRest(w0, w3);
  }

  /** The lost memory is real. Two handles listen to a signal; the handler of the newer one drops the other.
      These are the steps of `di_emitn`: the other handle is skipped, and its memory is never given back. */
  method SkippedHandle() returns (hub: Hub, h: nat)
    ensures fresh(hub) && hub.Valid() && AtRest(hub.W()) && h < |hub.handles|
    ensures Died(h) in hub.log && Skips(hub.log, h) == 1 && HandleFreed(h) !in hub.log
    ensures Gone(hub.handles, h) && hub.handles[h].weak == 1
  {
    hide Inv, Settled, AtRest, Kept, Listening, Emitting, Snaps, SnapOf, Turns, Skips;
    var o, g;
    hub, o, g, h := TwoListeners("changed");
    ghost var w0, e := hub.W(), Snaps(hub.log);
    var drop := Script([Drop(h, Script([]))]);
    DropIsSilent(h);
    var all := hub.Snapshot(o, "changed");
    hub.TakeTurn(all, 0, drop, w0, e);
    assert hub.pins == multiset{h};
    hub.TakeTurn(all, 1, Script([]), w0, e);
    ghost var w := hub.W();
    EmissionDone(w0, w, all, e);
    RunsLeaveRest(w0, w);
    SkippedOnce(w, h);
  }

  lemma DropIsSilent(h: nat)
    ensures Silent([Drop(h, Script([]))])
  {
    assert Silent([]);
    assert SilentAct(Drop(h, Script([])));
  }

  lemma Empty(w: World)
    requires w == World([], [], [], multiset{}, [])
    ensures AtRest(w) && forall o, n :: Listening(w.log, o, n) == []
  {}

  lemma SkippedOnce(w: World, h: nat)
    requires AtRest(w) && h < |w.handles| && Gone(w.handles, h) && w.pins[h] == 1
    ensures Died(h) in w.log && Skips(w.log, h) == 1 && HandleFreed(h) !in w.log && w.handles[h].weak == 1
  {
    FreedUnlessSkipped(w, h);
    assert HandleCounted(h, w.handles[h], w.pins);
    hide Skips;
  }

  /** The table of an object that is not gone holds exactly the signals that something listens to. */
  lemma TableIsListeners(w: World, o: nat, n: string)
    requires Inv(w) && Settled(w) && o < |w.owners| && w.owners[o].refs > 0
    ensures n in w.owners[o].table <==> Listening(w.log, o, n) != []
    ensures HookOpen(w.log, o, n) <==> Listening(w.log, o, n) != [] && !Internal(n)
  {
    if Listening(w.log, o, n) != [] { HeardIsTabled(w, o, n); }
    if n in w.owners[o].table { SignalAt(w, o, n); }
    hide Listening, HookOpen, Internal;
  }

  /** A signal struct is freed, whether or not its owner is gone, exactly when no live handle belongs to it. */
  lemma FreedWithLastListener(w: World, s: nat)
    requires Inv(w) && Settled(w) && s < |w.signals|
    ensures SignalFreed(s) in w.log <==> forall h | 0 <= h < |w.handles| && w.handles[h].signal == s :: Died(h) in w.log
  {
    assert SignalOk(s, w.signals[s], w.handles);
    if !w.signals[s].freed {
      var h := w.signals[s].listeners[0];
      assert !w.handles[h].destroyed && w.handles[h].signal == s;
    }
    forall h | 0 <= h < |w.handles| && w.handles[h].signal == s && w.signals[s].freed ensures w.handles[h].destroyed {
      assert HandleOk(h, w.handles[h], w.signals);
    }
  }

  // ---------------------------------------------------------------- where the code goes wrong

  /** The end of `di_destroy_object` if `extra` strong references to the object have been taken meanwhile and
      are still there: the signals are detached, and the object is not gone. */
  ghost function FinishSurvivor(w: World, o: nat, extra: nat): World
    requires o < |w.owners| && w.owners[o].weak > 0
  {
    if extra == 0 then FinishOwner(w, o) else w.(owners := w.owners[o := w.owners[o].(refs := extra, table := map[])])
  }

  /** Every signal struct is in the table of its owner, unless that is gone: what `di_listen_handle_dtor` relies
      on when it takes the struct of a signal without listeners out of that table. */
  ghost predicate AllDeletable(w: World) {
    forall s | 0 <= s < |w.signals| :: SignalTabled(s, w.signals[s], w.owners)
  }

  /** After a destruction that an owner survives this holds if and only if nothing listened to the owner. */
  lemma SurvivorIff(w: World, o: nat, extra: nat)
    requires Inv(w) && Settled(w) && o < |w.owners| && w.owners[o].refs == 1 && w.owners[o].destroyed && w.owners[o].weak > 0
    ensures AllDeletable(FinishSurvivor(w, o, extra)) <==> extra == 0 || forall n :: Listening(w.log, o, n) == []
  {
    var w' := FinishSurvivor(w, o, extra);
    FinishOwnerInv(w, o);
    forall n ensures n in w.owners[o].table <==> Listening(w.log, o, n) != [] { TableIsListeners(w, o, n); }
    hide Listening, Linked, Counted, Recorded, Listed, Hooked;
    if extra > 0 {
      if n :| n in w.owners[o].table {
        SignalAt(w, o, n);
        assert !SignalTabled(w.owners[o].table[n], w'.signals[w.owners[o].table[n]], w'.owners);
      } else {
        forall s | 0 <= s < |w.signals| ensures SignalTabled(s, w.signals[s], w'.owners) {
          assert SignalTabled(s, w.signals[s], w.owners);
        }
      }
    }
  }

  /** It can happen: something listens to an object that is being destroyed, and its destructor keeps a
      reference to it. */
  method SurvivorDetached() returns (hub: Hub, o: nat)
    ensures fresh(hub) && hub.Valid() && o < |hub.owners| && hub.owners[o].destroyed && hub.owners[o].weak > 0
    ensures !AllDeletable(FinishSurvivor(hub.W(), o, 1))
  {
    hide Inv, Settled, AtRest, Kept, Listening, AllDeletable, FinishSurvivor;
    var g, h;
    hub, o, g, h := TwoListeners("changed");
    ghost var w0 := hub.W();
    // di_destroy_object: the destroyer's guard is the only strong reference
    hub.owners := hub.owners[o := hub.owners[o].(refs := 1, destroyed := true)];
    TouchOwnerInv(w0, o, hub.owners[o]);
    SettledSame(w0, hub.W());
    DestroyedCounted(hub.W(), o);
    SurvivorIff(hub.W(), o, 1);
  }

  lemma DestroyedCounted(w: World, o: nat)
    requires Inv(w) && o < |w.owners| && w.owners[o].refs > 0
    ensures w.owners[o].weak > 0
  {
    assert OwnerCounted(o, w.owners[o], w.signals);
  }

  /** The hook that announces a new signal is called before there is a listener. If it listens to the signal
      itself and drops the handle again, the struct is freed, and `di_listen_to` goes on to use it. */
  lemma HookFreesSignal(w: World, o: nat, n: string)
    requires Inv(w) && o < |w.owners| && w.owners[o].refs > 0 && !w.owners[o].destroyed && n !in w.owners[o].table
    ensures var s, h, w1 := |w.signals|, |w.handles|, OpenSignal(w, o, n);
      && s < |w1.signals| && var w2 := AddListener(w1, s);
      && h < |w2.handles| && w2.handles[h].signal < |w2.signals| && w2.signals[s].nlisteners > 0
      && var w3 := Leave(w2, h);
      && s < |w3.signals| && w3.signals[s].owner < |w3.owners| && w3.owners[o].weak > 0
      && CloseSignal(w3, s).signals[s].freed && Inv(CloseSignal(w3, s))
  {
    hide Inv;
    OpenSignalInv(w, o, n);
    var s, h, w1 := |w.signals|, |w.handles|, OpenSignal(w, o, n);
    AddListenerInv(w1, s);
    var w2 := AddListener(w1, s);
    LeaveInv(w2, h);
    CloseSignalInv(Leave(w2, h), s);
  }

  /** A live handle has exactly one entry, in the list of its signal, whose counter is the length of the list. */
  lemma OneEntry(w: World, h: nat) returns (i: nat)
    requires Inv(w) && h < |w.handles| && !w.handles[h].destroyed
    ensures w.handles[h].signal < |w.signals| && !w.signals[w.handles[h].signal].freed
    ensures var sig := w.signals[w.handles[h].signal]; i < |sig.listeners| == sig.nlisteners && sig.listeners[i] == h
    ensures forall s, j | 0 <= s < |w.signals| && 0 <= j < |w.signals[s].listeners| && w.signals[s].listeners[j] == h ::
      s == w.handles[h].signal && j == i
  {
    assert HandleOk(h, w.handles[h], w.signals);
    var s := w.handles[h].signal;
    i :| 0 <= i < |w.signals[s].listeners| && w.signals[s].listeners[i] == h;
    forall t, j | 0 <= t < |w.signals| && 0 <= j < |w.signals[t].listeners| && w.signals[t].listeners[j] == h ensures t == s && j == i {
      OnlyEntry(w, h, t, j);
      if t == s && j != i { OnlyEntry(w, h, s, i); }
    }
  }

  lemma OnlyEntry(w: World, h: nat, s: nat, i: nat)
    requires Inv(w) && h < |w.handles| && s < |w.signals| && i < |w.signals[s].listeners| && w.signals[s].listeners[i] == h
    ensures !w.handles[h].destroyed && w.handles[h].signal == s && w.signals[s].nlisteners == |w.signals[s].listeners|
    ensures forall j | 0 <= j < |w.signals[s].listeners| && w.signals[s].listeners[j] == h :: j == i
  {
    assert SignalOk(s, w.signals[s], w.handles);
  }
}
