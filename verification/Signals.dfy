/** Signals, listen handles and re-entrant emission of object.c. */
module Signals {
  import opened Seqs
  import opened SignalLog

  /** An object as far as signals are concerned. It is gone when `refs` is 0; while its
      destruction runs it is `destroyed` and `refs` is the destroyer's guard. */
  datatype Owner = Owner(refs: nat, weak: nat, destroyed: bool, table: map<string, nat>)

  /** `struct di_signal` */
  datatype Signal = Signal(name: string, owner: nat, listeners: seq<nat>, nlisteners: nat, freed: bool)

  /** `struct di_listen_handle` with its `struct di_listener`. */
  datatype Handle = Handle(refs: nat, weak: nat, destroyed: bool, signal: nat, entryFreed: bool)

  datatype World = World(
    owners: seq<Owner>, signals: seq<Signal>, handles: seq<Handle>,
    pins: multiset<nat>,   // weak references to handles that emissions hold
    log: History)

  // ---------------------------------------------------------------- what always holds

  ghost predicate SignalOk(s: nat, sig: Signal, handles: seq<Handle>) {
    if sig.freed then sig.listeners == []
    else
      && sig.nlisteners == |sig.listeners| && Distinct(sig.listeners)
      && forall i | 0 <= i < |sig.listeners| :: sig.listeners[i] < |handles|
           && !handles[sig.listeners[i]].destroyed && handles[sig.listeners[i]].signal == s
  }

  ghost predicate HandleOk(h: nat, handle: Handle, signals: seq<Signal>) {
    !handle.destroyed ==>
      && handle.refs > 0 && !handle.entryFreed
      && handle.signal < |signals| && !signals[handle.signal].freed && h in signals[handle.signal].listeners
  }

  /** Each live handle has exactly one entry, in the list of its signal. */
  ghost predicate Linked(signals: seq<Signal>, handles: seq<Handle>) {
    && (forall s | 0 <= s < |signals| :: SignalOk(s, signals[s], handles))
    && (forall h | 0 <= h < |handles| :: HandleOk(h, handles[h], signals))
  }

  ghost predicate SignalTabled(s: nat, sig: Signal, owners: seq<Owner>) {
    !sig.freed ==>
      && sig.owner < |owners|
      && (owners[sig.owner].refs > 0 ==> sig.name in owners[sig.owner].table && owners[sig.owner].table[sig.name] == s)
  }

  ghost predicate OwnerTabled(o: nat, owner: Owner, signals: seq<Signal>) {
    && (owner.refs == 0 ==> owner.destroyed && owner.table == map[])
    && forall n | n in owner.table :: owner.table[n] < |signals|
         && !signals[owner.table[n]].freed && signals[owner.table[n]].owner == o && signals[owner.table[n]].name == n
  }

  ghost predicate SameSignal(a: Signal, b: Signal) {
    !a.freed && !b.freed && a.owner == b.owner && a.name == b.name
  }

  /** The table of an owner that is not gone holds exactly its signals. */
  ghost predicate Tabled(owners: seq<Owner>, signals: seq<Signal>) {
    && (forall s | 0 <= s < |signals| :: SignalTabled(s, signals[s], owners))
    && (forall o | 0 <= o < |owners| :: OwnerTabled(o, owners[o], signals))
    && (forall s, t | 0 <= s < |signals| && 0 <= t < |signals| && SameSignal(signals[s], signals[t]) :: s == t)
  }

  /** The signals that hold a weak reference to `o`. */
  ghost function Held(signals: seq<Signal>, o: nat): nat {
    if signals == [] then 0
    else Held(signals[..|signals|-1], o) + if !signals[|signals|-1].freed && signals[|signals|-1].owner == o then 1 else 0
  }

  ghost predicate HandleCounted(h: nat, handle: Handle, pins: multiset<nat>) {
    handle.weak == (if handle.refs == 0 then 0 else 1) + (if handle.entryFreed then 0 else 1) + pins[h]
  }

  ghost predicate OwnerCounted(o: nat, owner: Owner, signals: seq<Signal>) {
    owner.weak == (if owner.refs == 0 then 0 else 1) + Held(signals, o)
  }

  /** Weak reference counts are exact. */
  ghost predicate Counted(w: World) {
    && (forall h | 0 <= h < |w.handles| :: HandleCounted(h, w.handles[h], w.pins))
    && (forall o | 0 <= o < |w.owners| :: OwnerCounted(o, w.owners[o], w.signals))
    && (forall h | h in w.pins :: h < |w.handles|)
  }

  /** The state is the one that the history describes. */
  ghost predicate Recorded(w: World) {
    && Genuine(w.log) && Births(w.log) == |w.handles|
    && (forall h: nat :: Died(h) in w.log <==> h < |w.handles| && w.handles[h].destroyed)
    && (forall o: nat :: OwnerGone(o) in w.log <==> o < |w.owners| && w.owners[o].refs == 0)
    && (forall s: nat :: SignalFreed(s) in w.log <==> s < |w.signals| && w.signals[s].freed)
    && (forall h: nat :: HandleFreed(h) in w.log <==> h < |w.handles| && w.handles[h].weak == 0)
    && (forall h: nat :: w.pins[h] >= Skips(w.log, h))
  }

  ghost predicate Attached(l: seq<nat>, o: nat, n: string, signals: seq<Signal>, handles: seq<Handle>) {
    forall i | 0 <= i < |l| :: l[i] < |handles| && !handles[l[i]].destroyed && handles[l[i]].signal < |signals|
      && signals[handles[l[i]].signal].owner == o && signals[handles[l[i]].signal].name == n
  }

  /** The listener lists are the ones that the history describes. */
  ghost predicate Listed(w: World) {
    && (forall s | 0 <= s < |w.signals| && !w.signals[s].freed ::
          w.signals[s].listeners == Listening(w.log, w.signals[s].owner, w.signals[s].name))
    && (forall o: nat, n :: Attached(Listening(w.log, o, n), o, n, w.signals, w.handles))
  }

  /** The hooks have announced exactly the signals in the tables. */
  ghost predicate Hooked(w: World) {
    && (forall o: nat, n :: HookOpen(w.log, o, n) && OwnerGone(o) !in w.log ==>
          o < |w.owners| && n in w.owners[o].table && !Internal(n))
    && (forall o: nat, n | o < |w.owners| && n in w.owners[o].table && !Internal(n) :: HookOpen(w.log, o, n))
  }

  ghost predicate Inv(w: World) {
    && Linked(w.signals, w.handles) && Tabled(w.owners, w.signals)
    && Counted(w) && Recorded(w) && Listed(w) && Hooked(w)
  }

  /** Between operations, no signal is without listeners and no dead handle keeps its entry. */
  ghost predicate Settled(w: World) {
    && (forall s | 0 <= s < |w.signals| && !w.signals[s].freed :: w.signals[s].listeners != [])
    && (forall h | 0 <= h < |w.handles| && w.handles[h].destroyed :: w.handles[h].entryFreed)
  }

  // ---------------------------------------------------------------- the steps

  /** The first half of `di_listen_to`: a signal struct for a signal without listeners. */
  ghost function OpenSignal(w: World, o: nat, n: string): World
    requires o < |w.owners|
  {
    var owner := w.owners[o];
    w.(owners := w.owners[o := owner.(weak := owner.weak + 1, table := owner.table[n := |w.signals|])],
       signals := w.signals + [Signal(n, o, [], 0, false)],
       log := w.log + if Internal(n) then [] else [Opened(o, n)])
  }

  /** The second half: a new listen handle, with its entry at the head of the list. */
  ghost function AddListener(w: World, s: nat): World
    requires s < |w.signals|
  {
    var sig, h := w.signals[s], |w.handles|;
    w.(signals := w.signals[s := sig.(listeners := [h] + sig.listeners, nlisteners := sig.nlisteners + 1)],
       handles := w.handles + [Handle(1, 2, false, s, false)],
       log := w.log + [Born(h, sig.owner, sig.name)])
  }

  /** A handle that lost its last reference leaves the list of its signal. */
  ghost function Leave(w: World, h: nat): World
    requires h < |w.handles| && w.handles[h].signal < |w.signals| && w.signals[w.handles[h].signal].nlisteners > 0
  {
    var sig := w.signals[w.handles[h].signal];
    w.(signals := w.signals[w.handles[h].signal := sig.(listeners := Without(sig.listeners, h), nlisteners := sig.nlisteners - 1)],
       handles := w.handles[h := w.handles[h].(refs := 1, destroyed := true)],
       log := w.log + [Died(h)])
  }

  /** A signal without listeners is taken from its owner, if that is not gone, and freed. */
  ghost function CloseSignal(w: World, s: nat): World
    requires s < |w.signals| && w.signals[s].owner < |w.owners| && w.owners[w.signals[s].owner].weak > 0
  {
    var sig := w.signals[s];
    var owner := w.owners[sig.owner];
    var table := if owner.refs > 0 then owner.table - {sig.name} else owner.table;
    var told := if owner.refs > 0 && !Internal(sig.name) then [Closed(sig.owner, sig.name)] else [];
    w.(owners := w.owners[sig.owner := owner.(weak := owner.weak - 1, table := table)],
       signals := w.signals[s := sig.(freed := true)],
       log := w.log + told + [SignalFreed(s)])
  }

  // ---------------------------------------------------------------- OpenSignal

  lemma OpenSignalLinked(w: World, o: nat, n: string)
    requires o < |w.owners| && Linked(w.signals, w.handles)
    ensures Linked(OpenSignal(w, o, n).signals, w.handles)
  {}

  lemma OpenSignalTabled(w: World, o: nat, n: string)
    requires o < |w.owners| && Tabled(w.owners, w.signals) && !w.owners[o].destroyed && n !in w.owners[o].table
    ensures Tabled(OpenSignal(w, o, n).owners, OpenSignal(w, o, n).signals)
  {
    var w', s := OpenSignal(w, o, n), |w.signals|;
    forall t | 0 <= t < |w'.signals| ensures SignalTabled(t, w'.signals[t], w'.owners) {
      if t < s { assert SignalTabled(t, w.signals[t], w.owners); }
    }
    forall p | 0 <= p < |w'.owners| ensures OwnerTabled(p, w'.owners[p], w'.signals) {
      assert OwnerTabled(p, w.owners[p], w.signals);
    }
    forall t, u | 0 <= t < |w'.signals| && 0 <= u < |w'.signals| && SameSignal(w'.signals[t], w'.signals[u]) ensures t == u {
      var known := if t < s then t else u;
      if known < s {
        assert SignalTabled(known, w.signals[known], w.owners);
        assert OwnerTabled(o, w.owners[o], w.signals);
      }
      if t < s && u < s { assert SameSignal(w.signals[t], w.signals[u]); }
    }
  }

  lemma HeldAppend(signals: seq<Signal>, sig: Signal, o: nat)
    ensures Held(signals + [sig], o) == Held(signals, o) + if !sig.freed && sig.owner == o then 1 else 0
  {
    assert (signals + [sig])[..|signals|] == signals;
  }

  lemma OpenSignalCounted(w: World, o: nat, n: string)
    requires o < |w.owners| && Counted(w)
    ensures Counted(OpenSignal(w, o, n))
  {
    forall o': nat { HeldAppend(w.signals, Signal(n, o, [], 0, false), o'); }
    hide Held;
  }

  /** A signal that something listens to is in the table of its owner. */
  lemma HeardIsTabled(w: World, o: nat, n: string)
    requires Linked(w.signals, w.handles) && Tabled(w.owners, w.signals) && Listed(w)
    requires o < |w.owners| && w.owners[o].refs > 0 && Listening(w.log, o, n) != []
    ensures n in w.owners[o].table
  {
    var l := Listening(w.log, o, n);
    hide Listening;
    assert Attached(l, o, n, w.signals, w.handles);
    assert HandleOk(l[0], w.handles[l[0]], w.signals);
    assert SignalTabled(w.handles[l[0]].signal, w.signals[w.handles[l[0]].signal], w.owners);
  }

  lemma AliveNotGone(w: World, o: nat)
    requires Tabled(w.owners, w.signals) && Recorded(w) && o < |w.owners| && !w.owners[o].destroyed
    ensures w.owners[o].refs > 0 && OwnerGone(o) !in w.log
  {
    assert OwnerTabled(o, w.owners[o], w.signals);
  }

  /** Which events the record of a state consists of. */
  predicate Marks(ev: Event) {
    ev.Born? || ev.Died? || ev.OwnerGone? || ev.SignalFreed? || ev.HandleFreed? || ev.Skipped?
  }

  lemma Unmarked(w: World, ev: Event)
    requires Recorded(w) && Fits(w.log, ev) && !Marks(ev)
    ensures Recorded(w.(log := w.log + [ev]))
  {
    Append(w.log, ev);
    hide Listening, HookOpen, Births, Skips, Genuine, Fits;
  }

  lemma OpenSignalRecorded(w: World, o: nat, n: string)
    requires Linked(w.signals, w.handles) && Tabled(w.owners, w.signals) && Recorded(w) && Listed(w) && Hooked(w)
    requires o < |w.owners| && !w.owners[o].destroyed && n !in w.owners[o].table
    ensures Recorded(OpenSignal(w, o, n)) && Fits(w.log, Opened(o, n)) == !Internal(n)
  {
    hide Genuine, Births, Skips, Listening, HookOpen;
    AliveNotGone(w, o);
    if Listening(w.log, o, n) != [] { HeardIsTabled(w, o, n); }
    if !Internal(n) { Unmarked(w, Opened(o, n)); }
    assert w.log + [] == w.log;
  }

  lemma OpenSignalListed(w: World, o: nat, n: string)
    requires Linked(w.signals, w.handles) && Tabled(w.owners, w.signals) && Listed(w)
    requires o < |w.owners| && w.owners[o].refs > 0 && n !in w.owners[o].table
    ensures Listed(OpenSignal(w, o, n))
  {
    Append(w.log, Opened(o, n));
    hide Listening;
    if Listening(w.log, o, n) != [] { HeardIsTabled(w, o, n); }
    hide Linked, Tabled;
    assert w.log + [] == w.log;
  }

  lemma OpenSignalHooked(w: World, o: nat, n: string)
    requires Hooked(w) && o < |w.owners| && OwnerGone(o) !in w.log
    ensures Hooked(OpenSignal(w, o, n))
  {
    Append(w.log, Opened(o, n));
    hide HookOpen, Internal;
    assert w.log + [] == w.log;
  }

  lemma OpenSignalInv(w: World, o: nat, n: string)
    requires Inv(w) && o < |w.owners| && !w.owners[o].destroyed && n !in w.owners[o].table
    ensures Inv(OpenSignal(w, o, n))
  {
    hide Linked, Tabled, Counted, Recorded, Listed, Hooked;
    AliveNotGone(w, o);
    OpenSignalLinked(w, o, n);
    OpenSignalTabled(w, o, n);
    OpenSignalCounted(w, o, n);
    OpenSignalRecorded(w, o, n);
    OpenSignalListed(w, o, n);
    OpenSignalHooked(w, o, n);
  }

  // ---------------------------------------------------------------- AddListener

  lemma AddListenerLinked(w: World, s: nat)
    requires s < |w.signals| && !w.signals[s].freed && Linked(w.signals, w.handles)
    ensures Linked(AddListener(w, s).signals, AddListener(w, s).handles)
  {
    var w' := AddListener(w, s);
    assert SignalOk(s, w.signals[s], w.handles);
    forall t | 0 <= t < |w'.signals| ensures SignalOk(t, w'.signals[t], w'.handles) {
      assert SignalOk(t, w.signals[t], w.handles);
    }
    forall h | 0 <= h < |w'.handles| ensures HandleOk(h, w'.handles[h], w'.signals) {
      if h < |w.handles| {
        assert HandleOk(h, w.handles[h], w.signals);
      } else {
        assert w'.signals[s].listeners[0] == h;
      }
    }
  }

  /** The tables do not look at the listener lists. */
  lemma TabledSame(owners: seq<Owner>, a: seq<Signal>, b: seq<Signal>)
    requires Tabled(owners, a) && |a| == |b|
    requires forall s | 0 <= s < |a| :: b[s].freed == a[s].freed && b[s].owner == a[s].owner && b[s].name == a[s].name
    ensures Tabled(owners, b)
  {
    forall s | 0 <= s < |b| ensures SignalTabled(s, b[s], owners) { assert SignalTabled(s, a[s], owners); }
    forall o | 0 <= o < |owners| ensures OwnerTabled(o, owners[o], b) { assert OwnerTabled(o, owners[o], a); }
    forall s, t | 0 <= s < |b| && 0 <= t < |b| && SameSignal(b[s], b[t]) ensures s == t { assert SameSignal(a[s], a[t]); }
  }

  lemma {:induction false} HeldSame(a: seq<Signal>, b: seq<Signal>, o: nat)
    requires |a| == |b| && forall s | 0 <= s < |a| :: b[s].freed == a[s].freed && b[s].owner == a[s].owner
    ensures Held(a, o) == Held(b, o)
  {
    if a != [] { HeldSame(a[..|a|-1], b[..|b|-1], o); }
  }

  lemma AddListenerCounted(w: World, s: nat)
    requires s < |w.signals| && Counted(w)
    ensures Counted(AddListener(w, s))
  {
    var w' := AddListener(w, s);
    forall o | 0 <= o < |w'.owners| ensures OwnerCounted(o, w'.owners[o], w'.signals) {
      assert OwnerCounted(o, w.owners[o], w.signals);
      HeldSame(w.signals, w'.signals, o);
    }
    assert |w.handles| !in w.pins;
    forall h | 0 <= h < |w'.handles| ensures HandleCounted(h, w'.handles[h], w'.pins) {
      if h < |w.handles| { assert HandleCounted(h, w.handles[h], w.pins); }
    }
  }

  lemma AddListenerRecorded(w: World, s: nat)
    requires s < |w.signals| && Recorded(w) && Fits(w.log, Born(|w.handles|, w.signals[s].owner, w.signals[s].name))
    ensures Recorded(AddListener(w, s))
  {
    Append(w.log, Born(|w.handles|, w.signals[s].owner, w.signals[s].name));
    hide Genuine, Births, Skips, Fits, Listening, HookOpen;
  }

  lemma AddListenerListed(w: World, s: nat)
    requires s < |w.signals| && !w.signals[s].freed && Listed(w)
    requires forall t | 0 <= t < |w.signals| && SameSignal(w.signals[t], w.signals[s]) :: t == s
    ensures Listed(AddListener(w, s))
  {
    var w' := AddListener(w, s);
    Append(w.log, Born(|w.handles|, w.signals[s].owner, w.signals[s].name));
    hide Listening;
    forall o: nat, n ensures Attached(Listening(w'.log, o, n), o, n, w'.signals, w'.handles) {
      assert Attached(Listening(w.log, o, n), o, n, w.signals, w.handles);
    }
    forall t | 0 <= t < |w'.signals| && !w'.signals[t].freed
      ensures w'.signals[t].listeners == Listening(w'.log, w'.signals[t].owner, w'.signals[t].name)
    {
      if t != s { assert !SameSignal(w.signals[t], w.signals[s]); }
    }
  }

  lemma AddListenerHooked(w: World, s: nat)
    requires s < |w.signals| && Hooked(w)
    ensures Hooked(AddListener(w, s))
  {
    Append(w.log, Born(|w.handles|, w.signals[s].owner, w.signals[s].name));
    hide HookOpen, Internal;
  }

  lemma AddListenerInv(w: World, s: nat)
    requires Inv(w) && s < |w.signals| && !w.signals[s].freed
    requires w.signals[s].owner < |w.owners| && !w.owners[w.signals[s].owner].destroyed
    ensures Inv(AddListener(w, s))
  {
    var o, n := w.signals[s].owner, w.signals[s].name;
    AliveNotGone(w, o);
    assert SignalTabled(s, w.signals[s], w.owners);
    assert Fits(w.log, Born(|w.handles|, o, n));
    assert forall t | 0 <= t < |w.signals| && SameSignal(w.signals[t], w.signals[s]) :: t == s;
    hide Linked, Tabled, Counted, Recorded, Listed, Hooked, Fits, SameSignal;
    AddListenerLinked(w, s);
    TabledSame(w.owners, w.signals, AddListener(w, s).signals);
    AddListenerCounted(w, s);
    AddListenerRecorded(w, s);
    AddListenerListed(w, s);
    AddListenerHooked(w, s);
  }

  // ---------------------------------------------------------------- Leave

  lemma LeaveLinked(w: World, h: nat)
    requires h < |w.handles| && !w.handles[h].destroyed && Linked(w.signals, w.handles)
    ensures w.handles[h].signal < |w.signals| && w.signals[w.handles[h].signal].nlisteners > 0
    ensures Linked(Leave(w, h).signals, Leave(w, h).handles)
  {
    assert HandleOk(h, w.handles[h], w.signals);
    var s := w.handles[h].signal;
    assert SignalOk(s, w.signals[s], w.handles);
    WithoutAt(w.signals[s].listeners, h);
    var w' := Leave(w, h);
    forall t | 0 <= t < |w'.signals| ensures SignalOk(t, w'.signals[t], w'.handles) {
      assert SignalOk(t, w.signals[t], w.handles);
      if t == s {
        var l := w'.signals[s].listeners;
        forall i | 0 <= i < |l| ensures l[i] < |w.handles| && !w'.handles[l[i]].destroyed && w'.handles[l[i]].signal == s {
          assert l[i] in l;
        }
      }
    }
    forall g | 0 <= g < |w'.handles| ensures HandleOk(g, w'.handles[g], w'.signals) {
      assert HandleOk(g, w.handles[g], w.signals);
    }
  }

  lemma LeaveCounted(w: World, h: nat)
    requires h < |w.handles| && w.handles[h].signal < |w.signals| && w.signals[w.handles[h].signal].nlisteners > 0
    requires Counted(w) && w.handles[h].refs > 0
    ensures Counted(Leave(w, h))
  {
    var w' := Leave(w, h);
    forall o | 0 <= o < |w'.owners| ensures OwnerCounted(o, w'.owners[o], w'.signals) {
      assert OwnerCounted(o, w.owners[o], w.signals);
      HeldSame(w.signals, w'.signals, o);
    }
    forall g | 0 <= g < |w'.handles| ensures HandleCounted(g, w'.handles[g], w'.pins) {
      assert HandleCounted(g, w.handles[g], w.pins);
    }
  }

  lemma LeaveRecorded(w: World, h: nat)
    requires h < |w.handles| && w.handles[h].signal < |w.signals| && w.signals[w.handles[h].signal].nlisteners > 0
    requires Recorded(w) && !w.handles[h].destroyed
    ensures Recorded(Leave(w, h))
  {
    Append(w.log, Died(h));
    assert Fits(w.log, Died(h));
    hide Genuine, Births, Skips, Fits, Listening, HookOpen, Without;
  }

  lemma LeaveListed(w: World, h: nat)
    requires h < |w.handles| && !w.handles[h].destroyed && Linked(w.signals, w.handles) && Listed(w)
    requires w.handles[h].signal < |w.signals| && w.signals[w.handles[h].signal].nlisteners > 0
    ensures Listed(Leave(w, h))
  {
    var w' := Leave(w, h);
    Append(w.log, Died(h));
    hide Listening;
    var s := w.handles[h].signal;
    forall t | 0 <= t < |w'.signals| && !w'.signals[t].freed
      ensures w'.signals[t].listeners == Listening(w'.log, w'.signals[t].owner, w'.signals[t].name)
    {
      assert SignalOk(t, w.signals[t], w.handles);
      if t != s { WithoutAbsent(w.signals[t].listeners, h); }
    }
    forall o: nat, n ensures Attached(Listening(w'.log, o, n), o, n, w'.signals, w'.handles) {
      assert Attached(Listening(w.log, o, n), o, n, w.signals, w.handles);
      LeaveAttached(w, h, o, n);
    }
  }

  lemma LeaveAttached(w: World, h: nat, o: nat, n: string)
    requires h < |w.handles| && !w.handles[h].destroyed && Linked(w.signals, w.handles) && Listed(w)
    requires w.handles[h].signal < |w.signals| && w.signals[w.handles[h].signal].nlisteners > 0
    ensures Attached(Without(Listening(w.log, o, n), h), o, n, Leave(w, h).signals, Leave(w, h).handles)
  {
    var l := Listening(w.log, o, n);
    assert Attached(l, o, n, w.signals, w.handles);
    hide Listening;
    if h in l {
      assert HandleOk(h, w.handles[h], w.signals);
      var s := w.handles[h].signal;
      assert SignalOk(s, w.signals[s], w.handles);
      assert l == w.signals[s].listeners;
      WithoutAt(l, h);
      var k := Without(l, h);
      forall i | 0 <= i < |k| ensures k[i] in l && k[i] != h { assert k[i] in k; }
    } else {
      WithoutAbsent(l, h);
    }
  }

  lemma LeaveHooked(w: World, h: nat)
    requires h < |w.handles| && w.handles[h].signal < |w.signals| && w.signals[w.handles[h].signal].nlisteners > 0
    requires Hooked(w)
    ensures Hooked(Leave(w, h))
  {
    Append(w.log, Died(h));
    hide HookOpen, Internal;
  }

  lemma LeaveInv(w: World, h: nat)
    requires Inv(w) && h < |w.handles| && !w.handles[h].destroyed
    ensures w.handles[h].refs > 0 && w.handles[h].signal < |w.signals| && w.signals[w.handles[h].signal].nlisteners > 0
    ensures Inv(Leave(w, h))
  {
    assert HandleOk(h, w.handles[h], w.signals);
    LeaveLinked(w, h);
    hide Linked, Tabled, Counted, Recorded, Listed, Hooked;
    TabledSame(w.owners, w.signals, Leave(w, h).signals);
    LeaveCounted(w, h);
    LeaveRecorded(w, h);
    LeaveListed(w, h);
    LeaveHooked(w, h);
  }

  // ---------------------------------------------------------------- CloseSignal

  lemma CloseSignalLinked(w: World, s: nat)
    requires s < |w.signals| && w.signals[s].listeners == [] && Linked(w.signals, w.handles)
    ensures Linked(w.signals[s := w.signals[s].(freed := true)], w.handles)
  {
    var signals := w.signals[s := w.signals[s].(freed := true)];
    forall t | 0 <= t < |signals| ensures SignalOk(t, signals[t], w.handles) { assert SignalOk(t, w.signals[t], w.handles); }
    forall h | 0 <= h < |w.handles| ensures HandleOk(h, w.handles[h], signals) { assert HandleOk(h, w.handles[h], w.signals); }
  }

  lemma OwnerHolds(w: World, s: nat)
    requires s < |w.signals| && !w.signals[s].freed && Tabled(w.owners, w.signals) && Counted(w)
    ensures w.signals[s].owner < |w.owners| && w.owners[w.signals[s].owner].weak > 0
    ensures w.owners[w.signals[s].owner].weak > if w.owners[w.signals[s].owner].refs == 0 then 0 else 1
  {
    var o := w.signals[s].owner;
    assert SignalTabled(s, w.signals[s], w.owners);
    assert OwnerCounted(o, w.owners[o], w.signals);
    HeldFreed(w.signals, s, o);
  }

  lemma {:induction false} HeldFreed(signals: seq<Signal>, s: nat, o: nat)
    requires s < |signals| && !signals[s].freed
    ensures Held(signals, o) == Held(signals[s := signals[s].(freed := true)], o) + if signals[s].owner == o then 1 else 0
  {
    var n := |signals| - 1;
    var signals' := signals[s := signals[s].(freed := true)];
    if s < n {
      assert signals'[..n] == signals[..n][s := signals[s].(freed := true)];
      HeldFreed(signals[..n], s, o);
    } else {
      assert signals'[..n] == signals[..n];
    }
  }

  lemma CloseSignalTabled(w: World, s: nat)
    requires s < |w.signals| && !w.signals[s].freed && Tabled(w.owners, w.signals)
    requires w.signals[s].owner < |w.owners| && w.owners[w.signals[s].owner].weak > 0
    ensures Tabled(CloseSignal(w, s).owners, CloseSignal(w, s).signals)
  {
    var w', o := CloseSignal(w, s), w.signals[s].owner;
    assert SignalTabled(s, w.signals[s], w.owners);
    forall t | 0 <= t < |w'.signals| ensures SignalTabled(t, w'.signals[t], w'.owners) {
      assert SignalTabled(t, w.signals[t], w.owners);
      if t != s && !w.signals[t].freed { assert !SameSignal(w.signals[s], w.signals[t]); }
    }
    forall p | 0 <= p < |w'.owners| ensures OwnerTabled(p, w'.owners[p], w'.signals) {
      assert OwnerTabled(p, w.owners[p], w.signals);
    }
    forall t, u | 0 <= t < |w'.signals| && 0 <= u < |w'.signals| && SameSignal(w'.signals[t], w'.signals[u]) ensures t == u {
      assert SameSignal(w.signals[t], w.signals[u]);
    }
  }

  lemma CloseSignalCounted(w: World, s: nat)
    requires s < |w.signals| && !w.signals[s].freed && Counted(w)
    requires w.signals[s].owner < |w.owners| && w.owners[w.signals[s].owner].weak > 0
    ensures Counted(CloseSignal(w, s))
  {
    var w' := CloseSignal(w, s);
    forall o | 0 <= o < |w'.owners| ensures OwnerCounted(o, w'.owners[o], w'.signals) {
      assert OwnerCounted(o, w.owners[o], w.signals);
      HeldFreed(w.signals, s, o);
    }
    forall h | 0 <= h < |w'.handles| ensures HandleCounted(h, w'.handles[h], w'.pins) {
      assert HandleCounted(h, w.handles[h], w.pins);
    }
  }

  /** The events of CloseSignal. */
  ghost function CloseLog(log: History, told: bool, o: nat, n: string, s: nat): History {
    log + (if told then [Closed(o, n)] else []) + [SignalFreed(s)]
  }

  lemma CloseLogLaws(log: History, told: bool, o: nat, n: string, s: nat)
    ensures var log' := CloseLog(log, told, o, n, s);
      && (forall o', n' :: Listening(log', o', n') == Listening(log, o', n'))
      && (forall o', n' :: HookOpen(log', o', n') == (HookOpen(log, o', n') && !(told && o' == o && n' == n)))
      && Births(log') == Births(log) && (forall h :: Skips(log', h) == Skips(log, h))
      && (Genuine(log) && (told ==> Fits(log, Closed(o, n))) && SignalFreed(s) !in log ==> Genuine(log'))
  {
    Append(log, Closed(o, n));
    Append(if told then log + [Closed(o, n)] else log, SignalFreed(s));
    assert log + [] == log;
  }

  lemma CloseLogHas(log: History, told: bool, o: nat, n: string, s: nat)
    ensures var log' := CloseLog(log, told, o, n, s);
      && (forall h :: Died(h) in log' <==> Died(h) in log) && (forall h :: HandleFreed(h) in log' <==> HandleFreed(h) in log)
      && (forall p :: OwnerGone(p) in log' <==> OwnerGone(p) in log)
      && (forall t :: SignalFreed(t) in log' <==> SignalFreed(t) in log || t == s)
  {}

  lemma CloseSignalLogged(w: World, s: nat)
    requires s < |w.signals| && !w.signals[s].freed && w.signals[s].owner < |w.owners| && w.owners[w.signals[s].owner].weak > 0
    requires w.signals[s].listeners == []
    requires Tabled(w.owners, w.signals) && Recorded(w) && Listed(w) && Hooked(w)
    ensures Recorded(CloseSignal(w, s)) && Listed(CloseSignal(w, s)) && Hooked(CloseSignal(w, s))
  {
    var o, n := w.signals[s].owner, w.signals[s].name;
    var told := w.owners[o].refs > 0 && !Internal(n);
    var w' := CloseSignal(w, s);
    CloseSignalShape(w, s);
    CloseLogLaws(w.log, told, o, n, s);
    CloseLogHas(w.log, told, o, n, s);
    CloseFits(w, s);
    hide *;
    CloseSignalRecorded(w, w', s);
    CloseSignalListed(w, w', s);
    CloseSignalHooked(w, w', s, told);
  }

  lemma CloseSignalShape(w: World, s: nat)
    requires s < |w.signals| && w.signals[s].owner < |w.owners| && w.owners[w.signals[s].owner].weak > 0
    ensures var o, n, w' := w.signals[s].owner, w.signals[s].name, CloseSignal(w, s);
      && w'.log == CloseLog(w.log, w.owners[o].refs > 0 && !Internal(n), o, n, s)
      && w'.signals == w.signals[s := w.signals[s].(freed := true)] && w'.handles == w.handles && w'.pins == w.pins
      && |w'.owners| == |w.owners| && (forall p | 0 <= p < |w.owners| :: w'.owners[p].refs == w.owners[p].refs)
      && (forall p | 0 <= p < |w.owners| && p != o :: w'.owners[p] == w.owners[p])
      && w'.owners[o].table == if w.owners[o].refs > 0 then w.owners[o].table - {n} else w.owners[o].table
  {
    hide Internal;
  }

  lemma CloseFits(w: World, s: nat)
    requires s < |w.signals| && !w.signals[s].freed && w.signals[s].owner < |w.owners| && w.signals[s].listeners == []
    requires Tabled(w.owners, w.signals) && Recorded(w) && Listed(w) && Hooked(w)
    ensures var o, n := w.signals[s].owner, w.signals[s].name;
      && (w.owners[o].refs > 0 && !Internal(n) ==> Fits(w.log, Closed(o, n)))
      && (w.owners[o].refs == 0 ==> w.owners[o].table == map[])
  {
    assert SignalTabled(s, w.signals[s], w.owners);
    assert OwnerTabled(w.signals[s].owner, w.owners[w.signals[s].owner], w.signals);
    hide Genuine, Births, Skips, Listening, HookOpen, Internal;
  }

  lemma CloseSignalRecorded(w: World, w': World, s: nat)
    requires s < |w.signals| && !w.signals[s].freed && w'.signals == w.signals[s := w.signals[s].(freed := true)]
    requires w'.handles == w.handles && w'.pins == w.pins && |w'.owners| == |w.owners| && Recorded(w)
    requires forall p | 0 <= p < |w.owners| :: w'.owners[p].refs == w.owners[p].refs
    requires Births(w'.log) == Births(w.log) && (forall h :: Skips(w'.log, h) == Skips(w.log, h)) && Genuine(w'.log)
    requires forall h :: Died(h) in w'.log <==> Died(h) in w.log
    requires forall h :: HandleFreed(h) in w'.log <==> HandleFreed(h) in w.log
    requires forall p :: OwnerGone(p) in w'.log <==> OwnerGone(p) in w.log
    requires forall t :: SignalFreed(t) in w'.log <==> SignalFreed(t) in w.log || t == s
    ensures Recorded(w')
  {
    hide Genuine, Births, Skips;
  }

  lemma CloseSignalListed(w: World, w': World, s: nat)
    requires s < |w.signals| && w'.signals == w.signals[s := w.signals[s].(freed := true)] && w'.handles == w.handles
    requires Listed(w) && forall o, n :: Listening(w'.log, o, n) == Listening(w.log, o, n)
    ensures Listed(w')
  {
    hide Listening;
    forall o: nat, n ensures Attached(Listening(w'.log, o, n), o, n, w'.signals, w'.handles) {
      assert Attached(Listening(w.log, o, n), o, n, w.signals, w.handles);
    }
  }

  lemma CloseSignalHooked(w: World, w': World, s: nat, told: bool)
    requires s < |w.signals| && w.signals[s].owner < |w.owners| && |w'.owners| == |w.owners| && Hooked(w)
    requires forall p | 0 <= p < |w.owners| && p != w.signals[s].owner :: w'.owners[p] == w.owners[p]
    requires w'.owners[w.signals[s].owner].table ==
      if w.owners[w.signals[s].owner].refs > 0 then w.owners[w.signals[s].owner].table - {w.signals[s].name}
      else w.owners[w.signals[s].owner].table
    requires told == (w.owners[w.signals[s].owner].refs > 0 && !Internal(w.signals[s].name))
    requires w.owners[w.signals[s].owner].refs == 0 ==> w.owners[w.signals[s].owner].table == map[]
    requires forall o', n' :: HookOpen(w'.log, o', n') == (HookOpen(w.log, o', n') && !(told && o' == w.signals[s].owner && n' == w.signals[s].name))
    requires forall p :: OwnerGone(p) in w'.log <==> OwnerGone(p) in w.log
    ensures Hooked(w')
  {
    hide HookOpen, Internal;
  }

  lemma CloseSignalInv(w: World, s: nat)
    requires Inv(w) && s < |w.signals| && !w.signals[s].freed && w.signals[s].listeners == []
    ensures w.signals[s].owner < |w.owners| && w.owners[w.signals[s].owner].weak > 0
    ensures w.owners[w.signals[s].owner].weak > if w.owners[w.signals[s].owner].refs == 0 then 0 else 1
    ensures Inv(CloseSignal(w, s))
  {
    hide Linked, Tabled, Counted, Recorded, Listed, Hooked;
    OwnerHolds(w, s);
    CloseSignalLinked(w, s);
    CloseSignalTabled(w, s);
    CloseSignalCounted(w, s);
    CloseSignalLogged(w, s);
  }

  // ---------------------------------------------------------------- reference counts

  /** The counts of one handle change; without weak references it is freed. */
  ghost function Touch(w: World, h: nat, x: Handle, pins: multiset<nat>): World
    requires h < |w.handles|
  {
    w.(handles := w.handles[h := x], pins := pins,
       log := w.log + if x.weak == 0 && w.handles[h].weak > 0 then [HandleFreed(h)] else [])
  }

  ghost predicate MayTouch(w: World, h: nat, x: Handle, pins: multiset<nat>) {
    && h < |w.handles|
    && x.destroyed == w.handles[h].destroyed && x.signal == w.handles[h].signal
    && (x.destroyed || (x.refs > 0 && !x.entryFreed))
    && HandleCounted(h, x, pins) && pins[h] >= Skips(w.log, h)
    && (forall g: nat | g != h :: pins[g] == w.pins[g])
    && (w.handles[h].weak == 0 ==> x.weak == 0)
  }

  lemma TouchRecorded(w: World, h: nat, x: Handle, pins: multiset<nat>)
    requires Recorded(w) && MayTouch(w, h, x, pins)
    ensures Recorded(Touch(w, h, x, pins))
  {
    Append(w.log, HandleFreed(h));
    assert w.log + [] == w.log;
    if x.weak == 0 && w.handles[h].weak > 0 { assert Fits(w.log, HandleFreed(h)); }
    hide Genuine, Births, Skips, Fits, Listening, HookOpen;
  }

  lemma TouchKept(w: World, h: nat, x: Handle, pins: multiset<nat>)
    requires Linked(w.signals, w.handles) && Counted(w) && MayTouch(w, h, x, pins)
    ensures Linked(w.signals, Touch(w, h, x, pins).handles) && Counted(Touch(w, h, x, pins))
  {
    var w' := Touch(w, h, x, pins);
    forall s | 0 <= s < |w.signals| ensures SignalOk(s, w.signals[s], w'.handles) { assert SignalOk(s, w.signals[s], w.handles); }
    forall g | 0 <= g < |w'.handles| ensures HandleOk(g, w'.handles[g], w.signals) { assert HandleOk(g, w.handles[g], w.signals); }
    forall g | 0 <= g < |w'.handles| ensures HandleCounted(g, w'.handles[g], w'.pins) { assert HandleCounted(g, w.handles[g], w.pins); }
    forall o | 0 <= o < |w'.owners| ensures OwnerCounted(o, w'.owners[o], w'.signals) { assert OwnerCounted(o, w.owners[o], w.signals); }
    forall g | g in w'.pins ensures g < |w'.handles| { assert g != h ==> w.pins[g] == pins[g]; }
  }

  lemma TouchListed(w: World, h: nat, x: Handle, pins: multiset<nat>)
    requires Listed(w) && Hooked(w) && MayTouch(w, h, x, pins)
    ensures Listed(Touch(w, h, x, pins)) && Hooked(Touch(w, h, x, pins))
  {
    var w' := Touch(w, h, x, pins);
    Append(w.log, HandleFreed(h));
    assert w.log + [] == w.log;
    hide Listening, HookOpen, Internal, Skips, HandleCounted;
    forall o: nat, n ensures Attached(Listening(w'.log, o, n), o, n, w'.signals, w'.handles) {
      assert Attached(Listening(w.log, o, n), o, n, w.signals, w.handles);
    }
  }

  lemma TouchInv(w: World, h: nat, x: Handle, pins: multiset<nat>)
    requires Inv(w) && MayTouch(w, h, x, pins)
    ensures Inv(Touch(w, h, x, pins))
  {
    hide Linked, Tabled, Counted, Recorded, Listed, Hooked;
    TouchRecorded(w, h, x, pins);
    TouchKept(w, h, x, pins);
    TouchListed(w, h, x, pins);
  }

  ghost function TouchOwner(w: World, o: nat, x: Owner): World
    requires o < |w.owners|
  {
    w.(owners := w.owners[o := x])
  }

  lemma TouchOwnerInv(w: World, o: nat, x: Owner)
    requires Inv(w) && o < |w.owners| && x.table == w.owners[o].table && x.weak == w.owners[o].weak
    requires x.refs > 0 && w.owners[o].refs > 0
    ensures Inv(TouchOwner(w, o, x))
  {
    hide Genuine, Births, Skips, Listening, HookOpen, Linked, Internal;
    TouchOwnerKept(w, o, x);
    hide Tabled, Counted;
  }

  lemma TouchOwnerKept(w: World, o: nat, x: Owner)
    requires Tabled(w.owners, w.signals) && Counted(w)
    requires o < |w.owners| && x.table == w.owners[o].table && x.weak == w.owners[o].weak
    requires x.refs > 0 && w.owners[o].refs > 0
    ensures Tabled(TouchOwner(w, o, x).owners, w.signals) && Counted(TouchOwner(w, o, x))
  {
    var w' := TouchOwner(w, o, x);
    hide Held;
    forall s | 0 <= s < |w.signals| ensures SignalTabled(s, w.signals[s], w'.owners) { assert SignalTabled(s, w.signals[s], w.owners); }
    forall p | 0 <= p < |w'.owners| ensures OwnerTabled(p, w'.owners[p], w.signals) { assert OwnerTabled(p, w.owners[p], w.signals); }
    forall p | 0 <= p < |w'.owners| ensures OwnerCounted(p, w'.owners[p], w.signals) { assert OwnerCounted(p, w.owners[p], w.signals); }
  }

  /** The end of `di_destroy_object`: the signals are detached and the last guard is dropped. */
  ghost function FinishOwner(w: World, o: nat): World
    requires o < |w.owners| && w.owners[o].weak > 0
  {
    w.(owners := w.owners[o := w.owners[o].(refs := 0, weak := w.owners[o].weak - 1, table := map[])],
       log := w.log + [OwnerGone(o)])
  }

  lemma FinishOwnerInv(w: World, o: nat)
    requires Inv(w) && o < |w.owners| && w.owners[o].refs == 1 && w.owners[o].destroyed
    ensures w.owners[o].weak > 0 && Inv(FinishOwner(w, o))
  {
    assert OwnerCounted(o, w.owners[o], w.signals);
    var w' := FinishOwner(w, o);
    FinishOwnerTabled(w, o);
    FinishOwnerLogged(w, o);
    hide Genuine, Births, Skips, Listening, HookOpen, Linked, Tabled, Recorded, Listed, Hooked, Held;
    forall p | 0 <= p < |w'.owners| ensures OwnerCounted(p, w'.owners[p], w.signals) { assert OwnerCounted(p, w.owners[p], w.signals); }
  }

  lemma FinishOwnerTabled(w: World, o: nat)
    requires Tabled(w.owners, w.signals) && o < |w.owners| && w.owners[o].weak > 0 && w.owners[o].destroyed
    ensures Tabled(FinishOwner(w, o).owners, w.signals)
  {
    var w' := FinishOwner(w, o);
    forall s | 0 <= s < |w.signals| ensures SignalTabled(s, w.signals[s], w'.owners) { assert SignalTabled(s, w.signals[s], w.owners); }
    forall p | 0 <= p < |w'.owners| ensures OwnerTabled(p, w'.owners[p], w.signals) { assert OwnerTabled(p, w.owners[p], w.signals); }
  }

  lemma FinishOwnerLogged(w: World, o: nat)
    requires Recorded(w) && Listed(w) && Hooked(w) && o < |w.owners| && w.owners[o].refs > 0 && w.owners[o].weak > 0
    ensures Recorded(FinishOwner(w, o)) && Listed(FinishOwner(w, o)) && Hooked(FinishOwner(w, o))
  {
    hide Recorded, Hooked, Listed;
    FinishOwnerRecorded(w, o);
    FinishOwnerHooked(w, o);
    FinishOwnerListed(w, o);
  }

  lemma FinishOwnerListed(w: World, o: nat)
    requires Listed(w) && o < |w.owners| && w.owners[o].refs > 0 && w.owners[o].weak > 0
    ensures Listed(FinishOwner(w, o))
  {
    Append(w.log, OwnerGone(o));
    hide Listening, Attached;
  }

  lemma FinishOwnerRecorded(w: World, o: nat)
    requires Recorded(w) && o < |w.owners| && w.owners[o].refs > 0 && w.owners[o].weak > 0
    ensures Recorded(FinishOwner(w, o))
  {
    Append(w.log, OwnerGone(o));
    assert Fits(w.log, OwnerGone(o));
    hide Genuine, Births, Skips, Fits, Listening, HookOpen;
  }

  lemma FinishOwnerHooked(w: World, o: nat)
    requires Hooked(w) && o < |w.owners| && w.owners[o].refs > 0 && w.owners[o].weak > 0
    ensures Hooked(FinishOwner(w, o))
  {
    Append(w.log, OwnerGone(o));
    hide HookOpen, Internal;
    var w' := FinishOwner(w, o);
    assert w'.log[|w.log|] == OwnerGone(o);
    assert forall p: nat :: OwnerGone(p) in w.log ==> OwnerGone(p) in w'.log;
  }

  ghost function NewOwner(w: World): World {
    w.(owners := w.owners + [Owner(1, 1, false, map[])])
  }

  lemma NewOwnerInv(w: World)
    requires Inv(w)
    ensures Inv(NewOwner(w))
  {
    hide Genuine, Births, Skips, Listening, HookOpen, Linked, Internal;
    NewOwnerTabled(w);
    NewOwnerCounted(w);
    NewOwnerHooked(w);
    hide Tabled, Counted, Hooked;
  }

  lemma NewOwnerTabled(w: World)
    requires Tabled(w.owners, w.signals)
    ensures Tabled(NewOwner(w).owners, w.signals)
  {
    var w', o := NewOwner(w), |w.owners|;
    forall s | 0 <= s < |w.signals| ensures SignalTabled(s, w.signals[s], w'.owners) { assert SignalTabled(s, w.signals[s], w.owners); }
    forall p | 0 <= p < |w'.owners| ensures OwnerTabled(p, w'.owners[p], w.signals) {
      if p < o { assert OwnerTabled(p, w.owners[p], w.signals); }
    }
  }

  lemma NewOwnerCounted(w: World)
    requires Tabled(w.owners, w.signals) && Counted(w)
    ensures Counted(NewOwner(w))
  {
    var w', o := NewOwner(w), |w.owners|;
    NoneHeld(w.signals, w.owners, o);
    hide Held, Tabled;
    forall p | 0 <= p < |w'.owners| ensures OwnerCounted(p, w'.owners[p], w.signals) {
      if p < o { assert OwnerCounted(p, w.owners[p], w.signals); }
    }
  }

  lemma NewOwnerHooked(w: World)
    requires Hooked(w)
    ensures Hooked(NewOwner(w))
  {
    hide HookOpen, Internal;
  }

  lemma {:induction false} NoneHeld(signals: seq<Signal>, owners: seq<Owner>, o: nat)
    requires o >= |owners| && forall s | 0 <= s < |signals| :: SignalTabled(s, signals[s], owners)
    ensures Held(signals, o) == 0
  {
    if signals != [] { NoneHeld(signals[..|signals|-1], owners, o); }
  }

  // ---------------------------------------------------------------- events

  predicate OfEmission(ev: Event) {
    ev.Snapped? || ev.Called? || ev.Skipped?
  }

  /** An event of an emission is none of those that tell what is alive. */
  lemma NotedEvents(log: History, ev: Event)
    requires OfEmission(ev)
    ensures (forall h :: Died(h) in log + [ev] <==> Died(h) in log) && (forall h :: HandleFreed(h) in log + [ev] <==> HandleFreed(h) in log)
    ensures forall o :: OwnerGone(o) in log + [ev] <==> OwnerGone(o) in log
    ensures forall s :: SignalFreed(s) in log + [ev] <==> SignalFreed(s) in log
  {}

  lemma NoteRecorded(w: World, ev: Event)
    requires Recorded(w) && OfEmission(ev) && Fits(w.log, ev)
    requires ev.Skipped? ==> w.pins[ev.h] > Skips(w.log, ev.h)
    ensures Recorded(w.(log := w.log + [ev]))
  {
    Append(w.log, ev);
    NotedEvents(w.log, ev);
    hide Genuine, Births, Skips, Fits, Listening, HookOpen;
    var log' := w.log + [ev];
    assert forall h: nat :: w.pins[h] >= Skips(log', h);
  }

  lemma NoteListed(w: World, ev: Event)
    requires Listed(w) && OfEmission(ev)
    ensures Listed(w.(log := w.log + [ev]))
  {
    Append(w.log, ev);
    hide Listening, Attached;
  }

  lemma NoteHooked(w: World, ev: Event)
    requires Hooked(w) && OfEmission(ev)
    ensures Hooked(w.(log := w.log + [ev]))
  {
    Append(w.log, ev);
    hide HookOpen, Internal;
    NotedEvents(w.log, ev);
  }

  lemma NoteInv(w: World, ev: Event)
    requires Inv(w) && OfEmission(ev) && Fits(w.log, ev)
    requires ev.Skipped? ==> w.pins[ev.h] > Skips(w.log, ev.h)
    ensures Inv(w.(log := w.log + [ev]))
  {
    hide Linked, Tabled, Recorded, Listed, Hooked, Fits, Skips;
    NoteRecorded(w, ev);
    NoteListed(w, ev);
    NoteHooked(w, ev);
  }

  // ---------------------------------------------------------------- what foreign code may do meanwhile

  /** What an operation in progress owes: the handle and the object it is destroying, the weak
      references it holds and the emission it has not finished. */
  datatype Debt = Debt(h: int, o: int, held: multiset<nat>, e: int)

  const NONE := Debt(-1, -1, multiset{}, -1)

  ghost predicate HandlesKept(a: seq<Handle>, b: seq<Handle>, x: int) {
    && |a| <= |b|
    && (forall h | 0 <= h < |b| && h != x ::
          if h < |a| && a[h].destroyed then b[h].destroyed && b[h].refs == a[h].refs
          else b[h].destroyed ==> b[h].refs == 0)
  }

  ghost predicate OwnersKept(a: seq<Owner>, b: seq<Owner>, x: int) {
    && |a| <= |b|
    && (forall o | 0 <= o < |b| && o != x ::
          if o < |a| && a[o].destroyed then b[o].destroyed && b[o].refs == a[o].refs
          else b[o].destroyed ==> b[o].refs == 0)
  }

  /** Apart from the skipped handles, every weak reference that was taken is given back. */
  ghost predicate PinsKept(a: World, b: World, held: multiset<nat>) {
    forall h: nat :: b.pins[h] + Skips(a.log, h) == a.pins[h] + Skips(b.log, h) + held[h]
  }

  /** Old emissions get no turns, new ones are finished. */
  ghost predicate TurnsKept(a: History, b: History, e: int) {
    && |a| <= |b| && b[..|a|] == a && Snaps(a) <= Snaps(b)
    && (forall i: nat | i < Snaps(a) :: SnapOf(b, i) == SnapOf(a, i) && Turns(b, i) == Turns(a, i))
    && (forall i: nat | Snaps(a) <= i < Snaps(b) && i != e :: Turns(b, i) == |SnapOf(b, i)|)
  }

  ghost predicate Kept(a: World, b: World, d: Debt) {
    && HandlesKept(a.handles, b.handles, d.h) && OwnersKept(a.owners, b.owners, d.o)
    && PinsKept(a, b, d.held) && TurnsKept(a.log, b.log, d.e)
  }

  lemma KeptSame(a: World)
    ensures Kept(a, a, NONE)
  {}

  lemma KeptTrans(a: World, b: World, c: World, d: Debt)
    requires Kept(a, b, d) && Kept(b, c, NONE)
    requires d.h >= |a.handles| ==> d.h < |b.handles|
    requires 0 <= d.h < |b.handles| ==> b.handles[d.h].destroyed
    requires d.o < |a.owners| && (0 <= d.o ==> b.owners[d.o].destroyed)
    requires d.e < Snaps(b.log)
    ensures Kept(a, c, d)
    ensures |b.owners| <= |c.owners| && |b.handles| <= |c.handles| && Snaps(b.log) <= Snaps(c.log)
    ensures 0 <= d.h < |b.handles| ==> c.handles[d.h].destroyed && c.handles[d.h].refs == b.handles[d.h].refs
    ensures 0 <= d.o ==> c.owners[d.o].destroyed && c.owners[d.o].refs == b.owners[d.o].refs
    ensures 0 <= d.e && Snaps(a.log) <= d.e ==> SnapOf(c.log, d.e) == SnapOf(b.log, d.e) && Turns(c.log, d.e) == Turns(b.log, d.e)
  {
    hide Skips, Snaps, SnapOf, Turns;
    TurnsTrans(a.log, b.log, c.log, d.e);
  }

  lemma TurnsTrans(a: History, b: History, c: History, e: int)
    requires TurnsKept(a, b, e) && TurnsKept(b, c, -1)
    requires e < Snaps(b)
    ensures TurnsKept(a, c, e)
    ensures 0 <= e && Snaps(a) <= e ==> SnapOf(c, e) == SnapOf(b, e) && Turns(c, e) == Turns(b, e)
  {
    hide Snaps, SnapOf, Turns;
    assert c[..|b|][..|a|] == c[..|a|];
  }

  lemma QuietEvent(log: History, ev: Event)
    requires !OfEmission(ev)
    ensures TurnsKept(log, log + [ev], -1) && forall h :: Skips(log + [ev], h) == Skips(log, h)
  {
    Append(log, ev);
    hide Snaps, SnapOf, Turns, Skips;
  }

  lemma QuietNone(log: History)
    ensures TurnsKept(log, log + [], -1) && log + [] == log
  {}

  lemma OpenSignalKept(w: World, o: nat, n: string)
    requires o < |w.owners|
    ensures Kept(w, OpenSignal(w, o, n), NONE)
  {
    QuietEvent(w.log, Opened(o, n));
    QuietNone(w.log);
    hide TurnsKept, Skips;
  }

  lemma AddListenerKept(w: World, s: nat)
    requires s < |w.signals|
    ensures Kept(w, AddListener(w, s), NONE)
  {
    QuietEvent(w.log, Born(|w.handles|, w.signals[s].owner, w.signals[s].name));
    hide TurnsKept, Skips;
  }

  lemma LeaveKept(w: World, h: nat)
    requires h < |w.handles| && w.handles[h].signal < |w.signals| && w.signals[w.handles[h].signal].nlisteners > 0
    ensures Kept(w, Leave(w, h), NONE.(h := h))
  {
    QuietEvent(w.log, Died(h));
    hide TurnsKept, Skips, Without;
  }

  lemma CloseSignalKept(w: World, s: nat)
    requires s < |w.signals| && w.signals[s].owner < |w.owners| && w.owners[w.signals[s].owner].weak > 0
    ensures Kept(w, CloseSignal(w, s), NONE)
  {
    var o, n := w.signals[s].owner, w.signals[s].name;
    QuietEvent(w.log, Closed(o, n));
    QuietEvent(w.log, SignalFreed(s));
    QuietEvent(w.log + [Closed(o, n)], SignalFreed(s));
    TurnsTrans(w.log, w.log + [Closed(o, n)], w.log + [Closed(o, n)] + [SignalFreed(s)], -1);
    QuietNone(w.log);
    hide TurnsKept, Skips;
  }

  /** Changing the counts of a handle that is not being destroyed. */
  lemma TouchKeepsAll(w: World, h: nat, x: Handle)
    requires MayTouch(w, h, x, w.pins) && (x.destroyed ==> x.refs == w.handles[h].refs)
    ensures Kept(w, Touch(w, h, x, w.pins), NONE)
  {
    QuietEvent(w.log, HandleFreed(h));
    QuietNone(w.log);
    hide TurnsKept, Skips, HandleCounted;
  }

  /** The end of a handle's destruction. */
  lemma HandleGone(a: World, b: World, h: nat, x: Handle)
    requires Kept(a, b, NONE.(h := h)) && MayTouch(b, h, x, b.pins)
    requires (h < |a.handles| ==> !a.handles[h].destroyed) && x.refs == 0
    ensures Kept(a, Touch(b, h, x, b.pins), NONE)
  {
    var c := Touch(b, h, x, b.pins);
    QuietEvent(b.log, HandleFreed(h));
    QuietNone(b.log);
    TurnsTrans(a.log, b.log, c.log, -1);
    hide TurnsKept, Skips, HandleCounted;
  }

  lemma TouchOwnerKeeps(w: World, o: nat, x: Owner)
    requires o < |w.owners| && !w.owners[o].destroyed
    ensures !x.destroyed ==> Kept(w, TouchOwner(w, o, x), NONE)
    ensures Kept(w, TouchOwner(w, o, x), NONE.(o := o))
  {
    hide TurnsKept, Skips;
    assert TurnsKept(w.log, w.log, -1) by { QuietNone(w.log); }
  }

  lemma NewOwnerKept(w: World)
    ensures Kept(w, NewOwner(w), NONE)
  {
    hide TurnsKept, Skips;
    assert TurnsKept(w.log, w.log, -1) by { QuietNone(w.log); }
  }

  /** The end of an object's destruction. */
  lemma OwnerFinished(a: World, b: World, o: nat)
    requires Kept(a, b, NONE.(o := o)) && o < |b.owners| && b.owners[o].weak > 0 && b.owners[o].destroyed
    requires o < |a.owners| ==> !a.owners[o].destroyed
    ensures Kept(a, FinishOwner(b, o), NONE)
  {
    QuietEvent(b.log, OwnerGone(o));
    TurnsTrans(a.log, b.log, b.log + [OwnerGone(o)], -1);
    hide TurnsKept, Skips;
  }

  // ---------------------------------------------------------------- emissions in progress

  ghost function Pin(w: World, h: nat): World
    requires h < |w.handles|
  {
    Touch(w, h, w.handles[h].(weak := w.handles[h].weak + 1), w.pins + multiset{h})
  }

  ghost function Unpin(w: World, h: nat): World
    requires h < |w.handles| && w.handles[h].weak > 0
  {
    Touch(w, h, w.handles[h].(weak := w.handles[h].weak - 1), w.pins - multiset{h})
  }

  lemma PinInv(w: World, h: nat)
    requires Inv(w) && h < |w.handles| && !w.handles[h].destroyed
    ensures Inv(Pin(w, h)) && Pin(w, h).log == w.log && w.handles[h].weak > 0
  {
    assert HandleCounted(h, w.handles[h], w.pins) && HandleOk(h, w.handles[h], w.signals);
    hide Linked, Tabled, Counted, Recorded, Listed, Hooked;
    assert w.pins[h] >= Skips(w.log, h) by { PinsCover(w, h); }
    hide Skips;
    TouchInv(w, h, w.handles[h].(weak := w.handles[h].weak + 1), w.pins + multiset{h});
  }

  lemma PinsCover(w: World, h: nat)
    requires Recorded(w)
    ensures w.pins[h] >= Skips(w.log, h)
  {}

  lemma UnpinInv(w: World, h: nat)
    requires Inv(w) && h < |w.handles| && w.pins[h] > Skips(w.log, h)
    ensures w.handles[h].weak > 0 && Inv(Unpin(w, h))
  {
    hide Linked, Tabled, Counted, Recorded, Listed, Hooked, Skips, MayTouch;
    HandleFacts(w, h);
    MayUnpin(w, h);
    TouchInv(w, h, w.handles[h].(weak := w.handles[h].weak - 1), w.pins - multiset{h});
  }

  lemma HandleFacts(w: World, h: nat)
    requires Inv(w) && h < |w.handles|
    ensures HandleCounted(h, w.handles[h], w.pins) && HandleOk(h, w.handles[h], w.signals)
  {}

  lemma MayUnpin(w: World, h: nat)
    requires h < |w.handles| && w.pins[h] > Skips(w.log, h)
    requires HandleCounted(h, w.handles[h], w.pins) && HandleOk(h, w.handles[h], w.signals)
    ensures w.handles[h].weak > 0
    ensures MayTouch(w, h, w.handles[h].(weak := w.handles[h].weak - 1), w.pins - multiset{h})
  {}

  lemma PinKept(a: World, w: World, h: nat, d: Debt)
    requires Kept(a, w, d) && h < |w.handles| && w.handles[h].weak > 0 && d.h < 0
    ensures Kept(a, Pin(w, h), d.(held := d.held + multiset{h}))
  {
    QuietNone(w.log);
    hide TurnsKept, Skips;
  }

  lemma UnpinKept(a: World, w: World, h: nat, d: Debt)
    requires Kept(a, w, d) && h < |w.handles| && w.handles[h].weak > 0 && d.h < 0 && h in d.held && h in w.pins && d.e < Snaps(w.log)
    ensures Kept(a, Unpin(w, h), d.(held := d.held - multiset{h}))
  {
    QuietNone(w.log);
    QuietEvent(w.log, HandleFreed(h));
    TurnsTrans(a.log, w.log, w.log + [HandleFreed(h)], d.e);
    hide TurnsKept, Skips, Snaps;
  }

  lemma UnpinTurns(w: World, h: nat, e: nat)
    requires h < |w.handles| && w.handles[h].weak > 0
    ensures var log := Unpin(w, h).log; SnapOf(log, e) == SnapOf(w.log, e) && Turns(log, e) == Turns(w.log, e) && Snaps(log) == Snaps(w.log)
  {
    QuietNone(w.log);
    Append(w.log, HandleFreed(h));
    hide SnapOf, Turns, Snaps;
  }

  /** The emission begins. */
  lemma SnappedKept(a: World, w: World, o: nat, n: string, held: multiset<nat>)
    requires Kept(a, w, NONE.(held := held)) && a.log == w.log
    ensures var e := Snaps(w.log); var hs := Listening(w.log, o, n); var log := w.log + [Snapped(e, o, n, hs)];
      && Kept(a, w.(log := log), NONE.(held := held, e := e))
      && SnapOf(log, e) == hs && Turns(log, e) == Turns(w.log, e) && Snaps(log) == e + 1
  {
    var e := Snaps(w.log);
    Append(w.log, Snapped(e, o, n, Listening(w.log, o, n)));
    hide Skips, Snaps, Turns, SnapOf, Listening;
  }

  /** A turn of the emission in progress. */
  lemma TurnKept(a: World, w: World, d: Debt, ev: Event)
    requires Kept(a, w, d) && d.e >= 0 && Snaps(a.log) <= d.e && IsTurn(ev, d.e)
    requires ev.Skipped? ==> ev.h in d.held
    ensures Kept(a, w.(log := w.log + [ev]), if ev.Skipped? then d.(held := d.held - multiset{ev.h}) else d)
    ensures SnapOf(w.log + [ev], d.e) == SnapOf(w.log, d.e) && Turns(w.log + [ev], d.e) == Turns(w.log, d.e) + 1
    ensures Snaps(w.log + [ev]) == Snaps(w.log)
  {
    Append(w.log, ev);
    hide Skips, Snaps, Turns, SnapOf;
  }

  /** The emission is over. */
  lemma EmissionOver(a: World, w: World, e: int)
    requires Kept(a, w, NONE.(e := e)) && (0 <= e ==> Turns(w.log, e) == |SnapOf(w.log, e)|)
    ensures Kept(a, w, NONE)
  {
    hide Skips, Snaps, Turns, SnapOf;
  }
}
