/** What can happen to signals, as a history of events, and what a right history is.
    The histories refer to no program state: they are the reference that the signal
    code of object.c is measured against. */
module SignalLog {
  import opened Seqs

  datatype Event =
    | Born(h: nat, o: nat, n: string)               // a listen handle is created for signal `n` of `o`
    | Died(h: nat)                                  // the last strong reference to a handle is dropped
    | HandleFreed(h: nat)
    | Opened(o: nat, n: string)                     // `__new_signal` is called
    | Closed(o: nat, n: string)                     // `__del_signal` is called
    | SignalFreed(s: nat)
    | OwnerGone(o: nat)                             // the destruction of `o` is complete
    | Snapped(e: nat, o: nat, n: string, hs: seq<nat>) // emission `e` copies the listen handles
    | Called(e: nat, h: nat)
    | Skipped(e: nat, h: nat)

  type History = seq<Event>

  predicate Internal(n: string) {
    |n| >= 2 && n[0] == '_' && n[1] == '_'
  }

  // ---------------------------------------------------------------- reading a history

  function Init(log: History): History
    requires log != []
  {
    log[..|log|-1]
  }

  function Last(log: History): Event
    requires log != []
  {
    log[|log|-1]
  }

  /** The handles that listen to signal `n` of `o`, the newest first. */
  function Listening(log: History, o: nat, n: string): seq<nat> {
    if log == [] then [] else ListenStep(Listening(Init(log), o, n), Last(log), o, n)
  }

  function ListenStep(l: seq<nat>, ev: Event, o: nat, n: string): seq<nat> {
    match ev
    case Born(h, o', n') => if o' == o && n' == n then [h] + l else l
    case Died(h) => Without(l, h)
    case _ => l
  }

  /** Was the last hook called for signal `n` of `o` the one that announces it? */
  predicate HookOpen(log: History, o: nat, n: string) {
    log != [] && HookStep(HookOpen(Init(log), o, n), Last(log), o, n)
  }

  predicate HookStep(open: bool, ev: Event, o: nat, n: string) {
    match ev
    case Opened(o', n') => (o' == o && n' == n) || open
    case Closed(o', n') => !(o' == o && n' == n) && open
    case _ => open
  }

  function Births(log: History): nat {
    if log == [] then 0 else Births(Init(log)) + if Last(log).Born? then 1 else 0
  }

  function Snaps(log: History): nat {
    if log == [] then 0 else Snaps(Init(log)) + if Last(log).Snapped? then 1 else 0
  }

  /** The handles that emission `e` copied. */
  function SnapOf(log: History, e: nat): seq<nat> {
    if log == [] then [] else SnapStep(SnapOf(Init(log), e), Last(log), e)
  }

  function SnapStep(hs: seq<nat>, ev: Event, e: nat): seq<nat> {
    if ev.Snapped? && ev.e == e then ev.hs else hs
  }

  predicate IsTurn(ev: Event, e: nat) {
    (ev.Called? || ev.Skipped?) && ev.e == e
  }

  /** How many of the handles that emission `e` copied have had their turn. */
  function Turns(log: History, e: nat): nat {
    if log == [] then 0 else Turns(Init(log), e) + if IsTurn(Last(log), e) then 1 else 0
  }

  /** How many emissions found `h` dead at its turn. */
  function Skips(log: History, h: nat): nat {
    if log == [] then 0 else Skips(Init(log), h) + if Last(log).Skipped? && Last(log).h == h then 1 else 0
  }

  // ---------------------------------------------------------------- right histories

  /** Is `h` next in the emission `e`? */
  predicate OnTurn(log: History, e: nat, h: nat) {
    e < Snaps(log) && Turns(log, e) < |SnapOf(log, e)| && SnapOf(log, e)[Turns(log, e)] == h
  }

  /** May `ev` follow the events of `log`? */
  predicate Fits(log: History, ev: Event) {
    match ev
    case Born(h, o, n) => h == Births(log) && OwnerGone(o) !in log && (!Internal(n) ==> HookOpen(log, o, n))
    case Died(h) => h < Births(log) && Died(h) !in log
    case HandleFreed(h) => Died(h) in log && HandleFreed(h) !in log && Skips(log, h) == 0
    case Opened(o, n) => !Internal(n) && OwnerGone(o) !in log && Listening(log, o, n) == [] && !HookOpen(log, o, n)
    case Closed(o, n) => !Internal(n) && OwnerGone(o) !in log && Listening(log, o, n) == [] && HookOpen(log, o, n)
    case SignalFreed(s) => SignalFreed(s) !in log
    case OwnerGone(o) => OwnerGone(o) !in log
    case Snapped(e, o, n, hs) => e == Snaps(log) && OwnerGone(o) !in log && hs == Listening(log, o, n)
    case Called(e, h) => OnTurn(log, e, h) && Died(h) !in log
    case Skipped(e, h) => OnTurn(log, e, h) && Died(h) in log && HandleFreed(h) !in log
  }

  predicate Genuine(log: History) {
    log == [] || (Genuine(Init(log)) && Fits(Init(log), Last(log)))
  }

  // ---------------------------------------------------------------- one more event

  lemma Append(log: History, ev: Event)
    ensures Genuine(log + [ev]) <==> Genuine(log) && Fits(log, ev)
    ensures forall o, n :: Listening(log + [ev], o, n) == ListenStep(Listening(log, o, n), ev, o, n)
    ensures forall o, n :: HookOpen(log + [ev], o, n) == HookStep(HookOpen(log, o, n), ev, o, n)
    ensures Births(log + [ev]) == Births(log) + if ev.Born? then 1 else 0
    ensures Snaps(log + [ev]) == Snaps(log) + if ev.Snapped? then 1 else 0
    ensures forall e :: SnapOf(log + [ev], e) == SnapStep(SnapOf(log, e), ev, e)
    ensures forall e :: Turns(log + [ev], e) == Turns(log, e) + if IsTurn(ev, e) then 1 else 0
    ensures forall h :: Skips(log + [ev], h) == Skips(log, h) + if ev.Skipped? && ev.h == h then 1 else 0
  {
    assert Init(log + [ev]) == log && Last(log + [ev]) == ev;
  }

  lemma {:induction false} WithoutAbsent(s: seq<nat>, h: nat)
    requires h !in s
    ensures Without(s, h) == s
  {
    if s != [] { WithoutAbsent(s[1..], h); }
  }

  lemma {:induction false} WithoutAt(s: seq<nat>, h: nat)
    requires Distinct(s) && h in s
    ensures |Without(s, h)| == |s| - 1 && Distinct(Without(s, h))
    ensures forall x :: x in Without(s, h) <==> x in s && x != h
  {
    if s[0] == h {
      assert s == [h] + s[1..];
    } else {
      var w := Without(s[1..], h);
      WithoutAt(s[1..], h);
      assert s == [s[0]] + s[1..];
      assert s[0] !in s[1..];
      forall i, j | 0 <= i < j <= |w| ensures ([s[0]] + w)[i] != ([s[0]] + w)[j] {
        assert w[j-1] in w;
      }
    }
  }

  // ---------------------------------------------------------------- what right histories promise

  lemma {:induction false} Prefix(log: History, k: nat)
    requires Genuine(log) && k < |log|
    ensures Genuine(log[..k]) && Fits(log[..k], log[k])
  {
    if k < |log| - 1 {
      Prefix(Init(log), k);
      assert Init(log)[..k] == log[..k];
    }
  }

  /** A listener that was removed before its turn is not called, by any emission. */
  lemma {:induction false} NeverCalledAgain(log: History, i: nat, j: nat, e: nat)
    requires Genuine(log) && i < j < |log| && log[i].Died? && log[j].Called?
    ensures log[j].h != log[i].h
  {
    Prefix(log, j);
    assert log[..j][i] == log[i];
  }

  /** The turns of an emission in order: who was called and who was found dead. */
  function TurnsOf(log: History, e: nat): seq<Event> {
    if log == [] then [] else TurnsOf(Init(log), e) + if IsTurn(Last(log), e) then [Last(log)] else []
  }

  /** Every emission gives the handles it copied their turns in list order, each at most once. */
  lemma {:induction false} TurnsInOrder(log: History, e: nat)
    requires Genuine(log)
    ensures |TurnsOf(log, e)| == Turns(log, e) <= |SnapOf(log, e)|
    ensures forall i | 0 <= i < Turns(log, e) :: IsTurn(TurnsOf(log, e)[i], e) && TurnsOf(log, e)[i].h == SnapOf(log, e)[i]
    ensures e >= Snaps(log) ==> SnapOf(log, e) == [] && Turns(log, e) == 0
  {
    if log != [] {
      TurnsInOrder(Init(log), e);
    }
  }

  /** A handle copied by a finished emission is called exactly if it did not die before its turn. */
  lemma {:induction false} CalledIffAlive(log: History, e: nat, i: nat) returns (k: nat)
    requires Genuine(log) && i < Turns(log, e)
    ensures i < |SnapOf(log, e)| && k < |log| && IsTurn(log[k], e) && log[k].h == SnapOf(log, e)[i]
    ensures Turns(log[..k], e) == i
    ensures log[k].Called? <==> Died(SnapOf(log, e)[i]) !in log[..k]
  {
    TurnsInOrder(log, e);
    var n := |log| - 1;
    if IsTurn(Last(log), e) && i == Turns(log, e) - 1 {
      k := n;
    } else {
      TurnsInOrder(Init(log), e);
      k := CalledIffAlive(Init(log), e, i);
      assert Init(log)[..k] == log[..k];
    }
  }

  /** The hooks of one signal alternate, beginning with `__new_signal`. */
  lemma {:induction false} HooksAlternate(log: History, i: nat, j: nat, o: nat, n: string)
    requires Genuine(log) && i < j < |log|
    requires log[i] == Opened(o, n) && log[j] == Opened(o, n)
    ensures exists k :: i < k < j && log[k] == Closed(o, n)
  {
    Prefix(log, j);
    if forall k | i < k < j :: log[k] != Closed(o, n) {
      StaysOpen(log, i, j, o, n);
    }
  }

  lemma {:induction false} StaysOpen(log: History, i: nat, j: nat, o: nat, n: string)
    requires i < j <= |log| && log[i] == Opened(o, n)
    requires forall k | i < k < j :: log[k] != Closed(o, n)
    ensures HookOpen(log[..j], o, n)
    decreases j
  {
    assert Init(log[..j]) == log[..j-1];
    if j > i + 1 { StaysOpen(log, i, j - 1, o, n); }
  }

  lemma {:induction false} ClosesAlternate(log: History, j: nat, o: nat, n: string)
    requires Genuine(log) && j < |log| && log[j] == Closed(o, n)
    ensures exists i :: 0 <= i < j && log[i] == Opened(o, n) && forall k | i < k < j :: log[k] != Closed(o, n)
  {
    Prefix(log, j);
    var i := LastOpened(log, j, o, n);
  }

  lemma {:induction false} LastOpened(log: History, j: nat, o: nat, n: string) returns (i: nat)
    requires j <= |log| && HookOpen(log[..j], o, n)
    ensures i < j && log[i] == Opened(o, n) && forall k | i < k < j :: log[k] != Closed(o, n)
    decreases j
  {
    assert Init(log[..j]) == log[..j-1];
    if log[j-1] == Opened(o, n) {
      i := j - 1;
    } else {
      i := LastOpened(log, j - 1, o, n);
    }
  }

  /** No hook is called for an owner whose destruction is complete. */
  lemma {:induction false} NoHookAfterDeath(log: History, i: nat, j: nat)
    requires Genuine(log) && i < j < |log| && log[i].OwnerGone? && (log[j].Opened? || log[j].Closed?)
    ensures log[j].o != log[i].o
  {
    Prefix(log, j);
    assert log[..j][i] == log[i];
  }

  /** No signal and no listen handle is freed twice, and a handle not before it died. */
  lemma {:induction false} FreedOnce(log: History, i: nat, j: nat)
    requires Genuine(log) && i < j < |log| && log[i] == log[j]
    ensures !log[i].SignalFreed? && !log[i].HandleFreed? && !log[i].Died? && !log[i].OwnerGone?
  {
    Prefix(log, j);
    assert log[..j][i] == log[i];
  }
}
