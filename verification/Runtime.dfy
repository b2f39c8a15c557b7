/** The object runtime of object.c: strong and weak counts, run-once destructors,
    member tables, and the destruction cascade. */
module Runtime {
  import opened Values

  import Seqs

  datatype Member = Member(name: string, value: Value)

  /** One API call made by foreign code. A destructor, like the whole program, is
      the finite list of the calls it makes; a call whose own contract does not hold
      when it is reached is skipped. */
  datatype Action =
    | New(dtor: Dtor)
    | RefAct(o: Ref)
    | UnrefAct(o: Ref)
    | WeakRefAct(o: Ref)
    | DropWeakAct(o: Ref)
    | UpgradeAct(o: Ref)
    | AddClone(o: Ref, name: string, value: Value)
    | AddMove(o: Ref, name: string, value: Value)
    | Remove(o: Ref, name: string)
    | RawGet(o: Ref, name: string)
    | Finalize(o: Ref)
    | AddRoot(o: Ref)
    | RemoveRoot(id: nat)
    | ReleaseRoots

  type Script = seq<Action>

  datatype Dtor = NoDtor | Runs(script: seq<Action>)

  datatype ObjectState = ObjectState(
    refCount: nat, weakCount: nat, destroyed: bool,
    dtor: Dtor, members: seq<Member>, freed: bool)

  /** A destructor starts, with the member table it finds; foreign code makes a call. */
  datatype Event = Fires(o: Ref, members: seq<Member>) | Calls(a: Action)

  datatype Root = Root(id: nat, obj: Ref)

  /** Who holds the references that no member and no root holds, and how far each
      destruction has come. The program does not keep this record: it decides whether
      foreign code respects the contract of the call it makes, and carries the proof. */
  datatype Book = Book(
    held: multiset<Claim>,      // owned by foreign code
    pending: multiset<Claim>,   // about to be released by the runtime
    guards: multiset<Claim>,    // taken while an object is being finalized
    armed: set<Ref>,            // created with a destructor
    fired: multiset<Ref>,       // destructor runs
    swept: set<Ref>,            // being destroyed, and its members are being removed, or gone
    finished: set<Ref>,         // destruction is complete
    late: set<Ref>,             // swept, and got a member that no running loop will reach
    cursor: map<Ref, Option<string>>,  // the saved `next_m` of each running member loop
    log: seq<Event>)            // what foreign code was called for, and what it called

  // ---------------------------------------------------------------- measures

  ghost function DtorWeight(d: Dtor): nat
    decreases d, 1
  {
    match d
    case NoDtor => 0
    case Runs(script) => 1 + ScriptWeight(script)
  }

  ghost function ScriptWeight(s: Script): nat
    decreases s, 0
  {
    if s == [] then 0 else 1 + ActionWeight(s[0]) + ScriptWeight(s[1..])
  }

  ghost function ActionWeight(a: Action): (w: nat)
    ensures w >= 1
    decreases a, 2
  {
    match a
    case New(d) => 2 + DtorWeight(d)
    case AddClone(_, _, v) => 3 + Size(v)
    case AddMove(_, _, v) => 3 + Size(v)
    case _ => 1
  }

  ghost function MembersWeight(ms: seq<Member>): nat {
    if ms == [] then 0 else 2 + Size(ms[0].value) + MembersWeight(ms[1..])
  }

  ghost function ObjectWeight(o: ObjectState): nat {
    (if o.destroyed then 0 else 1) + DtorWeight(o.dtor) + MembersWeight(o.members)
  }

  /** Undestroyed objects, plus the members still stored, plus the calls that
      destructors have yet to make. */
  ghost function Potential(objs: seq<ObjectState>): nat {
    if objs == [] then 0
    else Potential(objs[..|objs|-1]) + ObjectWeight(objs[|objs|-1])
  }

  // ---------------------------------------------------------------- claims

  ghost function MemberClaims(ms: seq<Member>): multiset<Claim> {
    if ms == [] then multiset{} else Leaves(ms[0].value) + MemberClaims(ms[1..])
  }

  ghost function Edges(objs: seq<ObjectState>): multiset<Claim> {
    if objs == [] then multiset{}
    else Edges(objs[..|objs|-1]) + MemberClaims(objs[|objs|-1].members)
  }

  function RootClaims(roots: seq<Root>): multiset<Claim> {
    if roots == [] then multiset{} else multiset{Strong(roots[0].obj)} + RootClaims(roots[1..])
  }

  /** Every reference that exists. */
  ghost function Owned(objs: seq<ObjectState>, roots: seq<Root>, b: Book): multiset<Claim> {
    b.held + b.pending + b.guards + RootClaims(roots) + Edges(objs)
  }

  lemma {:induction false} UpdateEdges(objs: seq<ObjectState>, i: nat, o: ObjectState)
    requires i < |objs|
    ensures Edges(objs[i := o]) + MemberClaims(objs[i].members) == Edges(objs) + MemberClaims(o.members)
  {
    var n := |objs| - 1;
    var new' := objs[i := o];
    if i < n {
      assert new'[..n] == objs[..n][i := o];
      UpdateEdges(objs[..n], i, o);
      assert Edges(new') == Edges(new'[..n]) + MemberClaims(objs[n].members);
      assert Edges(objs) == Edges(objs[..n]) + MemberClaims(objs[n].members);
      Shuffle(Edges(new'[..n]), MemberClaims(objs[i].members), Edges(objs[..n]),
              MemberClaims(o.members), MemberClaims(objs[n].members));
    } else {
      assert new'[..n] == objs[..n];
    }
  }

  lemma Shuffle<T>(a: multiset<T>, b: multiset<T>, c: multiset<T>, d: multiset<T>, e: multiset<T>)
    requires a + b == c + d
    ensures (a + e) + b == (c + e) + d
  {
    assert (a + e) + b == (a + b) + e;
    assert (c + e) + d == (c + d) + e;
  }

  lemma {:induction false} UpdatePotential(objs: seq<ObjectState>, i: nat, o: ObjectState)
    requires i < |objs|
    ensures Potential(objs[i := o]) + ObjectWeight(objs[i]) == Potential(objs) + ObjectWeight(o)
  {
    var n := |objs| - 1;
    var new' := objs[i := o];
    if i < n {
      assert new'[..n] == objs[..n][i := o];
      UpdatePotential(objs[..n], i, o);
    } else {
      assert new'[..n] == objs[..n];
    }
  }

  lemma AppendObject(objs: seq<ObjectState>, o: ObjectState)
    ensures Edges(objs + [o]) == Edges(objs) + MemberClaims(o.members)
    ensures Potential(objs + [o]) == Potential(objs) + ObjectWeight(o)
  {
    assert (objs + [o])[..|objs|] == objs;
  }

  // ---------------------------------------------------------------- member tables

  function Names(ms: seq<Member>): set<string> {
    set i | 0 <= i < |ms| :: ms[i].name
  }

  ghost predicate Distinct(ms: seq<Member>) {
    forall i, j | 0 <= i < j < |ms| :: ms[i].name != ms[j].name
  }

  /** `di_lookup`: the position of a member. */
  function Find(ms: seq<Member>, name: string): (r: Option<nat>)
    ensures r.Some? ==> r.value < |ms| && ms[r.value].name == name
    ensures r.None? <==> name !in Names(ms)
  {
    if ms == [] then None
    else if ms[0].name == name then Some(0)
    else
      assert forall i | 0 < i < |ms| :: ms[i] == ms[1..][i-1];
      match Find(ms[1..], name) case None => None case Some(i) => Some(i + 1)
  }

  lemma {:induction false} ConcatMembers(a: seq<Member>, b: seq<Member>)
    ensures MemberClaims(a + b) == MemberClaims(a) + MemberClaims(b)
    ensures MembersWeight(a + b) == MembersWeight(a) + MembersWeight(b)
  {
    if a == [] {
      assert a + b == b;
    } else {
      assert (a + b)[1..] == a[1..] + b;
      ConcatMembers(a[1..], b);
    }
  }

  lemma WithoutClaims(ms: seq<Member>, i: nat)
    requires i < |ms|
    ensures MemberClaims(Seqs.Remove(ms, i)) + Leaves(ms[i].value) == MemberClaims(ms)
    ensures MembersWeight(Seqs.Remove(ms, i)) + 2 + Size(ms[i].value) == MembersWeight(ms)
  {
    var a, b := ms[..i], ms[i+1..];
    assert ms == a + ms[i..] && ms[i..][1..] == b;
    ConcatMembers(a, ms[i..]);
    ConcatMembers(a, b);
    assert MemberClaims(ms[i..]) == Leaves(ms[i].value) + MemberClaims(b);
    assert MemberClaims(a) + (Leaves(ms[i].value) + MemberClaims(b))
        == (MemberClaims(a) + MemberClaims(b)) + Leaves(ms[i].value);
  }

  lemma WithoutNames(ms: seq<Member>, i: nat)
    requires i < |ms| && Distinct(ms)
    ensures Names(Seqs.Remove(ms, i)) == Names(ms) - {ms[i].name}
    ensures Distinct(Seqs.Remove(ms, i))
  {
    var w := Seqs.Remove(ms, i);
    assert forall k | 0 <= k < |w| :: w[k] == if k < i then ms[k] else ms[k+1];
    forall n ensures n in Names(w) <==> n in Names(ms) - {ms[i].name} {
      if n in Names(ms) && n != ms[i].name {
        var k :| 0 <= k < |ms| && ms[k].name == n;
        assert w[if k < i then k else k-1].name == n;
      }
    }
  }

  lemma WithMember(ms: seq<Member>, m: Member)
    requires Distinct(ms) && m.name !in Names(ms)
    ensures MemberClaims(ms + [m]) == MemberClaims(ms) + Leaves(m.value)
    ensures MembersWeight(ms + [m]) == MembersWeight(ms) + 2 + Size(m.value)
    ensures Names(ms + [m]) == Names(ms) + {m.name}
    ensures Distinct(ms + [m])
  {
    ConcatMembers(ms, [m]);
    var w := ms + [m];
    forall n | n in Names(ms) + {m.name} ensures n in Names(w) {
      if n in Names(ms) {
        var k :| 0 <= k < |ms| && ms[k].name == n;
        assert w[k].name == n;
      } else {
        assert w[|ms|].name == n;
      }
    }
  }

  // ---------------------------------------------------------------- consistency

  ghost predicate Counts(objs: seq<ObjectState>, owned: multiset<Claim>) {
    forall o | 0 <= o < |objs| ::
      && objs[o].refCount == owned[Strong(o)]
      && objs[o].weakCount == owned[Weak(o)] + if objs[o].refCount > 0 then 1 else 0
  }

  ghost predicate InHeap(objs: seq<ObjectState>, owned: multiset<Claim>) {
    forall c | c in owned :: c.target < |objs|
  }

  ghost predicate Lifecycle(o: Ref, x: ObjectState, b: Book) {
    && (x.refCount == 0 ==> o in b.finished)
    && (x.destroyed && o !in b.finished ==> b.guards[Strong(o)] > 0)
    && (x.freed <==> x.weakCount == 0)
    && (o in b.armed ==> b.fired[o] == if x.dtor.Runs? then 0 else 1)
    && (o !in b.armed ==> x.dtor.NoDtor? && b.fired[o] == 0)
    && (o in b.finished ==> x.dtor.NoDtor? && o in b.swept)
    && (o in b.swept ==> x.destroyed)
  }

  /** The `next_m` that a running member loop of `o` has saved, if any. */
  function Saved(b: Book, o: Ref): Option<string> {
    if o in b.cursor then b.cursor[o] else None
  }

  /** A member loop of `o` has saved the member `name`. */
  predicate Pinned(b: Book, o: Ref, name: string) {
    Saved(b, o) == Some(name)
  }

  ghost predicate Table(o: Ref, x: ObjectState, b: Book) {
    && Distinct(x.members)
    && (o in b.finished && o !in b.late ==> x.members == [])
    && (o in b.cursor ==>
          && b.guards[Strong(o)] > 0
          && (b.cursor[o].Some? ==> b.cursor[o].value in Names(x.members)))
  }

  /** The destructor runs on record. */
  ghost function FiredIn(log: seq<Event>): multiset<Ref> {
    if log == [] then multiset{}
    else match log[|log|-1]
      case Fires(o, _) => FiredIn(log[..|log|-1]) + multiset{o}
      case Calls(_) => FiredIn(log[..|log|-1])
  }

  ghost predicate Domains(n: nat, b: Book) {
    && b.fired == FiredIn(b.log)
    && (forall o | o in b.armed :: o < n)
    && (forall o | o in b.fired :: o < n)
    && (forall o | o in b.swept :: o < n)
    && (forall o | o in b.finished :: o < n)
    && (forall o | o in b.cursor :: o < n)
  }

  /** Both counts of every object are exact, and every object is at a legal point
      of its life. */
  ghost predicate Consistent(objs: seq<ObjectState>, roots: seq<Root>, b: Book) {
    && Counts(objs, Owned(objs, roots, b))
    && InHeap(objs, Owned(objs, roots, b))
    && Domains(|objs|, b)
    && (forall o | 0 <= o < |objs| :: Lifecycle(o, objs[o], b))
    && (forall o | 0 <= o < |objs| :: Table(o, objs[o], b))
  }

  ghost predicate RootIds(roots: seq<Root>, next: nat) {
    && 0 < next
    && (forall i | 0 <= i < |roots| :: 0 < roots[i].id < next)
    && (forall i, j | 0 <= i < j < |roots| :: roots[i].id != roots[j].id)
  }

  /** What a running member loop relies on: the saved member stays first in the table, whatever is
      added behind it; and when none is saved and none is left, none comes back. */
  ghost predicate Heads(saved: Option<string>, before: seq<Member>, after: seq<Member>) {
    match saved
    case Some(name) => before != [] && before[0].name == name ==> after != [] && after[0].name == name
    case None => before == [] ==> after == []
  }

  ghost predicate Advances(x: ObjectState, y: ObjectState) {
    && (x.freed ==> y == x)
    && (x.destroyed ==> y.destroyed)
    && (x.dtor.NoDtor? ==> y.dtor.NoDtor?)
  }

  /** What every step keeps: freed blocks are never touched again, destruction and
      destructor runs are never undone, and running member loops are not disturbed. */
  ghost predicate Keeps(objs: seq<ObjectState>, b: Book, objs': seq<ObjectState>, b': Book) {
    && |objs| <= |objs'|
    && (forall o | 0 <= o < |objs| :: Advances(objs[o], objs'[o]))
    && (forall o | 0 <= o < |objs| && Strong(o) in b.guards :: objs'[o].destroyed == objs[o].destroyed)
    && (forall o | o in b.swept && o !in b'.late && 0 <= o < |objs| :: Heads(Saved(b, o), objs[o].members, objs'[o].members))
    && b'.guards == b.guards
    && b.armed <= b'.armed && b.swept <= b'.swept && b.finished <= b'.finished
    && b.late <= b'.late && b.log <= b'.log
  }

  ghost predicate Progress(objs: seq<ObjectState>, b: Book, objs': seq<ObjectState>, b': Book) {
    Keeps(objs, b, objs', b') && b'.cursor == b.cursor
  }

  lemma KeepsTrans(objs: seq<ObjectState>, b: Book, objs': seq<ObjectState>, b': Book,
                   objs'': seq<ObjectState>, b'': Book)
    requires Keeps(objs, b, objs', b') && Keeps(objs', b', objs'', b'') && b'.cursor == b.cursor
    ensures Keeps(objs, b, objs'', b'')
  {
    forall o | 0 <= o < |objs| ensures Advances(objs[o], objs''[o]) {
      assert Advances(objs[o], objs'[o]) && Advances(objs'[o], objs''[o]);
    }
    forall o | o in b.swept && o !in b''.late && 0 <= o < |objs|
      ensures Heads(Saved(b, o), objs[o].members, objs''[o].members)
    {
      assert Heads(Saved(b, o), objs[o].members, objs'[o].members);
      assert Heads(Saved(b', o), objs'[o].members, objs''[o].members);
    }
  }

  // ---------------------------------------------------------------- the event log

  /** The calls of a script appear in the log, in order, from position `from` on. */
  ghost predicate Made(from: nat, log: seq<Event>, script: Script)
    decreases |script|
  {
    script == [] ||
    exists k | from <= k < |log| ::
      log[k] == Calls(script[|script|-1]) && Made(from, log[..k], script[..|script|-1])
  }

  lemma MadeGrows(from: nat, log: seq<Event>, log': seq<Event>, script: Script)
    requires Made(from, log, script) && log <= log'
    ensures Made(from, log', script)
  {
    if script != [] {
      var k :| from <= k < |log| && log[k] == Calls(script[|script|-1]) && Made(from, log[..k], script[..|script|-1]);
      assert log'[..k] == log[..k];
    }
  }

  lemma MadeNone(from: nat, log: seq<Event>, script: Script)
    ensures Made(from, log, script[..0])
  {}

  lemma MadeOne(from: nat, log: seq<Event>, log': seq<Event>, script: Script, i: nat)
    requires i < |script| && from <= |log| < |log'| && log <= log'
    requires Made(from, log, script[..i]) && log'[|log|] == Calls(script[i])
    ensures Made(from, log', script[..i+1])
  {
    assert log'[..|log|] == log;
    var done := script[..i+1];
    assert done[..|done|-1] == script[..i] && done[|done|-1] == script[i];
  }

  /** The destructor of `x`, if it had one, ran: first of all, with the member table
      still in place, and it made all its calls. */
  ghost predicate DtorRan(o: Ref, x: ObjectState, log: seq<Event>, log': seq<Event>) {
    x.dtor.Runs? ==>
      && |log| < |log'| && log <= log' && log'[|log|] == Fires(o, x.members)
      && Made(|log| + 1, log', x.dtor.script)
  }

  lemma DtorRanGrows(o: Ref, x: ObjectState, log: seq<Event>, log': seq<Event>, log'': seq<Event>)
    requires DtorRan(o, x, log, log') && log' <= log''
    ensures DtorRan(o, x, log, log'')
  {
    if x.dtor.Runs? { MadeGrows(|log| + 1, log', log'', x.dtor.script); }
  }

  lemma DtorRanSame(o: Ref, x: ObjectState, y: ObjectState, log: seq<Event>, log': seq<Event>)
    requires DtorRan(o, x, log, log') && x.dtor == y.dtor && x.members == y.members
    ensures DtorRan(o, y, log, log')
  {}

  // ---------------------------------------------------------------- counting

  /** All counts raised by the references in `claims`. */
  ghost function Raised(objs: seq<ObjectState>, claims: multiset<Claim>): (r: seq<ObjectState>)
    ensures |r| == |objs|
  {
    seq(|objs|, o requires 0 <= o < |objs| => objs[o].(
      refCount := objs[o].refCount + claims[Strong(o)],
      weakCount := objs[o].weakCount + claims[Weak(o)]))
  }

  /** Replacing one object by one with the same members. */
  lemma SameMembers(objs: seq<ObjectState>, i: nat, x: ObjectState)
    requires i < |objs| && x.members == objs[i].members
    ensures Edges(objs[i := x]) == Edges(objs)
    ensures Potential(objs[i := x]) + ObjectWeight(objs[i]) == Potential(objs) + ObjectWeight(x)
  {
    UpdateEdges(objs, i, x);
    UpdatePotential(objs, i, x);
    Cancel(Edges(objs[i := x]), Edges(objs), MemberClaims(x.members));
  }

  lemma Cancel<T>(a: multiset<T>, b: multiset<T>, c: multiset<T>)
    requires a + c == b + c
    ensures a == b
  {
    assert a == (a + c) - c && b == (b + c) - c;
  }

  lemma Parts(objs: seq<ObjectState>, roots: seq<Root>, b: Book, i: Ref)
    requires Consistent(objs, roots, b) && i < |objs|
    ensures Counts(objs, Owned(objs, roots, b)) && InHeap(objs, Owned(objs, roots, b))
    ensures Lifecycle(i, objs[i], b) && Table(i, objs[i], b)
  {}

  /** The other objects do not notice a change of the book. */
  ghost predicate Unnoticed(objs: seq<ObjectState>, b: Book, i: nat, b': Book) {
    && Domains(|objs|, b')
    && (forall o | 0 <= o < |objs| && o != i :: Lifecycle(o, objs[o], b) ==> Lifecycle(o, objs[o], b'))
    && (forall o | 0 <= o < |objs| && o != i :: Table(o, objs[o], b) ==> Table(o, objs[o], b'))
  }

  /** Consistency is restored when one object and the book change together. */
  lemma OneObject(objs: seq<ObjectState>, roots: seq<Root>, b: Book, i: nat, x: ObjectState, roots': seq<Root>, b': Book)
    requires i < |objs| && Consistent(objs, roots, b)
    requires Counts(objs[i := x], Owned(objs[i := x], roots', b'))
    requires InHeap(objs[i := x], Owned(objs[i := x], roots', b'))
    requires Unnoticed(objs, b, i, b')
    requires Lifecycle(i, x, b') && Table(i, x, b')
    ensures Consistent(objs[i := x], roots', b')
  {
    hide Lifecycle, Table, Counts, InHeap, Owned;
    var objs' := objs[i := x];
    forall o | 0 <= o < |objs'| ensures Lifecycle(o, objs'[o], b') && Table(o, objs'[o], b') {
      assert o != i ==> Lifecycle(o, objs[o], b) && Table(o, objs[o], b);
    }
  }

  /** Books that agree on everything an object's life and table depend on. */
  lemma SameLives(objs: seq<ObjectState>, roots: seq<Root>, b: Book, i: nat, b': Book)
    requires b' == b.(held := b'.held, pending := b'.pending) && Consistent(objs, roots, b)
    ensures Unnoticed(objs, b, i, b')
  {
    hide Lifecycle, Table, Counts, InHeap, Owned;
    forall o | 0 <= o < |objs| && o != i { SameLife(o, objs[o], b, b'); }
  }

  lemma SameLife(o: Ref, x: ObjectState, b: Book, b': Book)
    requires b'.guards == b.guards && b'.cursor == b.cursor && b'.armed == b.armed
    requires b'.swept == b.swept && b'.finished == b.finished && b.late <= b'.late
    requires b'.fired[o] == b.fired[o]
    ensures Lifecycle(o, x, b) ==> Lifecycle(o, x, b')
    ensures Table(o, x, b) ==> Table(o, x, b')
  {}

  lemma RaisedOne(objs: seq<ObjectState>, c: Claim)
    requires c.target < |objs|
    ensures Raised(objs, multiset{c}) == objs[c.target := Up(objs[c.target], c)]
  {
    var one := multiset{c};
    var r := Raised(objs, one);
    forall o | 0 <= o < |objs| && o != c.target ensures r[o] == objs[o] {
      assert one[Strong(o)] == 0 && one[Weak(o)] == 0;
    }
    assert one[c] == 1;
  }

  ghost function Up(x: ObjectState, c: Claim): ObjectState {
    if c.Strong? then x.(refCount := x.refCount + 1) else x.(weakCount := x.weakCount + 1)
  }

  ghost function WeakDown(x: ObjectState): ObjectState
    requires x.weakCount > 0
  {
    x.(weakCount := x.weakCount - 1, freed := x.weakCount == 1)
  }

  /** Counts stay exact when one object and the references to it change together. */
  lemma CountsAt(objs: seq<ObjectState>, owned: multiset<Claim>, i: nat, x: ObjectState, owned': multiset<Claim>)
    requires i < |objs| && Counts(objs, owned)
    requires x.refCount == owned'[Strong(i)]
    requires x.weakCount == owned'[Weak(i)] + if x.refCount > 0 then 1 else 0
    requires forall c: Claim | c.target != i :: owned'[c] == owned[c]
    ensures Counts(objs[i := x], owned')
  {
    forall o | 0 <= o < |objs| && o != i
      ensures owned'[Strong(o)] == owned[Strong(o)] && owned'[Weak(o)] == owned[Weak(o)]
    {}
  }

  lemma ProgressOne(objs: seq<ObjectState>, b: Book, i: nat, x: ObjectState, b': Book)
    requires i < |objs| && Advances(objs[i], x)
    requires i in b.swept && i !in b'.late ==> Heads(Saved(b, i), objs[i].members, x.members)
    requires b'.guards == b.guards && b'.cursor == b.cursor
    requires b.armed <= b'.armed && b.swept <= b'.swept && b.finished <= b'.finished
    requires b.late <= b'.late && b.log <= b'.log
    requires Strong(i) in b.guards ==> x.destroyed == objs[i].destroyed
    ensures Progress(objs, b, objs[i := x], b')
  {}

  function Plus(b: Book, c: Claim): Book {
    b.(pending := b.pending + multiset{c})
  }

  function Minus(b: Book, c: Claim): Book {
    b.(pending := b.pending - multiset{c})
  }

  lemma OwnedPlus(objs: seq<ObjectState>, roots: seq<Root>, b: Book, i: nat, x: ObjectState, c: Claim)
    requires i < |objs| && x.members == objs[i].members
    ensures Owned(objs[i := x], roots, Plus(b, c)) == Owned(objs, roots, b) + multiset{c}
  {
    SameMembers(objs, i, x);
  }

  lemma OwnedMinus(objs: seq<ObjectState>, roots: seq<Root>, b: Book, i: nat, x: ObjectState, c: Claim)
    requires i < |objs| && x.members == objs[i].members && c in b.pending
    ensures Owned(objs[i := x], roots, Minus(b, c)) + multiset{c} == Owned(objs, roots, b)
  {
    SameMembers(objs, i, x);
    assert b.pending == Minus(b, c).pending + multiset{c};
  }

  lemma CountsPlus(objs: seq<ObjectState>, owned: multiset<Claim>, c: Claim)
    requires Counts(objs, owned) && InHeap(objs, owned) && c.target < |objs|
    requires c.Strong? ==> objs[c.target].refCount > 0
    ensures Counts(objs[c.target := Up(objs[c.target], c)], owned + multiset{c})
    ensures InHeap(objs[c.target := Up(objs[c.target], c)], owned + multiset{c})
  {
    CountsAt(objs, owned, c.target, Up(objs[c.target], c), owned + multiset{c});
  }

  /** One new reference raises the count of its target. */
  lemma CountUp(objs: seq<ObjectState>, roots: seq<Root>, b: Book, c: Claim)
    requires Consistent(objs, roots, b) && c.target < |objs|
    requires if c.Strong? then objs[c.target].refCount > 0 else objs[c.target].weakCount > 0
    ensures Consistent(Raised(objs, multiset{c}), roots, Plus(b, c))
    ensures Potential(Raised(objs, multiset{c})) == Potential(objs)
    ensures Progress(objs, b, Raised(objs, multiset{c}), Plus(b, c))
  {
    hide Consistent, Counts, InHeap, Owned, Unnoticed, Potential, Progress, Edges, Heads, Raised;
    var i, x := c.target, Up(objs[c.target], c);
    RaisedOne(objs, c);
    SameMembers(objs, i, x);
    Parts(objs, roots, b, i);
    OwnedPlus(objs, roots, b, i, x, c);
    CountsPlus(objs, Owned(objs, roots, b), c);
    SameLives(objs, roots, b, i, Plus(b, c));
    Reflexive(Saved(b, i), x.members);
    ProgressOne(objs, b, i, x, Plus(b, c));
    OneObject(objs, roots, b, i, x, roots, Plus(b, c));
  }

  lemma Reflexive(saved: Option<string>, ms: seq<Member>)
    ensures Heads(saved, ms, ms)
  {}

  /** Dropping a weak reference lowers the count of its target, and frees the
      block exactly when that was the last one. */
  lemma DropWeak(objs: seq<ObjectState>, roots: seq<Root>, b: Book, i: Ref)
    requires Consistent(objs, roots, b) && Weak(i) in b.pending
    ensures i < |objs| && !objs[i].freed && objs[i].weakCount > 0
    ensures Consistent(objs[i := WeakDown(objs[i])], roots, Minus(b, Weak(i)))
    ensures Progress(objs, b, objs[i := WeakDown(objs[i])], Minus(b, Weak(i)))
    ensures Potential(objs[i := WeakDown(objs[i])]) == Potential(objs)
    ensures objs[i].weakCount > 1 ==> objs == Raised(objs[i := WeakDown(objs[i])], multiset{Weak(i)})
  {
    hide Consistent, Owned, Unnoticed, Potential, Progress, Edges, Heads, Raised;
    assert i < |objs| && objs[i].weakCount > 0 by { WeakTarget(objs, roots, b, i); }
    Parts(objs, roots, b, i);
    var x := WeakDown(objs[i]);
    SameMembers(objs, i, x);
    OwnedMinus(objs, roots, b, i, x, Weak(i));
    var owned, owned' := Owned(objs, roots, b), Owned(objs[i := x], roots, Minus(b, Weak(i)));
    CountsAt(objs, owned, i, x, owned');
    SameLives(objs, roots, b, i, Minus(b, Weak(i)));
    Reflexive(Saved(b, i), x.members);
    ProgressOne(objs, b, i, x, Minus(b, Weak(i)));
    OneObject(objs, roots, b, i, x, roots, Minus(b, Weak(i)));
    RaisedOne(objs[i := x], Weak(i));
    assert objs[i].weakCount > 1 ==> objs[i := x][i := Up(x, Weak(i))] == objs;
  }

  lemma WeakTarget(objs: seq<ObjectState>, roots: seq<Root>, b: Book, i: Ref)
    requires Consistent(objs, roots, b) && Weak(i) in b.pending
    ensures i < |objs| && objs[i].weakCount > 0
  {
    assert Weak(i) in Owned(objs, roots, b);
  }

  lemma StrongTarget(objs: seq<ObjectState>, roots: seq<Root>, b: Book, i: Ref)
    requires Consistent(objs, roots, b) && Strong(i) in b.held + b.pending + b.guards
    ensures i < |objs| && objs[i].refCount > 0 && objs[i].weakCount > 0 && !objs[i].freed
    ensures Strong(i) in b.pending && objs[i].refCount == 1 ==> Strong(i) !in b.guards
  {
    var owned := Owned(objs, roots, b);
    assert Strong(i) in owned && owned[Strong(i)] >= b.pending[Strong(i)] + b.guards[Strong(i)];
    Parts(objs, roots, b, i);
  }

  ghost function StrongDown(x: ObjectState): ObjectState
    requires x.refCount > 0
  {
    x.(refCount := x.refCount - 1)
  }

  /** Dropping a strong reference that is not the last one. */
  lemma DropStrong(objs: seq<ObjectState>, roots: seq<Root>, b: Book, i: Ref)
    requires Consistent(objs, roots, b) && Strong(i) in b.pending
    requires i < |objs| && objs[i].refCount > 1
    ensures Consistent(objs[i := StrongDown(objs[i])], roots, Minus(b, Strong(i)))
    ensures Progress(objs, b, objs[i := StrongDown(objs[i])], Minus(b, Strong(i)))
    ensures Potential(objs[i := StrongDown(objs[i])]) == Potential(objs)
    ensures objs == Raised(objs[i := StrongDown(objs[i])], multiset{Strong(i)})
  {
    hide Consistent, Owned, Unnoticed, Potential, Progress, Edges, Heads, Raised;
    Parts(objs, roots, b, i);
    var x := StrongDown(objs[i]);
    SameMembers(objs, i, x);
    OwnedMinus(objs, roots, b, i, x, Strong(i));
    var owned, owned' := Owned(objs, roots, b), Owned(objs[i := x], roots, Minus(b, Strong(i)));
    CountsAt(objs, owned, i, x, owned');
    SameLives(objs, roots, b, i, Minus(b, Strong(i)));
    Reflexive(Saved(b, i), x.members);
    ProgressOne(objs, b, i, x, Minus(b, Strong(i)));
    OneObject(objs, roots, b, i, x, roots, Minus(b, Strong(i)));
    RaisedOne(objs[i := x], Strong(i));
    assert objs[i := x][i := Up(x, Strong(i))] == objs;
  }

  ghost function Gone(x: ObjectState): ObjectState
    requires x.weakCount > 0
  {
    WeakDown(x.(refCount := 0))
  }

  /** Dropping the last strong reference to an object whose destruction is over:
      the implicit weak reference goes too. */
  lemma DropLast(objs: seq<ObjectState>, roots: seq<Root>, b: Book, i: Ref)
    requires Consistent(objs, roots, b) && Strong(i) in b.pending
    requires i < |objs| && objs[i].refCount == 1 && objs[i].destroyed && objs[i].weakCount > 0
    ensures Consistent(objs[i := Gone(objs[i])], roots, Minus(b, Strong(i)))
    ensures Progress(objs, b, objs[i := Gone(objs[i])], Minus(b, Strong(i)))
    ensures Potential(objs[i := Gone(objs[i])]) == Potential(objs)
  {
    hide Consistent, Owned, Unnoticed, Potential, Progress, Edges, Heads;
    Parts(objs, roots, b, i);
    StrongTarget(objs, roots, b, i);
    var x := Gone(objs[i]);
    SameMembers(objs, i, x);
    OwnedMinus(objs, roots, b, i, x, Strong(i));
    var owned, owned' := Owned(objs, roots, b), Owned(objs[i := x], roots, Minus(b, Strong(i)));
    CountsAt(objs, owned, i, x, owned');
    SameLives(objs, roots, b, i, Minus(b, Strong(i)));
    Reflexive(Saved(b, i), x.members);
    ProgressOne(objs, b, i, x, Minus(b, Strong(i)));
    OneObject(objs, roots, b, i, x, roots, Minus(b, Strong(i)));
  }

  /** Only the split of the references between their holders changes. */
  lemma Rebook(objs: seq<ObjectState>, roots: seq<Root>, b: Book, roots': seq<Root>, b': Book)
    requires Consistent(objs, roots, b)
    requires Owned(objs, roots', b') == Owned(objs, roots, b)
    requires b' == b.(held := b'.held, pending := b'.pending)
    ensures Consistent(objs, roots', b') && Progress(objs, b, objs, b')
  {
    hide Owned, Counts, InHeap, Heads;
    forall o | 0 <= o < |objs| ensures Lifecycle(o, objs[o], b') && Table(o, objs[o], b') {
      assert Lifecycle(o, objs[o], b) && Table(o, objs[o], b);
    }
    forall o | 0 <= o < |objs| ensures Heads(Saved(b, o), objs[o].members, objs[o].members) {
      Reflexive(Saved(b, o), objs[o].members);
    }
  }

  lemma GuardOwned(objs: seq<ObjectState>, roots: seq<Root>, b: Book, b': Book, c: multiset<Claim>)
    requires b.pending == b'.pending + c && b'.guards == b.guards + c && b'.held == b.held
    ensures Owned(objs, roots, b') == Owned(objs, roots, b)
  {
    assert b.pending + b.guards == b'.pending + b'.guards;
    assert b.held + b.pending + b.guards == b.held + (b.pending + b.guards);
    assert b'.held + b'.pending + b'.guards == b.held + (b'.pending + b'.guards);
  }

  function WithGuard(b: Book, o: Ref): Book {
    b.(guards := b.guards + multiset{Strong(o)})
  }

  ghost function Guarded(b: Book, o: Ref): Book {
    WithGuard(Minus(b, Strong(o)), o)
  }

  /** A reference becomes a guard. */
  lemma Guard(objs: seq<ObjectState>, roots: seq<Root>, b: Book, o: Ref)
    requires Consistent(objs, roots, b) && Strong(o) in b.pending
    ensures Consistent(objs, roots, Guarded(b, o))
  {
    hide Counts, InHeap, Owned;
    var b' := Guarded(b, o);
    GuardOwned(objs, roots, b, b', multiset{Strong(o)});
    forall p | 0 <= p < |objs| ensures Lifecycle(p, objs[p], b') && Table(p, objs[p], b') {
      assert Lifecycle(p, objs[p], b) && Table(p, objs[p], b);
    }
  }

  function Unguarded(b: Book, o: Ref): Book {
    b.(pending := b.pending + multiset{Strong(o)}, guards := b.guards - multiset{Strong(o)})
  }

  /** A guard becomes a reference that is about to be released. */
  lemma Unguard(objs: seq<ObjectState>, roots: seq<Root>, b: Book, o: Ref)
    requires Consistent(objs, roots, b) && Strong(o) in b.guards && o < |objs|
    requires o in b.cursor || (objs[o].destroyed && o !in b.finished) ==> b.guards[Strong(o)] > 1
    ensures Consistent(objs, roots, Unguarded(b, o))
  {
    hide Counts, InHeap, Owned;
    var b' := Unguarded(b, o);
    GuardOwned(objs, roots, b', b, multiset{Strong(o)});
    forall p | 0 <= p < |objs| ensures Lifecycle(p, objs[p], b') && Table(p, objs[p], b') {
      assert Lifecycle(p, objs[p], b) && Table(p, objs[p], b);
    }
  }

  function Finished(b: Book, o: Ref): Book {
    b.(finished := b.finished + {o})
  }

  lemma SweptClean(objs: seq<ObjectState>, roots: seq<Root>, b: Book, o: Ref)
    requires Consistent(objs, roots, b) && o < |objs| && o in b.finished
    ensures objs[o].destroyed && (o !in b.late ==> objs[o].members == [])
  {
    Parts(objs, roots, b, o);
  }

  /** The end of a destruction. */
  lemma Finish(objs: seq<ObjectState>, roots: seq<Root>, b: Book, o: Ref)
    requires Consistent(objs, roots, b) && o < |objs|
    requires objs[o].destroyed && objs[o].dtor.NoDtor? && o in b.swept
    requires o !in b.late ==> objs[o].members == []
    ensures Consistent(objs, roots, Finished(b, o))
  {
    hide Counts, InHeap;
    assert Owned(objs, roots, Finished(b, o)) == Owned(objs, roots, b);
    hide Owned;
    forall p | 0 <= p < |objs| ensures Lifecycle(p, objs[p], Finished(b, o)) && Table(p, objs[p], Finished(b, o)) {
      assert Lifecycle(p, objs[p], b) && Table(p, objs[p], b);
    }
  }

  /** Setting the `destroyed` flag of a guarded object. */
  lemma MarkDestroyed(objs: seq<ObjectState>, roots: seq<Root>, b: Book, o: Ref)
    requires Consistent(objs, roots, b) && o < |objs|
    requires !objs[o].destroyed && Strong(o) in b.guards
    ensures Consistent(objs[o := objs[o].(destroyed := true)], roots, b)
    ensures Potential(objs[o := objs[o].(destroyed := true)]) == Potential(objs) - 1
  {
    hide Consistent, Owned, Unnoticed, Potential, Edges;
    var x := objs[o].(destroyed := true);
    Parts(objs, roots, b, o);
    SameMembers(objs, o, x);
    assert Owned(objs[o := x], roots, b) == Owned(objs, roots, b) by { SameOwned(objs, roots, b, o, x); }
    CountsAt(objs, Owned(objs, roots, b), o, x, Owned(objs[o := x], roots, b));
    SameLives(objs, roots, b, o, b);
    OneObject(objs, roots, b, o, x, roots, b);
  }

  lemma SameOwned(objs: seq<ObjectState>, roots: seq<Root>, b: Book, i: nat, x: ObjectState)
    requires i < |objs| && x.members == objs[i].members
    ensures Owned(objs[i := x], roots, b) == Owned(objs, roots, b)
  {
    SameMembers(objs, i, x);
  }

  function Fired(b: Book, o: Ref, ms: seq<Member>): Book {
    b.(fired := b.fired + multiset{o}, log := b.log + [Fires(o, ms)])
  }

  /** Clearing the destructor field, just before the destructor runs. */
  lemma TakeDtor(objs: seq<ObjectState>, roots: seq<Root>, b: Book, o: Ref)
    requires Consistent(objs, roots, b) && o < |objs| && objs[o].dtor.Runs?
    ensures Consistent(objs[o := objs[o].(dtor := NoDtor)], roots, Fired(b, o, objs[o].members))
    ensures Progress(objs, b, objs[o := objs[o].(dtor := NoDtor)], Fired(b, o, objs[o].members))
    ensures Potential(objs[o := objs[o].(dtor := NoDtor)]) + DtorWeight(objs[o].dtor) == Potential(objs)
  {
    hide Consistent, Owned, Unnoticed, Potential, Edges, Progress, Heads;
    var x := objs[o].(dtor := NoDtor);
    Parts(objs, roots, b, o);
    SameMembers(objs, o, x);
    assert Owned(objs[o := x], roots, Fired(b, o, objs[o].members)) == Owned(objs, roots, b) by {
      SameOwned(objs, roots, b, o, x);
      FiredOwned(objs[o := x], roots, b, o);
    }
    CountsAt(objs, Owned(objs, roots, b), o, x, Owned(objs[o := x], roots, Fired(b, o, objs[o].members)));
    assert Unnoticed(objs, b, o, Fired(b, o, objs[o].members)) by { FiredUnnoticed(objs, roots, b, o); }
    Reflexive(Saved(b, o), x.members);
    ProgressOne(objs, b, o, x, Fired(b, o, objs[o].members));
    OneObject(objs, roots, b, o, x, roots, Fired(b, o, objs[o].members));
  }

  lemma FiredOwned(objs: seq<ObjectState>, roots: seq<Root>, b: Book, o: Ref)
    requires o < |objs|
    ensures Owned(objs, roots, Fired(b, o, objs[o].members)) == Owned(objs, roots, b)
  {}

  lemma FiredUnnoticed(objs: seq<ObjectState>, roots: seq<Root>, b: Book, o: Ref)
    requires Consistent(objs, roots, b) && o < |objs|
    ensures Unnoticed(objs, b, o, Fired(b, o, objs[o].members))
  {
    hide Lifecycle, Table, Counts, InHeap, Owned;
    var b' := Fired(b, o, objs[o].members);
    assert b'.log[..|b.log|] == b.log && b'.log[|b.log|] == Fires(o, objs[o].members);
    forall p | 0 <= p < |objs| && p != o { SameLife(p, objs[p], b, b'); }
  }

  /** The removal of the members of a destroyed object begins. */
  lemma BeginSweep(objs: seq<ObjectState>, roots: seq<Root>, b: Book, o: Ref)
    requires Consistent(objs, roots, b) && o < |objs| && objs[o].destroyed
    ensures Consistent(objs, roots, b.(swept := b.swept + {o}))
    ensures Progress(objs, b, objs, b.(swept := b.swept + {o}))
  {
    hide Counts, InHeap, Heads;
    var b' := b.(swept := b.swept + {o});
    assert Owned(objs, roots, b') == Owned(objs, roots, b);
    hide Owned;
    forall p | 0 <= p < |objs|
      ensures Lifecycle(p, objs[p], b') && Table(p, objs[p], b') && Heads(Saved(b, p), objs[p].members, objs[p].members)
    {
      assert Lifecycle(p, objs[p], b) && Table(p, objs[p], b);
      Reflexive(Saved(b, p), objs[p].members);
    }
  }

  /** A member loop saves its next member, or ends. */
  lemma SetCursor(objs: seq<ObjectState>, roots: seq<Root>, b: Book, o: Ref, c: map<Ref, Option<string>>)
    requires Consistent(objs, roots, b) && o < |objs| && Strong(o) in b.guards
    requires c.Keys <= b.cursor.Keys + {o}
    requires forall p | p in c && p != o :: p in b.cursor && c[p] == b.cursor[p]
    requires o in c && c[o].Some? ==> c[o].value in Names(objs[o].members)
    ensures Consistent(objs, roots, b.(cursor := c))
  {
    hide Counts, InHeap, Heads;
    var b' := b.(cursor := c);
    assert Owned(objs, roots, b') == Owned(objs, roots, b);
    hide Owned;
    forall p | 0 <= p < |objs| ensures Lifecycle(p, objs[p], b') && Table(p, objs[p], b') {
      assert Lifecycle(p, objs[p], b) && Table(p, objs[p], b);
    }
  }

  lemma TableOwned(objs: seq<ObjectState>, roots: seq<Root>, b: Book, i: nat, x: ObjectState, b': Book,
                   more: multiset<Claim>, less: multiset<Claim>)
    requires i < |objs| && b.held == b'.held && b.guards == b'.guards
    requires MemberClaims(x.members) + less == MemberClaims(objs[i].members) + more
    requires b'.pending + more == b.pending + less
    ensures Owned(objs[i := x], roots, b') == Owned(objs, roots, b)
  {
    UpdateEdges(objs, i, x);
    var e, e' := Edges(objs), Edges(objs[i := x]);
    var m, m' := MemberClaims(objs[i].members), MemberClaims(x.members);
    assert (e' + b'.pending) + (m + more) == (e + b.pending) + (m + more) by {
      assert (e' + b'.pending) + (m + more) == (e' + m) + (b'.pending + more);
      assert (e + b.pending) + (m + more) == (e + m') + (b.pending + less);
    }
    Cancel(e' + b'.pending, e + b.pending, m + more);
    assert Owned(objs[i := x], roots, b') == (e' + b'.pending) + (b.held + b.guards + RootClaims(roots));
    assert Owned(objs, roots, b) == (e + b.pending) + (b.held + b.guards + RootClaims(roots));
  }

  ghost function Dropped(x: ObjectState, j: nat): ObjectState
    requires j < |x.members|
  {
    x.(members := Seqs.Remove(x.members, j))
  }

  function Released(b: Book, v: Value): Book {
    b.(pending := b.pending + Leaves(v))
  }

  /** Unlinking a member: its references are now about to be released. */
  lemma Unlink(objs: seq<ObjectState>, roots: seq<Root>, b: Book, o: Ref, j: nat)
    requires Consistent(objs, roots, b) && o < |objs| && j < |objs[o].members|
    requires !objs[o].freed && !Pinned(b, o, objs[o].members[j].name)
    ensures var b' := Released(b, objs[o].members[j].value);
      Consistent(objs[o := Dropped(objs[o], j)], roots, b') && Progress(objs, b, objs[o := Dropped(objs[o], j)], b')
    ensures Potential(objs[o := Dropped(objs[o], j)]) + 2 + Size(objs[o].members[j].value) == Potential(objs)
    ensures Names(Dropped(objs[o], j).members) == Names(objs[o].members) - {objs[o].members[j].name}
  {
    hide Consistent, Owned, Unnoticed, Potential, Edges, Progress, Heads;
    var x, m := Dropped(objs[o], j), objs[o].members[j];
    var b' := Released(b, m.value);
    Parts(objs, roots, b, o);
    WithoutNames(objs[o].members, j);
    WithoutClaims(objs[o].members, j);
    UpdatePotential(objs, o, x);
    TableOwned(objs, roots, b, o, x, b', multiset{}, Leaves(m.value));
    CountsAt(objs, Owned(objs, roots, b), o, x, Owned(objs[o := x], roots, b'));
    SameLives(objs, roots, b, o, b');
    WithoutHeads(Saved(b, o), objs[o].members, j);
    ProgressOne(objs, b, o, x, b');
    OneObject(objs, roots, b, o, x, roots, b');
  }

  lemma WithoutHeads(saved: Option<string>, ms: seq<Member>, j: nat)
    requires j < |ms| && saved != Some(ms[j].name)
    ensures Heads(saved, ms, Seqs.Remove(ms, j))
  {}

  ghost function Extended(x: ObjectState, m: Member): ObjectState {
    x.(members := x.members + [m])
  }

  /** A new member goes to the end of the table. A loop with a saved member still comes to it; if
      the members of a destroyed object are swept and none is saved, nothing will remove it. */
  function LateAfter(b: Book, o: Ref): set<Ref> {
    if o in b.swept && Saved(b, o).None? then b.late + {o} else b.late
  }

  function Stored(b: Book, o: Ref, v: Value): Book {
    b.(pending := b.pending - Leaves(v), late := LateAfter(b, o))
  }

  /** Linking a new member: it takes over the references of its value. */
  lemma Link(objs: seq<ObjectState>, roots: seq<Root>, b: Book, o: Ref, m: Member)
    requires Consistent(objs, roots, b) && o < |objs| && m.name !in Names(objs[o].members)
    requires !objs[o].freed && Leaves(m.value) <= b.pending
    ensures Consistent(objs[o := Extended(objs[o], m)], roots, Stored(b, o, m.value))
    ensures Progress(objs, b, objs[o := Extended(objs[o], m)], Stored(b, o, m.value))
    ensures Potential(objs[o := Extended(objs[o], m)]) == Potential(objs) + 2 + Size(m.value)
  {
    hide Consistent, Owned, Unnoticed, Potential, Edges, Progress, Heads;
    var x, b' := Extended(objs[o], m), Stored(b, o, m.value);
    Parts(objs, roots, b, o);
    WithMember(objs[o].members, m);
    UpdatePotential(objs, o, x);
    assert b.pending == b'.pending + Leaves(m.value);
    TableOwned(objs, roots, b, o, x, b', Leaves(m.value), multiset{});
    CountsAt(objs, Owned(objs, roots, b), o, x, Owned(objs[o := x], roots, b'));
    assert Unnoticed(objs, b, o, b') by { LateUnnoticed(objs, roots, b, o, b'); }
    WithHeads(b, o, objs[o].members, m);
    ProgressOne(objs, b, o, x, b');
    OneObject(objs, roots, b, o, x, roots, b');
  }

  lemma WithHeads(b: Book, o: Ref, ms: seq<Member>, m: Member)
    ensures o in b.swept && o !in LateAfter(b, o) ==> Heads(Saved(b, o), ms, ms + [m])
  {}

  lemma LateUnnoticed(objs: seq<ObjectState>, roots: seq<Root>, b: Book, o: Ref, b': Book)
    requires Consistent(objs, roots, b) && b' == b.(pending := b'.pending, late := b'.late)
    requires b.late <= b'.late
    ensures Unnoticed(objs, b, o, b')
  {
    hide Lifecycle, Table, Counts, InHeap, Owned;
    forall p | 0 <= p < |objs| && p != o { SameLife(p, objs[p], b, b'); }
  }

  function Newborn(d: Dtor): ObjectState {
    ObjectState(1, 1, false, d, [], false)
  }

  function Born(b: Book, o: Ref, d: Dtor): Book {
    b.(pending := b.pending + multiset{Strong(o)}, armed := if d.Runs? then b.armed + {o} else b.armed)
  }

  /** `di_new_object`: one strong reference and the implicit weak one. */
  lemma Create(objs: seq<ObjectState>, roots: seq<Root>, b: Book, d: Dtor)
    requires Consistent(objs, roots, b)
    ensures Consistent(objs + [Newborn(d)], roots, Born(b, |objs|, d))
    ensures Progress(objs, b, objs + [Newborn(d)], Born(b, |objs|, d))
    ensures Potential(objs + [Newborn(d)]) == Potential(objs) + 1 + DtorWeight(d)
  {
    hide Potential, Edges, Owned, Counts, InHeap, Lifecycle, Table, Domains, Progress;
    AppendObject(objs, Newborn(d));
    CreateCounts(objs, roots, b, d);
    CreateLives(objs, b, d);
    CreateProgress(objs, b, d);
  }

  lemma CreateProgress(objs: seq<ObjectState>, b: Book, d: Dtor)
    ensures Progress(objs, b, objs + [Newborn(d)], Born(b, |objs|, d))
  {
    hide Heads;
    forall o | 0 <= o < |objs| ensures Heads(Saved(b, o), objs[o].members, objs[o].members) {
      Reflexive(Saved(b, o), objs[o].members);
    }
  }

  lemma CreateLives(objs: seq<ObjectState>, b: Book, d: Dtor)
    requires Domains(|objs|, b)
    requires forall o | 0 <= o < |objs| :: Lifecycle(o, objs[o], b)
    requires forall o | 0 <= o < |objs| :: Table(o, objs[o], b)
    ensures var n, b', objs' := |objs|, Born(b, |objs|, d), objs + [Newborn(d)];
      && Domains(|objs'|, b')
      && (forall o | 0 <= o < |objs'| :: Lifecycle(o, objs'[o], b'))
      && (forall o | 0 <= o < |objs'| :: Table(o, objs'[o], b'))
  {
    var n, b', objs' := |objs|, Born(b, |objs|, d), objs + [Newborn(d)];
    forall o | 0 <= o < |objs'| ensures Lifecycle(o, objs'[o], b') && Table(o, objs'[o], b') {
      assert o < n ==> Lifecycle(o, objs[o], b) && Table(o, objs[o], b);
    }
  }

  lemma CreateOwned(objs: seq<ObjectState>, roots: seq<Root>, b: Book, d: Dtor)
    ensures Owned(objs + [Newborn(d)], roots, Born(b, |objs|, d)) == Owned(objs, roots, b) + multiset{Strong(|objs|)}
  {
    AppendObject(objs, Newborn(d));
  }

  lemma CreateCounts(objs: seq<ObjectState>, roots: seq<Root>, b: Book, d: Dtor)
    requires Consistent(objs, roots, b)
    ensures Counts(objs + [Newborn(d)], Owned(objs + [Newborn(d)], roots, Born(b, |objs|, d)))
    ensures InHeap(objs + [Newborn(d)], Owned(objs + [Newborn(d)], roots, Born(b, |objs|, d)))
  {
    hide Lifecycle, Table, Domains, Owned;
    CreateOwned(objs, roots, b, d);
    var owned := Owned(objs, roots, b);
    assert owned[Strong(|objs|)] == 0 && owned[Weak(|objs|)] == 0;
  }

  /** From the start of a destruction to the point where its guard is dropped. */
  lemma DestroyKeeps(objs0: seq<ObjectState>, b0: Book, o: Ref, objs3: seq<ObjectState>, b3: Book)
    requires o < |objs0| && !objs0[o].freed && !objs0[o].destroyed && Strong(o) !in b0.guards
    requires Progress(objs0[o := Up(objs0[o], Strong(o)).(destroyed := true)], WithGuard(b0, o), objs3, b3)
    ensures Progress(objs0, b0, objs3, Unguarded(Finished(b3, o), o))
  {
    hide Heads;
    var objs2 := objs0[o := Up(objs0[o], Strong(o)).(destroyed := true)];
    forall p | 0 <= p < |objs0|
      ensures Advances(objs0[p], objs3[p])
      ensures Strong(p) in b0.guards ==> objs3[p].destroyed == objs0[p].destroyed
      ensures p in b0.swept && p !in b3.late ==> Heads(Saved(b0, p), objs0[p].members, objs3[p].members)
    {
      assert Advances(objs2[p], objs3[p]) && objs2[p].members == objs0[p].members;
      assert Strong(p) in b0.guards ==> Strong(p) in WithGuard(b0, o).guards;
    }
  }

  lemma ProgressTrans(objs: seq<ObjectState>, b: Book, objs': seq<ObjectState>, b': Book,
                      objs'': seq<ObjectState>, b'': Book)
    requires Progress(objs, b, objs', b') && Progress(objs', b', objs'', b'')
    ensures Progress(objs, b, objs'', b'')
  {
    KeepsTrans(objs, b, objs', b', objs'', b'');
  }

  /** What a step means for one object. */
  lemma ProgressAt(objs: seq<ObjectState>, b: Book, objs': seq<ObjectState>, b': Book, o: Ref)
    requires Progress(objs, b, objs', b') && o < |objs|
    ensures o < |objs'| && Advances(objs[o], objs'[o])
    ensures b'.guards == b.guards && b'.cursor == b.cursor && b.log <= b'.log
    ensures o in b.swept ==> o in b'.swept
    ensures o in b.finished ==> o in b'.finished
    ensures Strong(o) in b.guards ==> objs'[o].destroyed == objs[o].destroyed
    ensures o in b.swept && o !in b'.late ==> Heads(Saved(b, o), objs[o].members, objs'[o].members)
    ensures b.late <= b'.late
  {}

  /** The last strong reference is dropped and the object is not yet destroyed. */
  lemma DestroyEntry(objs: seq<ObjectState>, roots: seq<Root>, b: Book, o: Ref)
    requires Consistent(objs, roots, b) && Strong(o) in b.pending
    requires o < |objs| && objs[o].refCount == 1 && !objs[o].destroyed
    ensures o !in b.cursor && Strong(o) !in b.guards
    ensures Consistent(objs, roots, Guarded(b, o))
    ensures Progress(objs, b, objs[o := StrongDown(objs[o])], Minus(b, Strong(o)))
    ensures Potential(objs[o := StrongDown(objs[o])]) == Potential(objs)
  {
    hide Consistent, Potential, Progress, Edges, Heads, Counts, InHeap;
    StrongTarget(objs, roots, b, o);
    Parts(objs, roots, b, o);
    Guard(objs, roots, b, o);
    SameMembers(objs, o, StrongDown(objs[o]));
    Reflexive(Saved(b, o), objs[o].members);
    ProgressOne(objs, b, o, StrongDown(objs[o]), Minus(b, Strong(o)));
  }

  /** The guard is taken and the object is marked. */
  lemma BeginDestroy(objs: seq<ObjectState>, roots: seq<Root>, b: Book, o: Ref)
    requires o < |objs| && objs[o].refCount == 0 && !objs[o].destroyed
    requires Consistent(objs[o := Up(objs[o], Strong(o))], roots, WithGuard(b, o))
    ensures var objs1 := Raised(objs, multiset{Strong(o)});
      var objs2 := objs1[o := objs1[o].(destroyed := true)];
      && objs2 == objs[o := Up(objs[o], Strong(o)).(destroyed := true)]
      && Consistent(objs2, roots, WithGuard(b, o)) && Potential(objs2) == Potential(objs) - 1
  {
    hide Consistent, Potential, Raised;
    RaisedOne(objs, Strong(o));
    var objs1 := Raised(objs, multiset{Strong(o)});
    SameMembers(objs, o, objs1[o]);
    MarkDestroyed(objs1, roots, WithGuard(b, o), o);
  }

  /** The object is finalized; its destruction ends and the guard may go. */
  lemma EndDestroy(objs0: seq<ObjectState>, b0: Book, o: Ref, objs2: seq<ObjectState>,
                   objs: seq<ObjectState>, roots: seq<Root>, b: Book)
    requires o < |objs0| && !objs0[o].freed && !objs0[o].destroyed
    requires Strong(o) !in b0.guards && o !in b0.cursor
    requires objs2 == objs0[o := Up(objs0[o], Strong(o)).(destroyed := true)]
    requires Progress(objs2, WithGuard(b0, o), objs, b) && Consistent(objs, roots, b)
    requires o < |objs| && objs[o].dtor.NoDtor?
    requires o in b.swept && (o !in b.late ==> objs[o].members == [])
    ensures Consistent(objs, roots, Unguarded(Finished(b, o), o))
    ensures Progress(objs0, b0, objs, Unguarded(Finished(b, o), o))
  {
    hide Consistent, Progress;
    ProgressAt(objs2, WithGuard(b0, o), objs, b, o);
    DestroyKeeps(objs0, b0, o, objs, b);
    Finish(objs, roots, b, o);
    Unguard(objs, roots, Finished(b, o), o);
  }

  lemma StillKept(roots: seq<Root>, next: nat, roots': seq<Root>, next': nat, roots'': seq<Root>, next'': nat)
    ensures RootsKept(roots, next, roots, next)
    ensures RootsKept(roots, next, roots', next') && RootsKept(roots', next', roots'', next'')
      ==> RootsKept(roots, next, roots'', next'')
  {}

  /** The number of counted references of one kind to one object. */
  function CountOf(objs: seq<ObjectState>, c: Claim): nat {
    if c.target >= |objs| then 0
    else if c.Strong? then objs[c.target].refCount else objs[c.target].weakCount
  }

  /** None of the references is the last of its kind. */
  ghost predicate Quiet(objs: seq<ObjectState>, claims: multiset<Claim>) {
    forall c | c in claims :: claims[c] < CountOf(objs, c)
  }

  lemma RaisedSum(objs: seq<ObjectState>, p: multiset<Claim>, q: multiset<Claim>)
    ensures Raised(Raised(objs, p), q) == Raised(objs, p + q)
  {}

  lemma QuietRest(objs: seq<ObjectState>, objs': seq<ObjectState>, first: multiset<Claim>, rest: multiset<Claim>)
    requires Quiet(objs, first + rest)
    ensures Quiet(objs, first)
    ensures objs == Raised(objs', first) ==> Quiet(objs', rest)
  {
    forall c | c in first ensures first[c] < CountOf(objs, c) {
      assert c in first + rest;
    }
    if objs == Raised(objs', first) {
      forall c | c in rest ensures rest[c] < CountOf(objs', c) {
        assert c in first + rest && CountOf(objs, c) == CountOf(objs', c) + first[c];
      }
    }
  }

  lemma OneQuiet(objs: seq<ObjectState>, c: Claim)
    requires Quiet(objs, multiset{c})
    ensures c.target < |objs| && CountOf(objs, c) > 1
  {
    assert c in multiset{c};
  }

  lemma ObjectQuiet(objs: seq<ObjectState>, c: Claim)
    ensures Quiet(objs, multiset{c}) ==> c.target < |objs| && CountOf(objs, c) > 1
    ensures c.target < |objs| && c.Strong? ==> CountOf(objs, c) == objs[c.target].refCount
    ensures c.target < |objs| && c.Weak? ==> CountOf(objs, c) == objs[c.target].weakCount
  {
    if Quiet(objs, multiset{c}) { OneQuiet(objs, c); }
  }

  /** The progress of a loop that releases the references `all` one value at a time. */
  ghost predicate Split(before: multiset<Claim>, now: multiset<Claim>, done: multiset<Claim>,
                        rest: multiset<Claim>, all: multiset<Claim>) {
    now == before - done && done + rest == all && rest <= now
  }

  lemma SplitStart(p: multiset<Claim>, all: multiset<Claim>)
    requires all <= p
    ensures Split(p, p, multiset{}, all, all)
  {}

  lemma SplitNext(p0: multiset<Claim>, p1: multiset<Claim>, done: multiset<Claim>, first: multiset<Claim>,
                  rest: multiset<Claim>, all: multiset<Claim>)
    requires Split(p0, p1, done, first + rest, all)
    ensures first <= p1 && Split(p0, p1 - first, done + first, rest, all)
    ensures done + first == first + done
    ensures p0 - done == p1 && p0 - (done + first) == p1 - first
  {
    assert first <= first + rest;
    assert done + (first + rest) == (done + first) + rest;
  }

  lemma SplitEnd(p0: multiset<Claim>, p1: multiset<Claim>, done: multiset<Claim>, all: multiset<Claim>)
    requires Split(p0, p1, done, multiset{}, all)
    ensures done == all && p1 == p0 - all
  {
    assert done == done + multiset{};
  }

  lemma DroppedQuiet(objs: seq<ObjectState>, o: Ref, j: nat, claims: multiset<Claim>)
    requires o < |objs| && j < |objs[o].members|
    ensures Quiet(objs[o := Dropped(objs[o], j)], claims) <==> Quiet(objs, claims)
  {
    assert forall c :: CountOf(objs[o := Dropped(objs[o], j)], c) == CountOf(objs, c);
  }

  lemma NoRaise(objs: seq<ObjectState>)
    ensures Raised(objs, multiset{}) == objs
  {}

  /** Every reference in the set has a counted source. */
  predicate AllAvailable(objs: seq<ObjectState>, claims: multiset<Claim>) {
    forall c | c in claims :: CountOf(objs, c) > 0
  }

  predicate Available(objs: seq<ObjectState>, v: Value) {
    AllAvailable(objs, Leaves(v))
  }

  lemma SourceCount(objs: seq<ObjectState>, v: Value, c: Claim)
    requires Available(objs, v) && c in Leaves(v)
    ensures c.target < |objs|
    ensures if c.Strong? then objs[c.target].refCount > 0 else objs[c.target].weakCount > 0
  {}

  lemma NotFreed(objs: seq<ObjectState>, roots: seq<Root>, b: Book, o: Ref)
    requires Consistent(objs, roots, b) && o < |objs|
    ensures objs[o].freed <==> objs[o].weakCount == 0
    ensures objs[o].refCount > 0 ==> !objs[o].freed
  {
    Parts(objs, roots, b, o);
  }

  lemma NextCopied(objs: seq<ObjectState>, p: multiset<Claim>, done: multiset<Claim>, v: Value,
                   rest: multiset<Claim>, all: multiset<Claim>)
    requires AllAvailable(objs, all) && done + (Leaves(v) + rest) == all
    ensures Available(Raised(objs, done), v)
    ensures (done + Leaves(v)) + rest == all
    ensures (p + done) + Leaves(v) == p + (done + Leaves(v))
  {
    forall c | c in Leaves(v) ensures CountOf(Raised(objs, done), c) > 0 {
      assert c in all && CountOf(objs, c) > 0;
    }
  }

  // ---------------------------------------------------------------- foreign code

  /** A reference that the runtime created is handed to foreign code. */
  function Hold(b: Book, c: Claim): Book {
    HoldAll(b, multiset{c})
  }

  function HoldAll(b: Book, claims: multiset<Claim>): Book {
    b.(pending := b.pending - claims, held := b.held + claims)
  }

  /** Foreign code hands a reference to the runtime. */
  function Yield(b: Book, c: Claim): Book {
    YieldAll(b, multiset{c})
  }

  function YieldAll(b: Book, claims: multiset<Claim>): Book {
    b.(pending := b.pending + claims, held := b.held - claims)
  }

  lemma HoldPending(objs: seq<ObjectState>, roots: seq<Root>, b: Book, claims: multiset<Claim>)
    requires Consistent(objs, roots, b) && claims <= b.pending
    ensures Consistent(objs, roots, HoldAll(b, claims))
    ensures Progress(objs, b, objs, HoldAll(b, claims))
  {
    hide Consistent, Progress, Keeps;
    assert Owned(objs, roots, HoldAll(b, claims)) == Owned(objs, roots, b) by {
      MovedOwned(objs, roots, b, HoldAll(b, claims), claims);
    }
    hide Owned;
    Rebook(objs, roots, b, roots, HoldAll(b, claims));
  }

  lemma MovedOwned(objs: seq<ObjectState>, roots: seq<Root>, b: Book, b': Book, claims: multiset<Claim>)
    requires b.pending == b'.pending + claims && b'.held == b.held + claims && b'.guards == b.guards
    ensures Owned(objs, roots, b') == Owned(objs, roots, b)
  {
    assert b.held + b.pending == b'.held + b'.pending;
  }

  lemma YieldHeld(objs: seq<ObjectState>, roots: seq<Root>, b: Book, claims: multiset<Claim>)
    requires Consistent(objs, roots, b) && claims <= b.held
    ensures Consistent(objs, roots, YieldAll(b, claims))
    ensures Progress(objs, b, objs, YieldAll(b, claims))
  {
    hide Consistent, Progress, Keeps;
    var b' := YieldAll(b, claims);
    assert b.held == b'.held + claims;
    assert Owned(objs, roots, b) == Owned(objs, roots, b') by { MovedOwned(objs, roots, b', b, claims); }
    hide Owned;
    Rebook(objs, roots, b, roots, b');
  }

  lemma ReleaseHeld(objs: seq<ObjectState>, roots: seq<Root>, b: Book, c: Claim)
    requires Consistent(objs, roots, b) && c in b.held
    ensures Consistent(objs, roots, Yield(b, c)) && Progress(objs, b, objs, Yield(b, c))
    ensures c in Yield(b, c).pending
    ensures c.target < |objs| && !objs[c.target].freed && objs[c.target].weakCount > 0
  {
    hide Consistent, Progress, Keeps;
    HeldTarget(objs, roots, b, c);
    YieldHeld(objs, roots, b, multiset{c});
  }

  lemma HeldTarget(objs: seq<ObjectState>, roots: seq<Root>, b: Book, c: Claim)
    requires Consistent(objs, roots, b) && c in b.held
    ensures c.target < |objs| && !objs[c.target].freed && objs[c.target].weakCount > 0
    ensures c.Strong? ==> objs[c.target].refCount > 0
  {
    assert c in Owned(objs, roots, b);
    Parts(objs, roots, b, c.target);
  }

  datatype Status = Ok | Einval | Eexist | Enoent

  /** The property name after a getter, setter or deleter prefix. The deleter prefix
      is compared, and skipped, with the length of the setter prefix. */
  function RealName(name: string): string {
    if "__get_" <= name then name[6..]
    else if "__set_" <= name then name[6..]
    else if "__dele" <= name then name[6..]
    else ""
  }

  /** `check_new_member`, for a name that is not NULL. */
  function CheckNewMember(ms: seq<Member>, name: string): (rc: Status)
    ensures rc == Eexist <==> name in Names(ms)
    ensures rc == Einval <==> name !in Names(ms) && ("__get___" <= name || "__set___" <= name || "__dele__" <= name)
    ensures rc != Enoent
  {
    if Find(ms, name).Some? then Eexist
    else if "__" <= RealName(name) then Einval
    else Ok
  }

  /** The names that the rule is meant to refuse: accessors of internal names. */
  predicate AccessesInternal(name: string) {
    "__get___" <= name || "__set___" <= name || "__delete___" <= name
  }

  /** Because of the wrong prefix length the check keeps the rule exactly for the names outside
      two families: deleters of internal names pass it, and names in `__dele__` do not. */
  lemma RuleExact(ms: seq<Member>, name: string)
    requires name !in Names(ms)
    ensures (CheckNewMember(ms, name) == Einval <==> AccessesInternal(name)) <==>
      !("__delete___" <= name || "__dele__" <= name)
  {
    if "__delete___" <= name { assert name[6] == "__delete___"[6] == 't'; }
    if "__dele__" <= name { assert name[6] == "__dele__"[6] == '_' && name[2] == 'd'; }
    if "__get___" <= name { assert name[2] == "__get___"[2] == 'g'; }
    if "__set___" <= name { assert name[2] == "__set___"[2] == 's'; }
  }

  /** Both families have members. */
  lemma DeleterGap()
    ensures CheckNewMember([], "__get___type") == Einval
    ensures CheckNewMember([], "__set___type") == Einval
    ensures CheckNewMember([], "__delete___type") == Ok && AccessesInternal("__delete___type")
    ensures CheckNewMember([], "__dele__") == Einval && !AccessesInternal("__dele__")
  {
    assert "__get___type"[6..] == "__type" && "__set___type"[6..] == "__type";
    assert "__delete___type"[6..] == "te___type";
    assert "__delete___type"[6] == 't' && "__dele__"[6] == '_';
    assert "__dele__"[6..] == "__" && "__dele__"[2] == 'd' && "__get___"[2] == 'g' && "__set___"[2] == 's' && "__delete___"[6] == 't';
    assert "__delete___type"[..11] == "__delete___";
  }

  lemma CopiedQuiet(objs: seq<ObjectState>, objs': seq<ObjectState>, p: multiset<Claim>, v: Value, o: Ref)
    requires Available(objs, v) && objs' == Raised(objs, Leaves(v))
    ensures Quiet(objs', Leaves(v))
    ensures Leaves(v) <= p + Leaves(v) && (p + Leaves(v)) - Leaves(v) == p
    ensures o < |objs| ==> objs'[o].members == objs[o].members && objs'[o].freed == objs[o].freed
  {
    forall c | c in Leaves(v) ensures Leaves(v)[c] < CountOf(objs', c) {
      assert CountOf(objs', c) == CountOf(objs, c) + Leaves(v)[c];
    }
  }

  /** Raising counts by the same references is injective. */
  lemma Lowered(objs: seq<ObjectState>, objs': seq<ObjectState>, claims: multiset<Claim>)
    requires Raised(objs, claims) == Raised(objs', claims)
    ensures objs == objs'
  {
    forall o | 0 <= o < |objs| ensures objs[o] == objs'[o] {
      assert Raised(objs, claims)[o] == Raised(objs', claims)[o];
    }
    assert |objs| == |Raised(objs, claims)| == |objs'|;
  }

  lemma AllYielded(b: Book, claims: multiset<Claim>)
    requires claims <= b.held
    ensures claims <= YieldAll(b, claims).pending && YieldAll(b, claims).pending - claims == b.pending
  {}

  /** The references of a stored member are counted. */
  lemma MemberAvailable(objs: seq<ObjectState>, roots: seq<Root>, b: Book, o: Ref, j: nat)
    requires Consistent(objs, roots, b) && o < |objs| && j < |objs[o].members|
    ensures Available(objs, objs[o].members[j].value)
  {
    hide Lifecycle, Table, Domains;
    var v, x := objs[o].members[j].value, Dropped(objs[o], j);
    WithoutClaims(objs[o].members, j);
    UpdateEdges(objs, o, x);
    hide Consistent;
    assert Leaves(v) <= Edges(objs) by {
      assert Edges(objs[o := x]) + MemberClaims(objs[o].members) == Edges(objs) + MemberClaims(x.members);
      assert MemberClaims(objs[o].members) == MemberClaims(x.members) + Leaves(v);
      Peel(Edges(objs[o := x]), MemberClaims(x.members), Leaves(v), Edges(objs));
    }
    Counted(objs, roots, b, Leaves(v));
  }

  /** References that exist have a counted target. */
  lemma Counted(objs: seq<ObjectState>, roots: seq<Root>, b: Book, claims: multiset<Claim>)
    requires Consistent(objs, roots, b) && claims <= Edges(objs)
    ensures AllAvailable(objs, claims)
  {
    hide Lifecycle, Table, Domains, Edges;
    forall c | c in claims ensures CountOf(objs, c) > 0 {
      assert c in Edges(objs) && c in Owned(objs, roots, b);
    }
  }

  lemma Peel<T>(a: multiset<T>, m: multiset<T>, l: multiset<T>, e: multiset<T>)
    requires a + (m + l) == e + m
    ensures l <= e
  {
    assert (a + l) + m == e + m;
    Cancel(a + l, e, m);
  }

  lemma BeginFinalize(objs: seq<ObjectState>, roots: seq<Root>, b: Book, o: Ref)
    requires Consistent(objs, roots, b) && o < |objs| && objs[o].refCount > 0
    ensures !objs[o].freed
    ensures o in b.cursor || (objs[o].destroyed && o !in b.finished) ==> Strong(o) in b.guards
    ensures Consistent(Raised(objs, multiset{Strong(o)}), roots, WithGuard(b, o))
    ensures Potential(Raised(objs, multiset{Strong(o)})) == Potential(objs)
  {
    hide Consistent, Potential, Raised, Progress, Keeps;
    NotFreed(objs, roots, b, o);
    Parts(objs, roots, b, o);
    CountUp(objs, roots, b, Strong(o));
    Guard(Raised(objs, multiset{Strong(o)}), roots, Plus(b, Strong(o)), o);
    assert Guarded(Plus(b, Strong(o)), o) == WithGuard(b, o) by {
      assert (b.pending + multiset{Strong(o)}) - multiset{Strong(o)} == b.pending;
    }
  }

  lemma EndFinalize(objs0: seq<ObjectState>, b0: Book, objs1: seq<ObjectState>,
                    objs: seq<ObjectState>, roots: seq<Root>, b: Book, o: Ref)
    requires o < |objs0| && objs1 == Raised(objs0, multiset{Strong(o)}) && !objs0[o].freed
    requires o in b0.cursor || (objs0[o].destroyed && o !in b0.finished) ==> Strong(o) in b0.guards
    requires Progress(objs1, WithGuard(b0, o), objs, b) && Consistent(objs, roots, b)
    ensures Consistent(objs, roots, Unguarded(b, o))
    ensures Progress(objs0, b0, objs, Unguarded(b, o))
  {
    hide Heads;
    hide Consistent, Raised;
    RaisedOne(objs0, Strong(o));
    forall p | 0 <= p < |objs0|
      ensures Advances(objs0[p], objs[p])
      ensures Strong(p) in b0.guards ==> objs[p].destroyed == objs0[p].destroyed
      ensures p in b0.swept && p !in b.late ==> Heads(Saved(b0, p), objs0[p].members, objs[p].members)
    {
      assert Advances(objs1[p], objs[p]) && objs1[p].members == objs0[p].members;
      assert Strong(p) in b0.guards ==> Strong(p) in WithGuard(b0, o).guards;
    }
    assert Strong(o) in WithGuard(b0, o).guards;
    Unguard(objs, roots, b, o);
  }

  // ---------------------------------------------------------------- anonymous roots

  function FindRoot(roots: seq<Root>, id: nat): (r: Option<nat>)
    ensures r.Some? ==> r.value < |roots| && roots[r.value].id == id
    ensures r.None? <==> forall i | 0 <= i < |roots| :: roots[i].id != id
  {
    if roots == [] then None
    else if roots[0].id == id then Some(0)
    else
      assert forall i | 0 < i < |roots| :: roots[i] == roots[1..][i-1];
      match FindRoot(roots[1..], id) case None => None case Some(i) => Some(i + 1)
  }

  lemma {:induction false} ConcatRoots(a: seq<Root>, b: seq<Root>)
    ensures RootClaims(a + b) == RootClaims(a) + RootClaims(b)
  {
    if a == [] {
      assert a + b == b;
    } else {
      assert (a + b)[1..] == a[1..] + b;
      ConcatRoots(a[1..], b);
    }
  }

  lemma AppendRoot(objs: seq<ObjectState>, roots: seq<Root>, b: Book, r: Root)
    requires Consistent(objs, roots, b) && Strong(r.obj) in b.pending
    ensures Consistent(objs, roots + [r], Minus(b, Strong(r.obj)))
    ensures Progress(objs, b, objs, Minus(b, Strong(r.obj)))
  {
    hide Consistent, Progress, Keeps;
    ConcatRoots(roots, [r]);
    var b' := Minus(b, Strong(r.obj));
    assert Owned(objs, roots + [r], b') == Owned(objs, roots, b) by {
      RootsOwned(objs, roots, b, roots + [r], b', multiset{}, multiset{Strong(r.obj)});
    }
    hide Owned;
    Rebook(objs, roots, b, roots + [r], b');
  }

  lemma RootsOwned(objs: seq<ObjectState>, roots: seq<Root>, b: Book, roots': seq<Root>, b': Book,
                   up: multiset<Claim>, down: multiset<Claim>)
    requires b'.held == b.held && b'.guards == b.guards
    requires b'.pending + down == b.pending + up && RootClaims(roots') + up == RootClaims(roots) + down
    ensures Owned(objs, roots', b') == Owned(objs, roots, b)
  {
    var p, p', r, r' := b.pending, b'.pending, RootClaims(roots), RootClaims(roots');
    assert (p' + r') + (up + down) == (p + r) + (up + down) by {
      assert (p' + r') + (up + down) == (p' + down) + (r' + up);
      assert (p + r) + (up + down) == (p + up) + (r + down);
    }
    Cancel(p' + r', p + r, up + down);
    assert Owned(objs, roots', b') == (p' + r') + (b.held + b.guards + Edges(objs));
    assert Owned(objs, roots, b) == (p + r) + (b.held + b.guards + Edges(objs));
  }

  function WithoutRoot(roots: seq<Root>, i: nat): seq<Root>
    requires i < |roots|
  {
    roots[..i] + roots[i+1..]
  }

  lemma WithoutRootFacts(roots: seq<Root>, next: nat, i: nat)
    requires i < |roots| && RootIds(roots, next)
    ensures RootIds(WithoutRoot(roots, i), next) && RootsKept(roots, next, WithoutRoot(roots, i), next)
    ensures forall r | r in WithoutRoot(roots, i) :: r.id != roots[i].id
  {
    var w := WithoutRoot(roots, i);
    assert forall k | 0 <= k < |w| :: w[k] == if k < i then roots[k] else roots[k+1];
  }

  lemma WithoutRootClaims(roots: seq<Root>, i: nat)
    requires i < |roots|
    ensures RootClaims(roots) == RootClaims(WithoutRoot(roots, i)) + multiset{Strong(roots[i].obj)}
  {
    assert roots == roots[..i] + roots[i..] && roots[i..][1..] == roots[i+1..];
    ConcatRoots(roots[..i], roots[i..]);
    ConcatRoots(roots[..i], roots[i+1..]);
  }

  lemma RemoveRootAt(objs: seq<ObjectState>, roots: seq<Root>, b: Book, i: nat)
    requires Consistent(objs, roots, b) && i < |roots|
    ensures Consistent(objs, WithoutRoot(roots, i), Plus(b, Strong(roots[i].obj)))
    ensures Progress(objs, b, objs, Plus(b, Strong(roots[i].obj)))
    ensures Strong(roots[i].obj) in Plus(b, Strong(roots[i].obj)).pending
  {
    hide Consistent, Progress, Keeps, RootClaims;
    var roots', b' := WithoutRoot(roots, i), Plus(b, Strong(roots[i].obj));
    WithoutRootClaims(roots, i);
    assert Owned(objs, roots', b') == Owned(objs, roots, b) by {
      RootsOwned(objs, roots, b, roots', b', multiset{Strong(roots[i].obj)}, multiset{});
    }
    hide Owned;
    Rebook(objs, roots, b, roots', b');
  }

  lemma TakeRoots(objs: seq<ObjectState>, roots: seq<Root>, next: nat, b: Book)
    requires Consistent(objs, roots, b) && RootIds(roots, next)
    ensures var b' := b.(pending := b.pending + RootClaims(roots));
      Consistent(objs, [], b') && Progress(objs, b, objs, b') && RootClaims(roots) <= b'.pending
    ensures RootIds([], next)
  {
    hide Consistent, Progress, Keeps;
    var b' := b.(pending := b.pending + RootClaims(roots));
    assert Owned(objs, [], b') == Owned(objs, roots, b) by {
      RootsOwned(objs, roots, b, [], b', RootClaims(roots), multiset{});
    }
    hide Owned;
    Rebook(objs, roots, b, [], b');
  }

  lemma FirstRoot(roots: seq<Root>, i: nat)
    requires i < |roots|
    ensures RootClaims(roots[i..]) == multiset{Strong(roots[i].obj)} + RootClaims(roots[i+1..])
  {
    assert roots[i..][1..] == roots[i+1..];
  }

  lemma LastRoot(roots: seq<Root>, i: nat)
    requires i == |roots|
    ensures RootClaims(roots[i..]) == multiset{}
  {}

  lemma LogCall(objs: seq<ObjectState>, roots: seq<Root>, b: Book, a: Action)
    requires Consistent(objs, roots, b)
    ensures Consistent(objs, roots, b.(log := b.log + [Calls(a)]))
    ensures Progress(objs, b, objs, b.(log := b.log + [Calls(a)]))
  {
    hide Counts, InHeap, Heads;
    var b' := b.(log := b.log + [Calls(a)]);
    assert b'.log[..|b.log|] == b.log;
    assert Owned(objs, roots, b') == Owned(objs, roots, b);
    hide Owned;
    forall o | 0 <= o < |objs|
      ensures Lifecycle(o, objs[o], b') && Table(o, objs[o], b') && Heads(Saved(b, o), objs[o].members, objs[o].members)
    {
      assert Lifecycle(o, objs[o], b) && Table(o, objs[o], b);
      Reflexive(Saved(b, o), objs[o].members);
    }
  }

  lemma LogGrows(objs: seq<ObjectState>, b: Book, objs': seq<ObjectState>, b': Book)
    requires Progress(objs, b, objs', b')
    ensures b.log <= b'.log
  {}

  /** Removing a member whose references are not the last ones lowers their counts
      and changes nothing else. */
  ghost predicate Unlinked(objs: seq<ObjectState>, roots: seq<Root>, b: Book, o: Ref, name: string,
                           objs': seq<ObjectState>, roots': seq<Root>, b': Book) {
    o < |objs| && forall j | 0 <= j < |objs[o].members| && objs[o].members[j].name == name ::
      var claims := Leaves(objs[o].members[j].value);
      Quiet(objs, claims) ==>
        objs[o := Dropped(objs[o], j)] == Raised(objs', claims) && roots' == roots && b' == b
  }

  lemma NotUnlinked(objs: seq<ObjectState>, roots: seq<Root>, b: Book, o: Ref, name: string)
    requires o < |objs| && name !in Names(objs[o].members)
    ensures Unlinked(objs, roots, b, o, name, objs, roots, b)
  {
    assert forall j | 0 <= j < |objs[o].members| :: objs[o].members[j].name in Names(objs[o].members);
  }

  lemma OneUnlinked(objs: seq<ObjectState>, roots: seq<Root>, b: Book, o: Ref, j: nat,
                    objs': seq<ObjectState>, roots': seq<Root>, b': Book)
    requires Consistent(objs, roots, b) && o < |objs| && j < |objs[o].members|
    requires Quiet(objs, Leaves(objs[o].members[j].value)) ==>
      && objs[o := Dropped(objs[o], j)] == Raised(objs', Leaves(objs[o].members[j].value))
      && roots' == roots && b' == b
    ensures Unlinked(objs, roots, b, o, objs[o].members[j].name, objs', roots', b')
  {
    hide Quiet, Raised, Counts, InHeap, Owned;
    Parts(objs, roots, b, o);
  }

  /** Removing a root that is not the last reference lowers one count, no more. */
  ghost predicate Uprooted(objs: seq<ObjectState>, roots: seq<Root>, b: Book, id: nat,
                           objs': seq<ObjectState>, roots': seq<Root>, b': Book) {
    forall i | 0 <= i < |roots| && roots[i].id == id ::
      Quiet(objs, multiset{Strong(roots[i].obj)}) ==>
        objs == Raised(objs', multiset{Strong(roots[i].obj)}) && roots' == WithoutRoot(roots, i) && b' == b
  }

  lemma NotUprooted(objs: seq<ObjectState>, roots: seq<Root>, b: Book, id: nat)
    ensures (forall i | 0 <= i < |roots| :: roots[i].id != id) ==> Uprooted(objs, roots, b, id, objs, roots, b)
  {}

  lemma OneUprooted(objs: seq<ObjectState>, roots: seq<Root>, next: nat, b: Book, i: nat,
                    objs': seq<ObjectState>, roots': seq<Root>, b': Book)
    requires RootIds(roots, next) && i < |roots|
    requires Quiet(objs, multiset{Strong(roots[i].obj)}) ==>
      objs == Raised(objs', multiset{Strong(roots[i].obj)}) && roots' == WithoutRoot(roots, i) && b' == b
    ensures Uprooted(objs, roots, b, roots[i].id, objs', roots', b')
  {
    hide Quiet, Raised;
  }

  lemma FirstLeaves(vs: seq<Value>, i: nat)
    requires i < |vs|
    ensures LeavesOfAll(vs[i..]) == Leaves(vs[i]) + LeavesOfAll(vs[i+1..])
    ensures SizeOfAll(vs[i..]) == Size(vs[i]) + SizeOfAll(vs[i+1..])
  {
    assert vs[i..][1..] == vs[i+1..] && vs[i..][0] == vs[i];
    hide Leaves, Size;
  }

  lemma NoLeaves(vs: seq<Value>, i: nat)
    requires i == |vs|
    ensures LeavesOfAll(vs[i..]) == multiset{}
  {
    assert vs[i..] == [];
  }

  // ---------------------------------------------------------------- the member loop

  /** The saved member is the first one of the table; without one the table is empty. */
  ghost predicate AtFront(ms: seq<Member>, m: Option<string>) {
    if m.None? then ms == [] else ms != [] && ms[0].name == m.value
  }

  function NextIndex(ms: seq<Member>, m: Option<string>): (j: nat)
    requires m.Some? && m.value in Names(ms)
    ensures j < |ms| && ms[j].name == m.value
    ensures AtFront(ms, m) && Distinct(ms) ==> j == 0
  {
    Find(ms, m.value).value
  }

  lemma StartLoop(objs: seq<ObjectState>, roots: seq<Root>, b: Book, o: Ref, m: Option<string>)
    requires Consistent(objs, roots, b) && o < |objs| && Strong(o) in b.guards
    requires m == if objs[o].members == [] then None else Some(objs[o].members[0].name)
    ensures Consistent(objs, roots, b.(cursor := b.cursor[o := m]))
    ensures Progress(objs, b, objs, b.(cursor := b.cursor[o := m]).(cursor := b.cursor))
    ensures AtFront(objs[o].members, m) && !objs[o].freed
  {
    hide Counts, InHeap, Owned, Heads;
    SetCursor(objs, roots, b, o, b.cursor[o := m]);
    StrongTarget(objs, roots, b, o);
    Rebook(objs, roots, b, roots, b);
  }

  /** Saving the next member before the current one is removed. */
  lemma SaveNext(objs: seq<ObjectState>, roots: seq<Root>, b: Book, o: Ref, j: nat)
    requires Consistent(objs, roots, b) && o < |objs| && Strong(o) in b.guards && o in b.cursor
    requires j < |objs[o].members|
    ensures var next := if j + 1 < |objs[o].members| then Some(objs[o].members[j+1].name) else None;
      && Consistent(objs, roots, b.(cursor := b.cursor[o := next]))
      && !Pinned(b.(cursor := b.cursor[o := next]), o, objs[o].members[j].name)
  {
    hide Counts, InHeap, Owned;
    var next := if j + 1 < |objs[o].members| then Some(objs[o].members[j+1].name) else None;
    Parts(objs, roots, b, o);
    SetCursor(objs, roots, b, o, b.cursor[o := next]);
  }

  lemma LoopHead(objs: seq<ObjectState>, roots: seq<Root>, b: Book, o: Ref, m: Option<string>)
    requires Consistent(objs, roots, b) && o < |objs| && o in b.cursor && b.cursor[o] == m
    ensures m.Some? ==> m.value in Names(objs[o].members)
    ensures Distinct(objs[o].members)
  {
    Parts(objs, roots, b, o);
  }

  /** One round of the loop: the cursor is back at the front of the table. */
  lemma LoopStep(objs0: seq<ObjectState>, b0: Book, objs1: seq<ObjectState>, b1: Book,
                 objs: seq<ObjectState>, roots: seq<Root>, b: Book, o: Ref, m: Option<string>, next: Option<string>)
    requires o < |objs0| && o < |objs1| && Strong(o) in b1.guards
    requires b1.guards == b0.guards && o in b.cursor && b.cursor == b0.cursor[o := next]
    requires Progress(objs0, b0, objs1, b1.(cursor := b0.cursor))
    requires Progress(objs1, b1.(cursor := b.cursor), objs, b)
    requires Consistent(objs, roots, b) && m.Some? && m.value in Names(objs1[o].members) && Distinct(objs1[o].members)
    requires var j := NextIndex(objs1[o].members, m);
      next == if j + 1 < |objs1[o].members| then Some(objs1[o].members[j+1].name) else None
    requires Saved(b0, o).None?
    requires o in b0.swept && o !in b1.late ==> AtFront(objs1[o].members, m)
    requires o in b1.swept && o !in b.late ==>
      o < |objs| && Heads(next, Seqs.Remove(objs1[o].members, NextIndex(objs1[o].members, m)), objs[o].members)
    ensures o < |objs| && !objs[o].freed && objs[o].destroyed == objs1[o].destroyed
    ensures Progress(objs0, b0, objs, b.(cursor := b0.cursor))
    ensures o in b0.swept && o !in b.late ==> AtFront(objs[o].members, next)
  {
    hide Consistent, Keeps, Counts, InHeap, Owned, Heads, Names, Distinct;
    assert NextIndex(objs1[o].members, m) < |objs1[o].members|;
    LoopProgress(objs0, b0, objs1, b1, objs, b, o, next);
    ProgressAt(objs1, b1.(cursor := b.cursor), objs, b, o);
    StrongTarget(objs, roots, b, o);
    Parts(objs, roots, b, o);
    if o in b0.swept && o !in b.late {
      KeepsFacts(objs0, b0, objs1, b1, objs, b, o);
      assert Seqs.Remove(objs1[o].members, 0) == objs1[o].members[1..];
      FrontAgain(objs1[o].members[1..], objs[o].members, next);
    }
  }

  lemma KeepsFacts(objs0: seq<ObjectState>, b0: Book, objs1: seq<ObjectState>, b1: Book,
                   objs: seq<ObjectState>, b: Book, o: Ref)
    requires Progress(objs0, b0, objs1, b1.(cursor := b0.cursor))
    requires Progress(objs1, b1.(cursor := b.cursor), objs, b)
    ensures o in b0.swept ==> o in b1.swept
    ensures b1.late <= b.late
  {}

  lemma LoopProgress(objs0: seq<ObjectState>, b0: Book, objs1: seq<ObjectState>, b1: Book,
                     objs: seq<ObjectState>, b: Book, o: Ref, next: Option<string>)
    requires Progress(objs0, b0, objs1, b1.(cursor := b0.cursor))
    requires Progress(objs1, b1.(cursor := b.cursor), objs, b)
    requires b.cursor == b0.cursor[o := next] && Saved(b0, o).None?
    requires o < |objs1| && objs1[o].members != []
    ensures Progress(objs0, b0, objs, b.(cursor := b0.cursor))
  {
    assert Progress(objs1, b1.(cursor := b0.cursor), objs, b.(cursor := b0.cursor)) by {
      Recursor(objs1, b1, objs, b, b0, o, next);
    }
    hide Heads, Advances;
    KeepsTrans(objs0, b0, objs1, b1.(cursor := b0.cursor), objs, b.(cursor := b0.cursor));
  }

  /** Setting the cursor of `o` back does not disturb what other loops rely on. */
  lemma Recursor(objs1: seq<ObjectState>, b1: Book, objs: seq<ObjectState>, b: Book, b0: Book, o: Ref, next: Option<string>)
    requires Progress(objs1, b1.(cursor := b.cursor), objs, b)
    requires b.cursor == b0.cursor[o := next] && Saved(b0, o).None?
    requires o < |objs1| && objs1[o].members != []
    ensures Progress(objs1, b1.(cursor := b0.cursor), objs, b.(cursor := b0.cursor))
  {
    hide Advances;
    forall p | p in b1.swept && p !in b.late && 0 <= p < |objs1|
      ensures Heads(Saved(b0, p), objs1[p].members, objs[p].members)
    {
      assert Heads(Saved(b, p), objs1[p].members, objs[p].members);
      assert p != o ==> Saved(b, p) == Saved(b0, p);
    }
  }

  lemma FrontAgain(before: seq<Member>, after: seq<Member>, next: Option<string>)
    requires Heads(next, before, after)
    requires next == if before == [] then None else Some(before[0].name)
    ensures AtFront(after, next)
  {}

  lemma EndLoop(objs: seq<ObjectState>, roots: seq<Root>, b: Book, o: Ref, c: map<Ref, Option<string>>)
    requires Consistent(objs, roots, b) && o < |objs| && Strong(o) in b.guards
    requires (o in c ==> c[o].None?) && o in b.cursor && b.cursor == c[o := b.cursor[o]]
    ensures Consistent(objs, roots, b.(cursor := c))
  {
    hide Consistent;
    SetCursor(objs, roots, b, o, c);
  }

  /** When the count of a destroyed object is about to reach zero, its destruction
      is over and its destructor is gone. */
  lemma LastFinished(objs: seq<ObjectState>, roots: seq<Root>, b: Book, o: Ref)
    requires Consistent(objs, roots, b) && Strong(o) in b.pending
    requires o < |objs| && objs[o].refCount == 1 && objs[o].destroyed
    ensures o in b.finished && DtorRan(o, objs[o], b.log, b.log)
  {
    StrongTarget(objs, roots, b, o);
    Parts(objs, roots, b, o);
  }

  /** How the table of anonymous roots may change: ids are never used twice. */
  ghost predicate RootsKept(roots: seq<Root>, next: nat, roots': seq<Root>, next': nat) {
    && next <= next'
    && forall r | r in roots' :: r in roots || next <= r.id
  }

  class Heap {
    var objs: seq<ObjectState>
    var roots: seq<Root>
    var nextRoot: nat
    var book: Book  // kept by the model only, see Book

    ghost predicate Valid()
      reads this
    {
      Consistent(objs, roots, book) && RootIds(roots, nextRoot)
    }

    constructor ()
      ensures Valid() && objs == [] && roots == []
      ensures book == Book(multiset{}, multiset{}, multiset{}, {}, multiset{}, {}, {}, {}, map[], [])
    {
      objs, roots, nextRoot := [], [], 1;
      book := Book(multiset{}, multiset{}, multiset{}, {}, multiset{}, {}, {}, {}, map[], []);
    }

    /** `di_ref_object`. */
    method RefObject(o: Ref)
      requires o < |objs| && !objs[o].freed
      modifies this`objs
      ensures objs == Raised(old(objs), multiset{Strong(o)})
    {
      objs := objs[o := objs[o].(refCount := objs[o].refCount + 1)];
    }

    /** `di_weakly_ref_object`. */
    method WeaklyRefObject(o: Ref)
      requires o < |objs| && !objs[o].freed
      modifies this`objs
      ensures objs == Raised(old(objs), multiset{Weak(o)})
    {
      objs := objs[o := objs[o].(weakCount := objs[o].weakCount + 1)];
    }

    /** `di_decrement_weak_ref_count`: the only place where a block is freed. */
    method DecrementWeak(o: Ref)
      requires o < |objs| && !objs[o].freed && objs[o].weakCount > 0
      modifies this`objs
      ensures objs == old(objs)[o := WeakDown(old(objs[o]))]
    {
      var w := objs[o].weakCount - 1;
      objs := objs[o := objs[o].(weakCount := w)];
      if w == 0 {
        objs := objs[o := objs[o].(freed := true)];
      }
    }

    /** `di_drop_weak_ref`. */
    method DropWeakRef(o: Ref)
      requires Valid() && Weak(o) in book.pending
      modifies this`objs, this`book
      ensures Valid()
      ensures book == Minus(old(book), Weak(o))
      ensures Progress(old(objs), old(book), objs, book)
      ensures Potential(objs) == Potential(old(objs))
      ensures o < |old(objs)| && old(objs)[o].weakCount > 0 && objs == old(objs)[o := WeakDown(old(objs)[o])]
      ensures old(objs)[o].weakCount > 1 ==> old(objs) == Raised(objs, multiset{Weak(o)})
    {
      hide Consistent, RootIds, Progress, Potential, Raised;
      DropWeak(objs, roots, book, o);
      DecrementWeak(o);
      book := Minus(book, Weak(o));
    }

    // ------------------------------------------------------------ the cascade

    /** `di_unref_object`. */
    method UnrefObject(o: Ref)
      requires Valid() && Strong(o) in book.pending
      modifies this
      ensures Valid() && book.pending == old(book.pending) - multiset{Strong(o)}
      ensures Progress(old(objs), old(book), objs, book)
      ensures Potential(objs) <= Potential(old(objs))
      ensures RootsKept(old(roots), old(nextRoot), roots, nextRoot)
      ensures old(o < |objs| && objs[o].refCount > 1) ==>
        && old(objs) == Raised(objs, multiset{Strong(o)})
        && roots == old(roots) && nextRoot == old(nextRoot) && book == Minus(old(book), Strong(o))
      ensures old(o < |objs| && objs[o].refCount == 1) ==>
        o in book.finished && DtorRan(o, old(objs)[o], old(book.log), book.log)
      ensures old(o < |objs| && objs[o].refCount == 1 && objs[o].destroyed && objs[o].weakCount > 0) ==>
        && objs == old(objs)[o := Gone(old(objs)[o])]
        && roots == old(roots) && nextRoot == old(nextRoot) && book == Minus(old(book), Strong(o))
      decreases Potential(objs), 2
    {
      hide Consistent, RootIds, Progress, Potential, Raised, DtorRan;
      ghost var objs0, b0 := objs, book;
      StrongTarget(objs, roots, book, o);
      objs := objs[o := objs[o].(refCount := objs[o].refCount - 1)];
      book := Minus(book, Strong(o));
      if objs[o].refCount == 0 {
        if objs[o].destroyed {
          DropLast(objs0, roots, b0, o);
          LastFinished(objs0, roots, b0, o);
          DecrementWeak(o);
          assert objs == objs0[o := Gone(objs0[o])];
        } else {
          DestroyEntry(objs0, roots, b0, o);
          assert objs[o := Up(objs[o], Strong(o))] == objs0;
          ghost var objs1, b1 := objs, book;
          Destroy(o);
          ProgressTrans(objs0, b0, objs1, b1, objs, book);
          DtorRanSame(o, objs1[o], objs0[o], b0.log, book.log);
        }
      } else {
        DropStrong(objs0, roots, b0, o);
        assert objs == objs0[o := StrongDown(objs0[o])];
      }
    }

    /** `di_destroy_object`, entered with a strong count of zero. */
    method Destroy(o: Ref)
      requires o < |objs| && objs[o].refCount == 0 && !objs[o].destroyed && !objs[o].freed
      requires o !in book.cursor && Strong(o) !in book.guards
      requires Consistent(objs[o := Up(objs[o], Strong(o))], roots, WithGuard(book, o))
      requires RootIds(roots, nextRoot)
      modifies this
      ensures Valid() && book.pending == old(book.pending)
      ensures Progress(old(objs), old(book), objs, book)
      ensures Potential(objs) < Potential(old(objs))
      ensures RootsKept(old(roots), old(nextRoot), roots, nextRoot)
      ensures o in book.finished && DtorRan(o, old(objs[o]), old(book.log), book.log)
      ensures o < |objs| && objs[o].destroyed && (o !in book.late ==> objs[o].members == [])
      decreases Potential(objs), 1
    {
      hide Consistent, RootIds, Progress, Potential, Raised, DtorRan, RootsKept;
      ghost var objs0, b0, roots0, next0 := objs, book, roots, nextRoot;
      BeginDestroy(objs, roots, book, o);
      RefObject(o);
      book := WithGuard(book, o);
      objs := objs[o := objs[o].(destroyed := true)];
      ghost var objs2 := objs;
      FinalizeBody(o, true);
      EndDestroy(objs0, b0, o, objs2, objs, roots, book);
      book := Unguarded(Finished(book, o), o);
      ghost var objs3, b3, roots3, next3 := objs, book, roots, nextRoot;
      UnrefObject(o);
      StillKept(roots0, next0, roots3, next3, roots, nextRoot);
      ProgressTrans(objs0, b0, objs3, b3, objs, book);
      ProgressAt(objs3, b3, objs, book, o);
      DtorRanSame(o, objs2[o], objs0[o], b0.log, b3.log);
      DtorRanGrows(o, objs0[o], b0.log, b3.log, book.log);
      SweptClean(objs, roots, book, o);
    }

    /** `_di_finalize_object`: run the destructor if it has not run, then remove
        every member, saving the next one before each removal. `last` tells the record that the
        object is being destroyed. */
    method FinalizeBody(o: Ref, last: bool)
      requires Valid() && o < |objs| && Strong(o) in book.guards && Saved(book, o).None? && (last ==> objs[o].destroyed)
      modifies this
      ensures Valid() && book.pending == old(book.pending)
      ensures Progress(old(objs), old(book), objs, book)
      ensures Potential(objs) <= Potential(old(objs))
      ensures RootsKept(old(roots), old(nextRoot), roots, nextRoot)
      ensures o < |objs| && objs[o].dtor.NoDtor?
      ensures last ==> o in book.swept && (o !in book.late ==> objs[o].members == [])
      ensures DtorRan(o, old(objs[o]), old(book.log), book.log)
      decreases Potential(objs), 3
    {
      hide Consistent, RootIds, Progress, Potential, Raised, Heads, DtorRan;
      ghost var objs0, b0 := objs, book;
      RunDtor(o);
      ProgressAt(objs0, b0, objs, book, o);
      ghost var objs1, b1 := objs, book;
      if last {
        BeginSweep(objs, roots, book, o);
        book := book.(swept := book.swept + {o});
        ProgressTrans(objs0, b0, objs1, b1, objs, book);
      }
      ghost var objs2, b2 := objs, book;
      RemoveMembers(o);
      ProgressAt(objs2, b2, objs, book, o);
      ProgressTrans(objs0, b0, objs2, b2, objs, book);
      DtorRanGrows(o, objs0[o], b0.log, b1.log, book.log);
    }

    /** Clear the destructor field, then call the destructor. */
    method RunDtor(o: Ref)
      requires Valid() && o < |objs| && Strong(o) in book.guards
      modifies this
      ensures Valid() && book.pending == old(book.pending)
      ensures Progress(old(objs), old(book), objs, book)
      ensures Potential(objs) <= Potential(old(objs))
      ensures RootsKept(old(roots), old(nextRoot), roots, nextRoot)
      ensures o < |objs| && objs[o].dtor.NoDtor?
      ensures DtorRan(o, old(objs[o]), old(book.log), book.log)
      decreases Potential(objs), 2
    {
      hide Consistent, RootIds, Progress, Potential, Raised, Heads;
      ghost var objs0, b0 := objs, book;
      match objs[o].dtor
      case NoDtor =>
        Rebook(objs, roots, book, roots, book);
      case Runs(script) =>
        TakeDtor(objs, roots, book, o);
        objs := objs[o := objs[o].(dtor := NoDtor)];
        book := Fired(book, o, objs[o].members);
        ghost var objs1, b1 := objs, book;
        RunScript(script);
        ProgressAt(objs1, b1, objs, book, o);
        ProgressTrans(objs0, b0, objs1, b1, objs, book);
    }

    /** The member loop of `_di_finalize_object`. */
    method RemoveMembers(o: Ref)
      requires Valid() && o < |objs| && Strong(o) in book.guards && Saved(book, o).None?
      modifies this
      ensures Valid() && book.pending == old(book.pending)
      ensures Progress(old(objs), old(book), objs, book)
      ensures Potential(objs) <= Potential(old(objs))
      ensures RootsKept(old(roots), old(nextRoot), roots, nextRoot)
      ensures o < |objs| && objs[o].destroyed == old(objs[o].destroyed)
      ensures o in old(book.swept) && o !in book.late ==> objs[o].members == []
      decreases Potential(objs), 2
    {
      hide Consistent, RootIds, Progress, Keeps, Potential, Raised, Heads, Names, Distinct, RootsKept, Quiet, Leaves;
      ghost var objs0, b0 := objs, book;
      var m := if objs[o].members == [] then None else Some(objs[o].members[0].name);
      StartLoop(objs, roots, book, o, m);
      var cursors := book.cursor;
      StillKept(roots, nextRoot, roots, nextRoot, roots, nextRoot);
      book := book.(cursor := cursors[o := m]);
      while m.Some?
        invariant Valid() && o < |objs| && objs[o].destroyed == objs0[o].destroyed
        invariant book.cursor == b0.cursor[o := m] && book.pending == b0.pending
        invariant Progress(objs0, b0, objs, book.(cursor := b0.cursor))
        invariant Potential(objs) <= Potential(objs0)
        invariant RootsKept(old(roots), old(nextRoot), roots, nextRoot)
        invariant book.guards == b0.guards && !objs[o].freed
        invariant o in b0.swept && o !in book.late ==> AtFront(objs[o].members, m)
        decreases Potential(objs)
      {
        ghost var objs1, b1, roots1, next1 := objs, book, roots, nextRoot;
        LoopHead(objs, roots, book, o, m);
        var j := NextIndex(objs[o].members, m);
        var next := if j + 1 < |objs[o].members| then Some(objs[o].members[j+1].name) else None;
        SaveNext(objs, roots, book, o, j);
        book := book.(cursor := book.cursor[o := next]);
        RemoveMemberImpl(o, j);
        ProgressAt(objs1, b1.(cursor := b1.cursor[o := next]), objs, book, o);
        StillKept(old(roots), old(nextRoot), roots1, next1, roots, nextRoot);
        LoopStep(objs0, b0, objs1, b1, objs, roots, book, o, m, next);
        m := next;
      }
      EndLoop(objs, roots, book, o, b0.cursor);
      book := book.(cursor := cursors);
    }

    /** `di_remove_member_raw_impl`: unlink the member, then free its value. */
    method RemoveMemberImpl(o: Ref, j: nat)
      requires Valid() && o < |objs| && !objs[o].freed && j < |objs[o].members|
      requires !Pinned(book, o, objs[o].members[j].name)
      modifies this
      ensures Valid() && book.pending == old(book.pending)
      ensures Progress(old(objs), old(book), objs, book)
      ensures Potential(objs) < Potential(old(objs))
      ensures RootsKept(old(roots), old(nextRoot), roots, nextRoot)
      ensures old(o in book.swept) && o !in book.late ==>
        o < |objs| && Heads(Saved(book, o), Seqs.Remove(old(objs[o].members), j), objs[o].members)
      ensures old(Quiet(objs, Leaves(objs[o].members[j].value))) ==>
        && old(objs)[o := Dropped(old(objs[o]), j)] == Raised(objs, Leaves(old(objs[o].members[j].value)))
        && roots == old(roots) && nextRoot == old(nextRoot) && book == old(book)
      decreases Potential(objs), 1
    {
      hide Consistent, RootIds, Progress, Keeps, Potential, Raised, Heads, Names, Quiet;
      ghost var objs0, b0 := objs, book;
      var value := objs[o].members[j].value;
      Unlink(objs, roots, book, o, j);
      objs := objs[o := objs[o].(members := Seqs.Remove(objs[o].members, j))];
      book := Released(book, value);
      ghost var objs1, b1 := objs, book;
      DroppedQuiet(objs0, o, j, Leaves(value));
      assert (b0.pending + Leaves(value)) - Leaves(value) == b0.pending;
      FreeValue(value);
      ProgressAt(objs1, b1, objs, book, o);
      ProgressTrans(objs0, b0, objs1, b1, objs, book);
      ProgressAt(objs0, b0, objs1, b1, o);
    }

    /** `di_free_value`. */
    method FreeValue(v: Value)
      requires Valid() && Leaves(v) <= book.pending
      modifies this
      ensures Valid() && book.pending == old(book.pending) - Leaves(v)
      ensures Progress(old(objs), old(book), objs, book)
      ensures Potential(objs) <= Potential(old(objs))
      ensures RootsKept(old(roots), old(nextRoot), roots, nextRoot)
      ensures old(Quiet(objs, Leaves(v))) ==>
        && old(objs) == Raised(objs, Leaves(v))
        && roots == old(roots) && nextRoot == old(nextRoot)
        && book == old(book).(pending := old(book.pending) - Leaves(v))
      decreases Potential(objs) + Size(v), 1
    {
      hide Consistent, RootIds, Progress, Keeps, Potential, Raised, Quiet, CountOf;
      match v
      case Object(o) =>
        ObjectQuiet(objs, Strong(o));
        UnrefObject(o);
      case WeakObject(o) =>
        ObjectQuiet(objs, Weak(o));
        DropWeakRef(o);
      case Array(elems) =>
        FreeElems(elems);
      case Tuple(elems) =>
        FreeElems(elems);
      case Variant(inner) =>
        FreeValue(inner);
      case _ =>
        Rebook(objs, roots, book, roots, book);
        NoRaise(objs);
    }

    /** The loops of `di_free_array` and `di_free_tuple`. */
    method FreeElems(vs: seq<Value>)
      requires Valid() && LeavesOfAll(vs) <= book.pending
      modifies this
      ensures Valid() && book.pending == old(book.pending) - LeavesOfAll(vs)
      ensures Progress(old(objs), old(book), objs, book)
      ensures Potential(objs) <= Potential(old(objs))
      ensures RootsKept(old(roots), old(nextRoot), roots, nextRoot)
      ensures old(Quiet(objs, LeavesOfAll(vs))) ==>
        && old(objs) == Raised(objs, LeavesOfAll(vs))
        && roots == old(roots) && nextRoot == old(nextRoot)
        && book == old(book).(pending := old(book.pending) - LeavesOfAll(vs))
      decreases Potential(objs) + SizeOfAll(vs), 2
    {
      hide Consistent, RootIds, Progress, Keeps, Potential, Raised, Quiet, CountOf, Leaves, Size, LeavesOfAll, SizeOfAll, Split, RootsKept;
      ghost var objs0, b0, quiet := objs, book, Quiet(objs, LeavesOfAll(vs));
      ghost var done: multiset<Claim> := multiset{};
      Rebook(objs, roots, book, roots, book);
      NoRaise(objs);
      SplitStart(book.pending, LeavesOfAll(vs));
      StillKept(roots, nextRoot, roots, nextRoot, roots, nextRoot);
      assert vs[0..] == vs;
      var i := 0;
      while i < |vs|
        invariant 0 <= i <= |vs| && Valid()
        invariant Split(b0.pending, book.pending, done, LeavesOfAll(vs[i..]), LeavesOfAll(vs))
        invariant Progress(objs0, b0, objs, book)
        invariant Potential(objs) <= Potential(objs0)
        invariant SizeOfAll(vs[i..]) <= SizeOfAll(vs)
        invariant RootsKept(old(roots), old(nextRoot), roots, nextRoot)
        invariant quiet ==> objs0 == Raised(objs, done) && Quiet(objs, LeavesOfAll(vs[i..]))
        invariant quiet ==> roots == old(roots) && nextRoot == old(nextRoot) && book == b0.(pending := book.pending)
        decreases |vs| - i
      {
        ghost var objs1, b1, roots1, next1 := objs, book, roots, nextRoot;
        FirstLeaves(vs, i);
        ghost var first, rest := Leaves(vs[i]), LeavesOfAll(vs[i+1..]);
        SplitNext(b0.pending, book.pending, done, first, rest, LeavesOfAll(vs));
        if quiet { QuietRest(objs, objs, first, rest); }
        FreeValue(vs[i]);
        assert book.pending == b1.pending - first;
        assert Split(b0.pending, book.pending, done + first, rest, LeavesOfAll(vs));
        ProgressTrans(objs0, b0, objs1, b1, objs, book);
        StillKept(old(roots), old(nextRoot), roots1, next1, roots, nextRoot);
        if quiet {
          QuietRest(objs1, objs, first, rest);
          RaisedSum(objs, first, done);
          assert objs0 == Raised(objs, done + first);
        }
        done := done + first;
        i := i + 1;
      }
      NoLeaves(vs, i);
      SplitEnd(b0.pending, book.pending, done, LeavesOfAll(vs));
    }

    // ------------------------------------------------------------ the API

    /** `di_copy_value`. */
    method CopyValue(v: Value)
      requires Valid() && Copyable(v) && Available(objs, v)
      modifies this`objs, this`book
      ensures Valid() && objs == Raised(old(objs), Leaves(v))
      ensures book == old(book).(pending := old(book.pending) + Leaves(v))
      ensures Progress(old(objs), old(book), objs, book)
      ensures Potential(objs) == Potential(old(objs))
      decreases v, 1
    {
      hide Consistent, RootIds, Progress, Keeps, Potential, Raised;
      match v
      case Object(o) =>
        SourceCount(objs, v, Strong(o));
        NotFreed(objs, roots, book, o);
        CountUp(objs, roots, book, Strong(o));
        RefObject(o);
        book := Plus(book, Strong(o));
      case WeakObject(o) =>
        SourceCount(objs, v, Weak(o));
        NotFreed(objs, roots, book, o);
        CountUp(objs, roots, book, Weak(o));
        WeaklyRefObject(o);
        book := Plus(book, Weak(o));
      case Array(elems) =>
        CopyElems(elems);
      case Tuple(elems) =>
        CopyElems(elems);
      case Variant(inner) =>
        CopyValue(inner);
      case _ =>
        Rebook(objs, roots, book, roots, book);
        NoRaise(objs);
        assert book.pending + multiset{} == book.pending;
    }

    /** The loops of `di_copy_value` over arrays and tuples. */
    method CopyElems(vs: seq<Value>)
      requires Valid() && (forall i | 0 <= i < |vs| :: Copyable(vs[i])) && AllAvailable(objs, LeavesOfAll(vs))
      modifies this`objs, this`book
      ensures Valid() && objs == Raised(old(objs), LeavesOfAll(vs))
      ensures book == old(book).(pending := old(book.pending) + LeavesOfAll(vs))
      ensures Progress(old(objs), old(book), objs, book)
      ensures Potential(objs) == Potential(old(objs))
      decreases vs, 0
    {
      hide Consistent, RootIds, Progress, Keeps, Potential, Raised, Leaves, Copyable;
      ghost var objs0, b0 := objs, book;
      ghost var done: multiset<Claim> := multiset{};
      Rebook(objs, roots, book, roots, book);
      NoRaise(objs);
      assert vs[0..] == vs && multiset{} + LeavesOfAll(vs) == LeavesOfAll(vs) && book.pending + done == book.pending;
      var i := 0;
      while i < |vs|
        invariant 0 <= i <= |vs| && Valid()
        invariant objs == Raised(objs0, done) && done + LeavesOfAll(vs[i..]) == LeavesOfAll(vs)
        invariant book == b0.(pending := b0.pending + done)
        invariant Progress(objs0, b0, objs, book)
        invariant Potential(objs) == Potential(objs0)
      {
        ghost var objs1, b1, first, rest := objs, book, Leaves(vs[i]), LeavesOfAll(vs[i+1..]);
        assert vs[i..][1..] == vs[i+1..] && vs[i..][0] == vs[i];
        NextCopied(objs0, b0.pending, done, vs[i], rest, LeavesOfAll(vs));
        CopyValue(vs[i]);
        ProgressTrans(objs0, b0, objs1, b1, objs, book);
        RaisedSum(objs0, done, first);
        done := done + first;
        i := i + 1;
      }
      assert vs[i..] == [];
      assert done + multiset{} == done;
    }

    /** `di_new_object`. */
    method NewObject(dtor: Dtor) returns (o: Ref)
      requires Valid()
      modifies this`objs, this`book
      ensures Valid() && Progress(old(objs), old(book), objs, book)
      ensures o == |old(objs)| && objs == old(objs) + [Newborn(dtor)]
      ensures book == Hold(Born(old(book), o, dtor), Strong(o)) && book.pending == old(book.pending)
      ensures Potential(objs) == Potential(old(objs)) + 1 + DtorWeight(dtor)
    {
      hide Consistent, RootIds, Progress, Keeps, Potential;
      ghost var objs0, b0 := objs, book;
      o := |objs|;
      Create(objs, roots, book, dtor);
      objs := objs + [Newborn(dtor)];
      book := Born(book, o, dtor);
      ghost var objs1, b1 := objs, book;
      HoldPending(objs, roots, book, multiset{Strong(o)});
      book := Hold(book, Strong(o));
      ProgressTrans(objs0, b0, objs1, b1, objs, book);
      assert book.pending == b0.pending;
    }

    /** Foreign code takes one more strong reference to an object that is alive. */
    method Retain(o: Ref)
      requires Valid() && o < |objs| && objs[o].refCount > 0
      modifies this`objs, this`book
      ensures Valid() && Progress(old(objs), old(book), objs, book)
      ensures objs == Raised(old(objs), multiset{Strong(o)})
      ensures book == old(book).(held := old(book.held) + multiset{Strong(o)})
      ensures Potential(objs) == Potential(old(objs))
    {
      hide Consistent, RootIds, Progress, Keeps, Potential, Raised;
      ghost var objs0, b0 := objs, book;
      NotFreed(objs, roots, book, o);
      CountUp(objs, roots, book, Strong(o));
      RefObject(o);
      book := Plus(book, Strong(o));
      ghost var objs1, b1 := objs, book;
      HoldPending(objs, roots, book, multiset{Strong(o)});
      book := Hold(book, Strong(o));
      ProgressTrans(objs0, b0, objs1, b1, objs, book);
      assert book.pending == b0.pending;
    }

    /** Foreign code takes a weak reference to an object it has some reference to. */
    method RetainWeak(o: Ref)
      requires Valid() && o < |objs| && objs[o].weakCount > 0
      modifies this`objs, this`book
      ensures Valid() && Progress(old(objs), old(book), objs, book)
      ensures objs == Raised(old(objs), multiset{Weak(o)})
      ensures book == old(book).(held := old(book.held) + multiset{Weak(o)})
      ensures Potential(objs) == Potential(old(objs))
    {
      hide Consistent, RootIds, Progress, Keeps, Potential, Raised;
      ghost var objs0, b0 := objs, book;
      NotFreed(objs, roots, book, o);
      CountUp(objs, roots, book, Weak(o));
      WeaklyRefObject(o);
      book := Plus(book, Weak(o));
      ghost var objs1, b1 := objs, book;
      HoldPending(objs, roots, book, multiset{Weak(o)});
      book := Hold(book, Weak(o));
      ProgressTrans(objs0, b0, objs1, b1, objs, book);
      assert book.pending == b0.pending;
    }

    /** `di_upgrade_weak_ref`: succeeds exactly while the strong count is positive. */
    method Upgrade(o: Ref) returns (ok: bool)
      requires Valid() && Weak(o) in book.held
      modifies this`objs, this`book
      ensures o < |old(objs)| && ok == (old(objs)[o].refCount > 0)
      ensures Valid() && Progress(old(objs), old(book), objs, book)
      ensures ok ==> objs == Raised(old(objs), multiset{Strong(o)})
      ensures ok ==> book == old(book).(held := old(book.held) + multiset{Strong(o)})
      ensures !ok ==> objs == old(objs) && book == old(book)
      ensures Potential(objs) == Potential(old(objs))
    {
      hide Consistent, RootIds, Progress, Keeps, Potential, Raised;
      HeldTarget(objs, roots, book, Weak(o));
      Rebook(objs, roots, book, roots, book);
      ok := objs[o].refCount > 0;
      if ok {
        Retain(o);
      }
    }

    /** Foreign code gives a strong reference back. */
    method Release(o: Ref)
      requires Valid() && Strong(o) in book.held
      modifies this
      ensures Valid() && book.pending == old(book.pending)
      ensures Progress(old(objs), old(book), objs, book)
      ensures Potential(objs) <= Potential(old(objs))
      ensures RootsKept(old(roots), old(nextRoot), roots, nextRoot)
      ensures old(o < |objs| && objs[o].refCount > 1) ==>
        && old(objs) == Raised(objs, multiset{Strong(o)}) && roots == old(roots) && nextRoot == old(nextRoot)
        && book == old(book).(held := old(book.held) - multiset{Strong(o)})
      ensures old(o < |objs| && objs[o].refCount == 1) ==>
        o in book.finished && DtorRan(o, old(objs)[o], old(book.log), book.log)
      decreases Potential(objs), 4
    {
      hide Consistent, RootIds, Progress, Keeps, Potential, Raised, DtorRan;
      ghost var objs0, b0 := objs, book;
      ReleaseHeld(objs, roots, book, Strong(o));
      book := Yield(book, Strong(o));
      ghost var b1 := book;
      UnrefObject(o);
      ProgressTrans(objs0, b0, objs0, b1, objs, book);
      assert b1.pending - multiset{Strong(o)} == b0.pending;
    }

    /** Foreign code gives a weak reference back. */
    method ReleaseWeak(o: Ref)
      requires Valid() && Weak(o) in book.held
      modifies this`objs, this`book
      ensures Valid() && Progress(old(objs), old(book), objs, book)
      ensures book == old(book).(held := old(book.held) - multiset{Weak(o)})
      ensures o < |old(objs)| && old(objs)[o].weakCount > 0 && objs == old(objs)[o := WeakDown(old(objs)[o])]
      ensures Potential(objs) == Potential(old(objs))
    {
      hide Consistent, RootIds, Progress, Keeps, Potential, Raised;
      ghost var objs0, b0 := objs, book;
      ReleaseHeld(objs, roots, book, Weak(o));
      book := Yield(book, Weak(o));
      ghost var b1 := book;
      DropWeakRef(o);
      ProgressTrans(objs0, b0, objs0, b1, objs, book);
      assert b1.pending - multiset{Weak(o)} == b0.pending;
    }

    /** `di_add_member`: the object takes over the value, or the value is freed. */
    method AddMember(o: Ref, name: string, v: Value) returns (rc: Status)
      requires Valid() && o < |objs| && !objs[o].freed && Leaves(v) <= book.pending
      modifies this
      ensures Valid() && book.pending == old(book.pending) - Leaves(v)
      ensures Progress(old(objs), old(book), objs, book)
      ensures Potential(objs) <= Potential(old(objs)) + 2 + Size(v)
      ensures RootsKept(old(roots), old(nextRoot), roots, nextRoot)
      ensures rc == CheckNewMember(old(objs[o].members), name)
      ensures rc == Ok ==>
        && objs == old(objs)[o := Extended(old(objs[o]), Member(name, v))]
        && book == Stored(old(book), o, v) && roots == old(roots) && nextRoot == old(nextRoot)
      ensures rc != Ok && old(Quiet(objs, Leaves(v))) ==>
        && old(objs) == Raised(objs, Leaves(v)) && roots == old(roots) && nextRoot == old(nextRoot)
        && book == old(book).(pending := old(book.pending) - Leaves(v))
      decreases Potential(objs) + Size(v), 2
    {
      hide Consistent, RootIds, Progress, Keeps, Potential, Raised, Quiet;
      rc := CheckNewMember(objs[o].members, name);
      if rc == Ok {
        Link(objs, roots, book, o, Member(name, v));
        objs := objs[o := objs[o].(members := objs[o].members + [Member(name, v)])];
        book := Stored(book, o, v);
      } else {
        FreeValue(v);
      }
    }

    /** `di_add_member_clone`. */
    method AddMemberClone(o: Ref, name: string, v: Value) returns (rc: Status)
      requires Valid() && o < |objs| && !objs[o].freed && Copyable(v) && Available(objs, v)
      modifies this
      ensures Valid() && book.pending == old(book.pending)
      ensures Progress(old(objs), old(book), objs, book)
      ensures Potential(objs) <= Potential(old(objs)) + 2 + Size(v)
      ensures roots == old(roots) && nextRoot == old(nextRoot)
      ensures rc == if v.Nil? then Einval else CheckNewMember(old(objs[o].members), name)
      ensures rc == Ok ==> var raised := Raised(old(objs), Leaves(v));
        && objs == raised[o := Extended(raised[o], Member(name, v))]
        && book == old(book).(late := LateAfter(old(book), o))
      ensures rc != Ok ==> objs == old(objs) && book == old(book)
      decreases Potential(objs) + Size(v), 3
    {
      hide Consistent, RootIds, Progress, Keeps, Potential, Raised, Quiet;
      ghost var objs0, b0 := objs, book;
      if v.Nil? {
        Rebook(objs, roots, book, roots, book);
        return Einval;
      }
      CopyValue(v);
      ghost var objs1, b1 := objs, book;
      CopiedQuiet(objs0, objs1, b0.pending, v, o);
      rc := AddMember(o, name, v);
      if rc != Ok { Lowered(objs0, objs, Leaves(v)); }
      ProgressTrans(objs0, b0, objs1, b1, objs, book);
    }

    /** `di_add_member_move`: foreign code gives up its own references. */
    method AddMemberMove(o: Ref, name: string, v: Value) returns (rc: Status)
      requires Valid() && o < |objs| && !objs[o].freed && Leaves(v) <= book.held
      modifies this
      ensures Valid() && book.pending == old(book.pending)
      ensures Progress(old(objs), old(book), objs, book)
      ensures Potential(objs) <= Potential(old(objs)) + 2 + Size(v)
      ensures RootsKept(old(roots), old(nextRoot), roots, nextRoot)
      ensures rc == if v.Nil? then Einval else CheckNewMember(old(objs[o].members), name)
      ensures rc == Ok ==>
        && objs == old(objs)[o := Extended(old(objs[o]), Member(name, v))]
        && book == Stored(YieldAll(old(book), Leaves(v)), o, v) && roots == old(roots)
      ensures v.Nil? ==> objs == old(objs) && roots == old(roots) && book == old(book)
      ensures rc != Ok && old(Quiet(objs, Leaves(v))) ==>
        && old(objs) == Raised(objs, Leaves(v)) && roots == old(roots)
        && book == old(book).(held := old(book.held) - Leaves(v))
      decreases Potential(objs) + Size(v), 3
    {
      hide Consistent, RootIds, Progress, Keeps, Potential, Raised, Quiet;
      ghost var objs0, b0 := objs, book;
      if v.Nil? {
        Rebook(objs, roots, book, roots, book);
        NoRaise(objs);
        return Einval;
      }
      YieldHeld(objs, roots, book, Leaves(v));
      book := YieldAll(book, Leaves(v));
      ghost var b1 := book;
      AllYielded(b0, Leaves(v));
      rc := AddMember(o, name, v);
      ProgressTrans(objs0, b0, objs0, b1, objs, book);
    }

    /** `di_remove_member_raw`. */
    method RemoveMemberRaw(o: Ref, name: string) returns (rc: Status)
      requires Valid() && o < |objs| && !objs[o].freed && !Pinned(book, o, name)
      modifies this
      ensures Valid() && book.pending == old(book.pending)
      ensures Progress(old(objs), old(book), objs, book)
      ensures Potential(objs) <= Potential(old(objs))
      ensures RootsKept(old(roots), old(nextRoot), roots, nextRoot)
      ensures rc == if name in Names(old(objs[o].members)) then Ok else Enoent
      ensures rc != Ok ==> objs == old(objs) && book == old(book) && roots == old(roots)
      ensures rc == Ok ==> Potential(objs) < Potential(old(objs))
      ensures Unlinked(old(objs), old(roots), old(book), o, name, objs, roots, book)
      decreases Potential(objs), 4
    {
      hide Consistent, RootIds, Progress, Keeps, Potential, Raised, Quiet, Unlinked;
      ghost var objs0, roots0, b0 := objs, roots, book;
      match Find(objs[o].members, name)
      case None =>
        Rebook(objs, roots, book, roots, book);
        NotUnlinked(objs, roots, book, o, name);
        rc := Enoent;
      case Some(j) =>
        RemoveMemberImpl(o, j);
        OneUnlinked(objs0, roots0, b0, o, j, objs, roots, book);
        rc := Ok;
    }

    /** `di_rawgetx`: a copy of the member's value, now held by foreign code. */
    method RawGetX(o: Ref, name: string) returns (r: Option<Value>)
      requires Valid() && o < |objs| && !objs[o].freed
      requires forall m | m in objs[o].members :: m.name == name ==> Copyable(m.value)
      modifies this`objs, this`book
      ensures Valid() && Progress(old(objs), old(book), objs, book)
      ensures Potential(objs) == Potential(old(objs))
      ensures r.None? ==> name !in Names(old(objs[o].members)) && objs == old(objs) && book == old(book)
      ensures r.Some? ==>
        && Member(name, r.value) in old(objs[o].members)
        && objs == Raised(old(objs), Leaves(r.value))
        && book == old(book).(held := old(book.held) + Leaves(r.value))
    {
      hide Consistent, RootIds, Progress, Keeps, Potential, Raised, Names;
      ghost var objs0, b0 := objs, book;
      match Find(objs[o].members, name)
      case None =>
        Rebook(objs, roots, book, roots, book);
        r := None;
      case Some(j) =>
        var v := objs[o].members[j].value;
        assert objs[o].members[j] in objs[o].members;
        MemberAvailable(objs, roots, book, o, j);
        CopyValue(v);
        ghost var objs1, b1 := objs, book;
        HoldPending(objs, roots, book, Leaves(v));
        book := HoldAll(book, Leaves(v));
        ProgressTrans(objs0, b0, objs1, b1, objs, book);
        assert book.pending == b0.pending;
        r := Some(v);
    }

    /** `di_finalize_object`. */
    method FinalizeObject(o: Ref)
      requires Valid() && o < |objs| && objs[o].refCount > 0 && Saved(book, o).None?
      modifies this
      ensures Valid() && book.pending == old(book.pending)
      ensures Progress(old(objs), old(book), objs, book)
      ensures Potential(objs) <= Potential(old(objs))
      ensures RootsKept(old(roots), old(nextRoot), roots, nextRoot)
      ensures o < |objs| && objs[o].dtor.NoDtor?
      ensures DtorRan(o, old(objs[o]), old(book.log), book.log)
      decreases Potential(objs), 4
    {
      hide Consistent, RootIds, Progress, Keeps, Potential, Raised, DtorRan;
      ghost var objs0, b0, roots0, next0 := objs, book, roots, nextRoot;
      BeginFinalize(objs, roots, book, o);
      RefObject(o);
      book := WithGuard(book, o);
      ghost var objs1, b1 := objs, book;
      FinalizeBody(o, false);
      ghost var roots2, next2 := roots, nextRoot;
      EndFinalize(objs0, b0, objs1, objs, roots, book, o);
      book := Unguarded(book, o);
      ghost var objs2, b2 := objs, book;
      UnrefObject(o);
      ProgressTrans(objs0, b0, objs2, b2, objs, book);
      ProgressAt(objs2, b2, objs, book, o);
      RaisedOne(objs0, Strong(o));
      DtorRanSame(o, objs1[o], objs0[o], b0.log, b2.log);
      DtorRanGrows(o, objs0[o], b0.log, b2.log, book.log);
      StillKept(roots0, next0, roots2, next2, roots, nextRoot);
      assert b2.pending - multiset{Strong(o)} == b0.pending;
    }

    // ------------------------------------------------------------ anonymous roots

    /** `di_add_anonymous_root`. */
    method AddAnonymousRoot(o: Ref) returns (id: nat)
      requires Valid() && o < |objs| && objs[o].refCount > 0
      modifies this
      ensures Valid() && Progress(old(objs), old(book), objs, book)
      ensures id == old(nextRoot) && nextRoot == id + 1 && roots == old(roots) + [Root(id, o)]
      ensures objs == Raised(old(objs), multiset{Strong(o)}) && book == old(book)
      ensures Potential(objs) == Potential(old(objs))
    {
      hide Consistent, Progress, Keeps, Potential, Raised;
      ghost var objs0, b0 := objs, book;
      NotFreed(objs, roots, book, o);
      CountUp(objs, roots, book, Strong(o));
      RefObject(o);
      book := Plus(book, Strong(o));
      ghost var objs1, b1 := objs, book;
      id := nextRoot;
      nextRoot := nextRoot + 1;
      AppendRoot(objs, roots, book, Root(id, o));
      roots := roots + [Root(id, o)];
      book := Minus(book, Strong(o));
      ProgressTrans(objs0, b0, objs1, b1, objs, book);
      assert book.pending == b0.pending;
    }

    /** `di_remove_anonymous_root`: an id that is not there is ignored. */
    method RemoveAnonymousRoot(id: nat)
      requires Valid()
      modifies this
      ensures Valid() && book.pending == old(book.pending)
      ensures Progress(old(objs), old(book), objs, book)
      ensures Potential(objs) <= Potential(old(objs))
      ensures RootsKept(old(roots), old(nextRoot), roots, nextRoot)
      ensures forall r | r in roots :: r.id != id || old(nextRoot) <= id
      ensures (forall r | r in old(roots) :: r.id != id) ==> objs == old(objs) && book == old(book) && roots == old(roots)
      ensures Uprooted(old(objs), old(roots), old(book), id, objs, roots, book)
      decreases Potential(objs), 4
    {
      hide Consistent, Progress, Keeps, Potential, Raised, DtorRan, Quiet, Uprooted, CountOf;
      ghost var objs0, b0, roots0, next0 := objs, book, roots, nextRoot;
      Rebook(objs, roots, book, roots, book);
      NotUprooted(objs, roots, book, id);
      match FindRoot(roots, id)
      case None =>
      case Some(i) =>
        var o := roots[i].obj;
        ObjectQuiet(objs, Strong(o));
        RemoveRootAt(objs, roots, book, i);
        WithoutRootFacts(roots, nextRoot, i);
        roots := WithoutRoot(roots, i);
        book := Plus(book, Strong(o));
        ghost var b1, roots1 := book, roots;
        UnrefObject(o);
        ProgressTrans(objs0, b0, objs0, b1, objs, book);
        StillKept(roots0, next0, roots1, next0, roots, nextRoot);
        assert b1.pending - multiset{Strong(o)} == b0.pending;
        OneUprooted(objs0, roots0, next0, b0, i, objs, roots, book);
    }

    /** `di_roots_dtor`: empty the table first, then release what was in it. */
    method RootsDtor()
      requires Valid()
      modifies this
      ensures Valid() && book.pending == old(book.pending)
      ensures Progress(old(objs), old(book), objs, book)
      ensures Potential(objs) <= Potential(old(objs))
      ensures RootsKept([], old(nextRoot), roots, nextRoot)
      ensures old(Quiet(objs, RootClaims(roots))) ==>
        old(objs) == Raised(objs, RootClaims(old(roots))) && roots == [] && book == old(book)
      decreases Potential(objs), 4
    {
      hide Consistent, RootIds, Progress, Keeps, Potential, Raised, RootsKept, RootClaims, Quiet;
      ghost var objs0, b0 := objs, book;
      var toFree := roots;
      TakeRoots(objs, roots, nextRoot, book);
      StillKept([], nextRoot, [], nextRoot, [], nextRoot);
      roots := [];
      book := book.(pending := book.pending + RootClaims(toFree));
      ghost var b1 := book;
      ReleaseAll(toFree);
      ProgressTrans(objs0, b0, objs0, b1, objs, book);
      assert b1.pending - RootClaims(toFree) == b0.pending;
    }

    /** The second loop of `di_roots_dtor`. */
    method ReleaseAll(toFree: seq<Root>)
      requires Valid() && RootClaims(toFree) <= book.pending
      modifies this
      ensures Valid() && book.pending == old(book.pending) - RootClaims(toFree)
      ensures Progress(old(objs), old(book), objs, book)
      ensures Potential(objs) <= Potential(old(objs))
      ensures RootsKept(old(roots), old(nextRoot), roots, nextRoot)
      ensures old(Quiet(objs, RootClaims(toFree))) ==>
        && old(objs) == Raised(objs, RootClaims(toFree)) && roots == old(roots)
        && book == old(book).(pending := old(book.pending) - RootClaims(toFree))
      decreases Potential(objs), 3
    {
      hide Consistent, RootIds, Progress, Keeps, Potential, Raised, RootsKept, Split, RootClaims, Quiet, CountOf, DtorRan;
      ghost var objs0, b0, all, quiet := objs, book, RootClaims(toFree), Quiet(objs, RootClaims(toFree));
      ghost var done: multiset<Claim> := multiset{};
      Rebook(objs, roots, book, roots, book);
      NoRaise(objs);
      SplitStart(book.pending, all);
      StillKept(roots, nextRoot, roots, nextRoot, roots, nextRoot);
      assert toFree[0..] == toFree;
      var i := 0;
      while i < |toFree|
        invariant 0 <= i <= |toFree| && Valid()
        invariant Split(b0.pending, book.pending, done, RootClaims(toFree[i..]), all)
        invariant Progress(objs0, b0, objs, book)
        invariant Potential(objs) <= Potential(objs0)
        invariant RootsKept(old(roots), old(nextRoot), roots, nextRoot)
        invariant quiet ==> objs0 == Raised(objs, done) && Quiet(objs, RootClaims(toFree[i..]))
        invariant quiet ==> roots == old(roots) && book == b0.(pending := book.pending)
      {
        ghost var objs1, b1, roots1, next1 := objs, book, roots, nextRoot;
        FirstRoot(toFree, i);
        ghost var first, rest := multiset{Strong(toFree[i].obj)}, RootClaims(toFree[i+1..]);
        SplitNext(b0.pending, book.pending, done, first, rest, all);
        if quiet {
          QuietRest(objs, objs, first, rest);
          ObjectQuiet(objs, Strong(toFree[i].obj));
        }
        UnrefObject(toFree[i].obj);
        ProgressTrans(objs0, b0, objs1, b1, objs, book);
        StillKept(old(roots), old(nextRoot), roots1, next1, roots, nextRoot);
        if quiet {
          QuietRest(objs1, objs, first, rest);
          RaisedSum(objs, first, done);
        }
        done := done + first;
        i := i + 1;
      }
      LastRoot(toFree, i);
      SplitEnd(b0.pending, book.pending, done, all);
    }

    // ------------------------------------------------------------ programs

    /** Make the calls of a script, in order. */
    method RunScript(script: Script)
      requires Valid()
      modifies this
      ensures Valid() && book.pending == old(book.pending)
      ensures Progress(old(objs), old(book), objs, book)
      ensures Potential(objs) <= Potential(old(objs)) + ScriptWeight(script)
      ensures RootsKept(old(roots), old(nextRoot), roots, nextRoot)
      ensures Made(|old(book.log)|, book.log, script)
      decreases Potential(objs) + ScriptWeight(script), 1
    {
      hide Consistent, RootIds, Progress, Keeps, Potential, RootsKept, ActionWeight, Made;
      ghost var objs0, b0 := objs, book;
      Rebook(objs, roots, book, roots, book);
      StillKept(roots, nextRoot, roots, nextRoot, roots, nextRoot);
      assert script[0..] == script;
      MadeNone(|book.log|, book.log, script);
      var i := 0;
      while i < |script|
        invariant 0 <= i <= |script| && Valid() && book.pending == b0.pending
        invariant Progress(objs0, b0, objs, book)
        invariant Potential(objs) + ScriptWeight(script[i..]) <= Potential(objs0) + ScriptWeight(script)
        invariant RootsKept(old(roots), old(nextRoot), roots, nextRoot)
        invariant |b0.log| <= |book.log| && Made(|b0.log|, book.log, script[..i])
      {
        ghost var objs1, b1, roots1, next1 := objs, book, roots, nextRoot;
        assert script[i..][1..] == script[i+1..] && script[i..][0] == script[i];
        Perform(script[i]);
        ProgressTrans(objs0, b0, objs1, b1, objs, book);
        StillKept(old(roots), old(nextRoot), roots1, next1, roots, nextRoot);
        MadeOne(|b0.log|, b1.log, book.log, script, i);
        i := i + 1;
      }
      assert script[..i] == script;
    }

    /** One call by foreign code, made only if it respects the contract of the call. */
    method Perform(a: Action)
      requires Valid()
      modifies this
      ensures Valid() && book.pending == old(book.pending)
      ensures Progress(old(objs), old(book), objs, book)
      ensures Potential(objs) <= Potential(old(objs)) + ActionWeight(a)
      ensures RootsKept(old(roots), old(nextRoot), roots, nextRoot)
      ensures |old(book.log)| < |book.log| && old(book.log) <= book.log && book.log[|old(book.log)|] == Calls(a)
      decreases Potential(objs) + ActionWeight(a), 1
    {
      hide Consistent, RootIds, Progress, Keeps, Potential, Names, Raised, DtorRan;
      ghost var objs0, b0 := objs, book;
      LogCall(objs, roots, book, a);
      book := book.(log := book.log + [Calls(a)]);
      Dispatch(a);
      LogGrows(objs0, b0.(log := b0.log + [Calls(a)]), objs, book);
      ProgressTrans(objs0, b0, objs0, b0.(log := b0.log + [Calls(a)]), objs, book);
    }

    method Dispatch(a: Action)
      requires Valid()
      modifies this
      ensures Valid() && book.pending == old(book.pending)
      ensures Progress(old(objs), old(book), objs, book)
      ensures Potential(objs) <= Potential(old(objs)) + ActionWeight(a)
      ensures RootsKept(old(roots), old(nextRoot), roots, nextRoot)
      decreases Potential(objs) + ActionWeight(a), 0
    {
      hide Consistent, RootIds, Progress, Keeps, Potential, Names, Raised, DtorRan;
      Rebook(objs, roots, book, roots, book);
      match a
      case New(dtor) =>
        var _ := NewObject(dtor);
      case RefAct(o) =>
        if Alive(o) { Retain(o); }
      case UnrefAct(o) =>
        if Strong(o) in book.held { Release(o); }
      case WeakRefAct(o) =>
        if o < |objs| && objs[o].weakCount > 0 { RetainWeak(o); }
      case DropWeakAct(o) =>
        if Weak(o) in book.held { ReleaseWeak(o); }
      case UpgradeAct(o) =>
        if Weak(o) in book.held { var _ := Upgrade(o); }
      case AddClone(o, name, v) =>
        if Alive(o) && Copyable(v) && Available(objs, v) {
          NotFreed(objs, roots, book, o);
          var _ := AddMemberClone(o, name, v);
        }
      case AddMove(o, name, v) =>
        if Alive(o) && Leaves(v) <= book.held {
          NotFreed(objs, roots, book, o);
          var _ := AddMemberMove(o, name, v);
        }
      case Remove(o, name) =>
        if Alive(o) && !Pinned(book, o, name) {
          NotFreed(objs, roots, book, o);
          var _ := RemoveMemberRaw(o, name);
        }
      case RawGet(o, name) =>
        if Alive(o) && forall m | m in objs[o].members :: m.name == name ==> Copyable(m.value) {
          NotFreed(objs, roots, book, o);
          var _ := RawGetX(o, name);
        }
      case Finalize(o) =>
        if Alive(o) && Saved(book, o).None? { FinalizeObject(o); }
      case AddRoot(o) =>
        if Alive(o) { var _ := AddAnonymousRoot(o); }
      case RemoveRoot(id) =>
        RemoveAnonymousRoot(id);
      case ReleaseRoots =>
        RootsDtor();
    }

    predicate Alive(o: Ref)
      reads this`objs
    {
      o < |objs| && objs[o].refCount > 0
    }
  }
}
