/** The leak and cycle detector of object.c: a three-colour depth-first marking pass
    from the roots, then a look for unmarked objects. */
module MarkSweep {
  import opened Values
  import opened Runtime

  import Lifetimes

  /** `o->members` holds a member of type OBJECT that is `y`. References inside
      arrays, tuples and variants are not followed. */
  predicate Edge(objs: seq<ObjectState>, x: Ref, y: Ref) {
    x < |objs| && HasMember(objs[x].members, y)
  }

  predicate HasMember(ms: seq<Member>, y: Ref) {
    exists i | 0 <= i < |ms| :: ms[i].value == Object(y)
  }

  ghost predicate Walk(objs: seq<ObjectState>, p: seq<Ref>) {
    p != [] && forall k | 0 <= k < |p| - 1 :: Edge(objs, p[k], p[k+1])
  }

  ghost predicate Reached(objs: seq<ObjectState>, starts: set<Ref>, y: Ref) {
    exists p :: Walk(objs, p) && p[0] in starts && p[|p|-1] == y
  }

  /** A reference cycle: a walk of at least one edge back to where it began. */
  ghost predicate Cycle(objs: seq<ObjectState>, p: seq<Ref>) {
    Walk(objs, p) && |p| > 1 && p[0] == p[|p|-1]
  }

  ghost predicate ReachedCycle(objs: seq<ObjectState>, starts: set<Ref>) {
    exists p :: Cycle(objs, p) && Reached(objs, starts, p[0])
  }

  lemma ReachedStart(objs: seq<ObjectState>, starts: set<Ref>, x: Ref)
    requires x in starts
    ensures Reached(objs, starts, x)
  {
    assert Walk(objs, [x]);
  }

  lemma ReachedNext(objs: seq<ObjectState>, starts: set<Ref>, x: Ref, y: Ref)
    requires Reached(objs, starts, x) && Edge(objs, x, y)
    ensures Reached(objs, starts, y)
  {
    var p :| Walk(objs, p) && p[0] in starts && p[|p|-1] == x;
    var q := p + [y];
    forall k | 0 <= k < |q| - 1 ensures Edge(objs, q[k], q[k+1]) {
      if k < |p| - 1 { assert Edge(objs, p[k], p[k+1]); }
    }
    assert Walk(objs, q) && q[0] in starts && q[|q|-1] == y;
  }

  // ---------------------------------------------------------------- colours

  const WHITE: nat := 0
  const GREY: nat := 1
  const BLACK: nat := 2

  ghost function Whites(m: seq<nat>): nat {
    if m == [] then 0 else (if m[0] == WHITE then 1 else 0) + Whites(m[1..])
  }

  lemma {:induction false} Darken(m: seq<nat>, i: nat, c: nat)
    requires i < |m| && c != WHITE
    ensures Whites(m[i := c]) == Whites(m) - if m[i] == WHITE then 1 else 0
  {
    if i > 0 {
      assert m[i := c][1..] == m[1..][i-1 := c];
      Darken(m[1..], i - 1, c);
    } else {
      assert m[i := c][1..] == m[1..];
    }
  }

  /** What the marking pass knows at any moment: the grey objects are those on the
      recursion stack, which is a walk; black objects have no white successors, and as
      long as no cycle was reported they come after all their successors in the order of
      finishing; everything marked is reachable. */
  ghost predicate Marking(objs: seq<ObjectState>, starts: set<Ref>, m: seq<nat>, stack: seq<Ref>,
                          finish: seq<Ref>, warnings: nat) {
    && |m| == |objs|
    && (forall x | 0 <= x < |m| :: m[x] == GREY <==> x in stack)
    && (forall x | x in stack :: x < |m|)
    && (forall k | 0 <= k < |stack| - 1 :: Edge(objs, stack[k], stack[k+1]))
    && (forall x | 0 <= x < |m| :: m[x] == BLACK <==> x in finish)
    && (forall x | x in finish :: x < |m|)
    && (forall x: Ref, y: Ref | x < |m| && y < |m| && m[x] == BLACK && Edge(objs, x, y) :: m[y] != WHITE)
    && (warnings == 0 ==> forall k, y: Ref | 0 <= k < |finish| && Edge(objs, finish[k], y) :: y in finish[..k])
    && (warnings > 0 ==> ReachedCycle(objs, starts))
    && (forall x | 0 <= x < |m| :: m[x] <= BLACK && (m[x] != WHITE ==> Reached(objs, starts, x)))
  }

  /** Marks only get darker; outside the new black ones nothing changes. */
  ghost predicate Darker(m: seq<nat>, m': seq<nat>) {
    |m'| == |m| && forall x | 0 <= x < |m| :: m'[x] == m[x] || (m[x] == WHITE && m'[x] == BLACK)
  }

  lemma DarkerTrans(m: seq<nat>, m': seq<nat>, m'': seq<nat>)
    requires Darker(m, m') && Darker(m', m'')
    ensures Darker(m, m'')
  {}

  /** The strong references of listed objects lead to listed objects. */
  ghost predicate Closed(objs: seq<ObjectState>, live: set<Ref>) {
    && (forall x | x in live :: x < |objs|)
    && (forall x, y: Ref | x in live && Edge(objs, x, y) :: y in live)
  }

  /** A grey successor closes a cycle. */
  lemma GreyCycle(objs: seq<ObjectState>, starts: set<Ref>, m: seq<nat>, stack: seq<Ref>, finish: seq<Ref>,
                  warnings: nat, y: Ref)
    requires Marking(objs, starts, m, stack, finish, warnings) && stack != []
    requires Edge(objs, stack[|stack|-1], y) && y in stack
    ensures ReachedCycle(objs, starts)
  {
    var k :| 0 <= k < |stack| && stack[k] == y;
    var p := stack[k..] + [y];
    forall j | 0 <= j < |p| - 1 ensures Edge(objs, p[j], p[j+1]) {
      if j < |p| - 2 { assert Edge(objs, stack[k+j], stack[k+j+1]); }
    }
    assert Cycle(objs, p);
  }

  /** An object turns grey and goes on the stack. */
  lemma Enter(objs: seq<ObjectState>, starts: set<Ref>, m: seq<nat>, stack: seq<Ref>, finish: seq<Ref>,
              warnings: nat, o: Ref)
    requires Marking(objs, starts, m, stack, finish, warnings)
    requires o < |m| && m[o] == WHITE && Reached(objs, starts, o)
    requires stack != [] ==> Edge(objs, stack[|stack|-1], o)
    ensures Marking(objs, starts, m[o := GREY], stack + [o], finish, warnings)
  {
    hide Edge, Reached, ReachedCycle;
  }

  /** The successors of `ms` seen so far. */
  ghost predicate Seen(ms: seq<Member>, n: nat, m: seq<nat>, warnings: nat) {
    forall j | 0 <= j < n <= |ms| && ms[j].value.Object? ::
      ms[j].value.obj < |m| && m[ms[j].value.obj] != WHITE && (warnings == 0 ==> m[ms[j].value.obj] == BLACK)
  }

  /** All successors have been seen: the object turns black and leaves the stack. */
  lemma Leave(objs: seq<ObjectState>, starts: set<Ref>, m: seq<nat>, stack: seq<Ref>, finish: seq<Ref>,
              warnings: nat, o: Ref)
    requires Marking(objs, starts, m, stack + [o], finish, warnings) && o !in stack && o < |m|
    requires Seen(objs[o].members, |objs[o].members|, m, warnings)
    ensures Marking(objs, starts, m[o := BLACK], stack, finish + [o], warnings)
  {
    hide Reached, ReachedCycle;
    var m', finish' := m[o := BLACK], finish + [o];
    assert forall x | x in stack :: x in stack + [o];
    assert m[o] == GREY by { assert (stack + [o])[|stack|] == o; }
    forall k | 0 <= k < |stack| - 1 ensures Edge(objs, stack[k], stack[k+1]) {
      assert Edge(objs, (stack + [o])[k], (stack + [o])[k+1]);
    }
    forall y: Ref | Edge(objs, o, y) ensures y < |m| && m[y] != WHITE && (warnings == 0 ==> y in finish) {
      var i :| 0 <= i < |objs[o].members| && objs[o].members[i].value == Object(y);
    }
    if warnings == 0 {
      forall k, y: Ref | 0 <= k < |finish'| && Edge(objs, finish'[k], y) ensures y in finish'[..k] {
        if k < |finish| {
          assert finish'[..k] == finish[..k] && finish'[k] == finish[k];
        } else {
          assert finish'[..k] == finish;
        }
      }
    }
  }

  lemma GreyOnStack(objs: seq<ObjectState>, starts: set<Ref>, m: seq<nat>, stack: seq<Ref>, finish: seq<Ref>, warnings: nat, o: Ref)
    requires Marking(objs, starts, m, stack, finish, warnings) && o < |objs|
    ensures |m| == |objs| && m[o] <= BLACK && (m[o] == GREY <==> o in stack)
  {}

  lemma Warned(objs: seq<ObjectState>, starts: set<Ref>, m: seq<nat>, stack: seq<Ref>, finish: seq<Ref>, warnings: nat)
    requires Marking(objs, starts, m, stack, finish, warnings) && ReachedCycle(objs, starts)
    ensures Marking(objs, starts, m, stack, finish, warnings + 1)
  {
    hide Edge, Reached, ReachedCycle;
  }

  lemma SeenNext(ms: seq<Member>, i: nat, m: seq<nat>, warnings: nat, m': seq<nat>, warnings': nat)
    requires i < |ms| && Seen(ms, i, m, warnings) && Darker(m, m') && warnings <= warnings'
    requires ms[i].value.Object? ==> ms[i].value.obj < |m'| && m'[ms[i].value.obj] != WHITE
    requires ms[i].value.Object? && warnings' == 0 ==> m'[ms[i].value.obj] == BLACK
    ensures Seen(ms, i + 1, m', warnings')
  {}

  lemma SeenNone(ms: seq<Member>, m: seq<nat>, warnings: nat)
    ensures Seen(ms, 0, m, warnings)
  {}

  lemma SameDarker(m: seq<nat>)
    ensures Darker(m, m)
  {}

  lemma ListedInRange(objs: seq<ObjectState>, live: set<Ref>, o: Ref)
    requires Closed(objs, live) && o in live
    ensures o < |objs|
  {}

  lemma ListedNext(objs: seq<ObjectState>, live: set<Ref>, o: Ref, i: nat)
    requires Closed(objs, live) && o in live && o < |objs| && i < |objs[o].members| && objs[o].members[i].value.Object?
    ensures Edge(objs, o, objs[o].members[i].value.obj) && objs[o].members[i].value.obj in live
    ensures objs[o].members[i].value.obj < |objs|
  {
    var y := objs[o].members[i].value.obj;
    assert objs[o].members[i].value == Object(y);
    assert Edge(objs, o, y);
  }

  lemma DarkerAt(m: seq<nat>, m': seq<nat>, o: Ref)
    requires Darker(m, m') && o < |m| && m[o] != WHITE
    ensures |m'| == |m| && m'[o] == m[o]
  {}

  lemma DarkerEnds(m: seq<nat>, m': seq<nat>, o: Ref)
    requires o < |m| && m[o] == WHITE && Darker(m[o := GREY], m')
    ensures Darker(m, m'[o := BLACK])
  {}

  ghost function Starts(roots: Ref, anonymous: seq<Root>): set<Ref> {
    {roots} + set r | r in anonymous :: r.obj
  }

  lemma ListedAll(objs: seq<ObjectState>, live: set<Ref>)
    requires Closed(objs, live)
    ensures forall x | x in live :: x < |objs|
  {}

  lemma AllWhite(objs: seq<ObjectState>, starts: set<Ref>, m: seq<nat>)
    requires |m| == |objs| && forall x | 0 <= x < |m| :: m[x] == WHITE
    ensures Marking(objs, starts, m, [], [], 0)
  {}

  lemma {:induction false} WalkIsBlack(objs: seq<ObjectState>, starts: set<Ref>, live: set<Ref>, m: seq<nat>,
                                       finish: seq<Ref>, warnings: nat, p: seq<Ref>)
    requires Marking(objs, starts, m, [], finish, warnings) && Closed(objs, live)
    requires forall x | x in starts :: x in live && m[x] == BLACK
    requires Walk(objs, p) && p[0] in starts
    ensures p[|p|-1] in live && p[|p|-1] < |m| && m[p[|p|-1]] == BLACK
    decreases |p|
  {
    if |p| > 1 {
      var q := p[..|p|-1];
      assert forall k | 0 <= k < |q| - 1 :: Edge(objs, p[k], p[k+1]) ==> Edge(objs, q[k], q[k+1]);
      WalkIsBlack(objs, starts, live, m, finish, warnings, q);
      assert Edge(objs, p[|p|-2], p[|p|-1]);
    }
  }

  /** A walk goes steadily backwards in the order of finishing. */
  lemma {:induction false} WalkGoesBack(objs: seq<ObjectState>, starts: set<Ref>, m: seq<nat>, finish: seq<Ref>, p: seq<Ref>)
      returns (k: nat)
    requires Marking(objs, starts, m, [], finish, 0) && Walk(objs, p) && p[0] in finish
    ensures k < |finish| && finish[k] == p[|p|-1] && p[0] in finish
    ensures |p| > 1 ==> exists j | k < j < |finish| :: finish[j] == p[0]
    ensures forall j | 0 <= j < |finish| && finish[j] == p[0] && |p| > 1 :: p[|p|-1] in finish[..j]
    decreases |p|
  {
    if |p| == 1 {
      k :| 0 <= k < |finish| && finish[k] == p[0];
    } else {
      var q := p[..|p|-1];
      assert forall i | 0 <= i < |q| - 1 :: Edge(objs, p[i], p[i+1]) ==> Edge(objs, q[i], q[i+1]);
      var y := p[|p|-1];
      var k0 := WalkGoesBack(objs, starts, m, finish, q);
      assert Edge(objs, q[|q|-1], y);
      forall j | 0 <= j < |finish| && finish[j] == p[0] ensures y in finish[..j] {
        var i: nat;
        if |q| == 1 { i := j; } else {
          i :| 0 <= i < j && finish[i] == q[|q|-1];
        }
        assert Edge(objs, finish[i], y) && y in finish[..i];
      }
      var j0 :| 0 <= j0 < |finish| && finish[j0] == p[0];
      k :| 0 <= k < j0 && finish[k] == y;
    }
  }

  lemma NoCycle(objs: seq<ObjectState>, starts: set<Ref>, live: set<Ref>, m: seq<nat>, finish: seq<Ref>)
    requires Marking(objs, starts, m, [], finish, 0) && Closed(objs, live)
    requires forall x | x in starts :: x in live && m[x] == BLACK
    ensures !ReachedCycle(objs, starts)
  {
    forall c | Cycle(objs, c) && Reached(objs, starts, c[0]) ensures false {
      var p :| Walk(objs, p) && p[0] in starts && p[|p|-1] == c[0];
      WalkIsBlack(objs, starts, live, m, finish, 0, p);
      var j := FirstIndex(finish, c[0]);
      var k := WalkGoesBack(objs, starts, m, finish, c);
    }
  }

  lemma {:induction false} FirstIndex(s: seq<Ref>, x: Ref) returns (j: nat)
    requires x in s
    ensures j < |s| && s[j] == x && x !in s[..j]
  {
    if s[0] == x { j := 0; } else {
      j := FirstIndex(s[1..], x);
      assert s[..j+1] == [s[0]] + s[1..][..j];
      j := j + 1;
    }
  }

  /** At the end of the pass. */
  lemma AllMarked(objs: seq<ObjectState>, starts: set<Ref>, live: set<Ref>, m: seq<nat>, finish: seq<Ref>, warnings: nat)
    requires Marking(objs, starts, m, [], finish, warnings) && Closed(objs, live) && |m| == |objs|
    requires forall x | x in starts :: x in live && x < |m| && m[x] == BLACK
    ensures forall x | 0 <= x < |m| :: m[x] == if Reached(objs, starts, x) then BLACK else WHITE
    ensures warnings > 0 <==> ReachedCycle(objs, starts)
  {
    forall x | 0 <= x < |m| ensures m[x] == if Reached(objs, starts, x) then BLACK else WHITE {
      if Reached(objs, starts, x) {
        var p :| Walk(objs, p) && p[0] in starts && p[|p|-1] == x;
        WalkIsBlack(objs, starts, live, m, finish, warnings, p);
      }
    }
    if warnings == 0 { NoCycle(objs, starts, live, m, finish); }
  }

  /** In a consistent heap the strong member references of blocks that still exist
      lead to blocks that still exist, so the detector's requirement holds. */
  lemma ListedClosed(objs: seq<ObjectState>, roots: seq<Root>, b: Book, live: set<Ref>)
    requires Consistent(objs, roots, b) && live == set x | 0 <= x < |objs| && !objs[x].freed
    ensures Closed(objs, live)
  {
    hide Lifecycle, Table;
    forall x: Ref, y: Ref | x in live && Edge(objs, x, y) ensures y in live {
      var i :| 0 <= i < |objs[x].members| && objs[x].members[i].value == Object(y);
      MemberAvailable(objs, roots, b, x, i);
      SourceCount(objs, objs[x].members[i].value, Strong(y));
      NotFreed(objs, roots, b, y);
    }
  }

  // ---------------------------------------------------------------- what the answer means

  lemma {:induction false} ValueClaims(ms: seq<Member>, i: nat, y: Ref)
    requires i < |ms| && ms[i].value == Object(y)
    ensures Strong(y) in MemberClaims(ms)
  {
    if i > 0 { ValueClaims(ms[1..], i - 1, y); }
  }

  /** What the detector follows is a strong member reference. */
  lemma EdgeRefers(objs: seq<ObjectState>, x: Ref, y: Ref)
    requires Edge(objs, x, y)
    ensures Lifetimes.Refers(objs, x, y)
  {
    var i :| 0 <= i < |objs[x].members| && objs[x].members[i].value == Object(y);
    ValueClaims(objs[x].members, i, y);
  }

  ghost predicate Anchors(roots: seq<Root>, b: Book, starts: set<Ref>) {
    forall x | x in starts :: Lifetimes.Anchored(roots, b, x)
  }

  lemma ReachedReachable(objs: seq<ObjectState>, roots: seq<Root>, b: Book, starts: set<Ref>, x: Ref)
    requires Anchors(roots, b, starts) && Reached(objs, starts, x)
    ensures Lifetimes.Reachable(objs, roots, b, x)
  {
    var p :| Walk(objs, p) && p[0] in starts && p[|p|-1] == x;
    forall k | 0 <= k < |p| - 1 ensures Lifetimes.Refers(objs, p[k], p[k+1]) { EdgeRefers(objs, p[k], p[k+1]); }
    assert Lifetimes.PathTo(objs, p, x);
  }

  /** Something is reachable, but not for the detector: foreign code holds it, or it is referred to from
      inside an array, a tuple or a variant, and the detector comes to it in no other way. */
  ghost predicate Unseen(objs: seq<ObjectState>, roots: seq<Root>, b: Book, starts: set<Ref>) {
    || (exists x :: Lifetimes.Anchored(roots, b, x) && !Reached(objs, starts, x))
    || (exists x, y :: Reached(objs, starts, x) && Lifetimes.Refers(objs, x, y) && !Reached(objs, starts, y))
  }

  lemma {:induction false} AllSeen(objs: seq<ObjectState>, roots: seq<Root>, b: Book, starts: set<Ref>, p: seq<Ref>, x: Ref)
    requires !Unseen(objs, roots, b, starts) && Lifetimes.PathTo(objs, p, x) && Lifetimes.Anchored(roots, b, p[0])
    ensures Reached(objs, starts, x)
  {
    if |p| > 1 {
      var q := p[..|p|-1];
      forall k | 0 <= k < |q| - 1 ensures Lifetimes.Refers(objs, q[k], q[k+1]) {
        assert Lifetimes.Refers(objs, p[k], p[k+1]);
      }
      AllSeen(objs, roots, b, starts, q, q[|q|-1]);
      assert Lifetimes.Refers(objs, p[|p|-2], p[|p|-1]);
    }
  }

  lemma UnseenIff(objs: seq<ObjectState>, roots: seq<Root>, b: Book, starts: set<Ref>)
    requires Anchors(roots, b, starts)
    ensures Unseen(objs, roots, b, starts) <==>
      exists x :: Lifetimes.Reachable(objs, roots, b, x) && !Reached(objs, starts, x)
  {
    if x :| Lifetimes.Anchored(roots, b, x) && !Reached(objs, starts, x) {
      assert Lifetimes.PathTo(objs, [x], x);
    }
    if x, y :| Reached(objs, starts, x) && Lifetimes.Refers(objs, x, y) && !Reached(objs, starts, y) {
      ReachedReachable(objs, roots, b, starts, x);
      var p :| Lifetimes.PathTo(objs, p, x) && Lifetimes.Anchored(roots, b, p[0]);
      Lifetimes.Longer(objs, p, x, y);
    }
    if !Unseen(objs, roots, b, starts) {
      forall x | Lifetimes.Reachable(objs, roots, b, x) ensures Reached(objs, starts, x) {
        var p :| Lifetimes.PathTo(objs, p, x) && Lifetimes.Anchored(roots, b, p[0]);
        AllSeen(objs, roots, b, starts, p, x);
      }
    }
  }

  /** Some object that is alive is out of reach of foreign code and roots. */
  ghost predicate Garbage(objs: seq<ObjectState>, roots: seq<Root>, b: Book) {
    exists x: nat :: x < |objs| && objs[x].refCount > 0 && !Lifetimes.Reachable(objs, roots, b, x)
  }

  /** A block of a dead object is kept for its weak references. */
  ghost predicate WeaklyKept(objs: seq<ObjectState>) {
    exists x: nat :: x < |objs| && objs[x].refCount == 0 && !objs[x].freed
  }

  /** What it means that the detector reports a leak: that there is garbage, or that a block is kept for
      weak references only, or that something that is reachable is not so for the detector. */
  lemma LeakMeans(objs: seq<ObjectState>, roots: seq<Root>, b: Book, starts: set<Ref>)
    requires Consistent(objs, roots, b) && Anchors(roots, b, starts)
    ensures (exists x: nat :: x < |objs| && !objs[x].freed && !Reached(objs, starts, x)) <==>
      Garbage(objs, roots, b) || WeaklyKept(objs) || Unseen(objs, roots, b, starts)
  {
    hide Consistent, Reached, Lifetimes.Reachable, Unseen, Anchors;
    UnseenIff(objs, roots, b, starts);
    forall x: nat ensures Reached(objs, starts, x) ==> Lifetimes.Reachable(objs, roots, b, x) {
      if Reached(objs, starts, x) { ReachedReachable(objs, roots, b, starts, x); }
    }
    forall x: nat ensures Lifetimes.Reachable(objs, roots, b, x) ==> x < |objs| && objs[x].refCount > 0 {
      if Lifetimes.Reachable(objs, roots, b, x) { ReachableLives(objs, roots, b, x); }
    }
    forall x: nat | x < |objs| ensures objs[x].refCount > 0 ==> !objs[x].freed { NotFreed(objs, roots, b, x); }
  }

  lemma ReachableLives(objs: seq<ObjectState>, roots: seq<Root>, b: Book, x: Ref)
    requires Consistent(objs, roots, b) && Lifetimes.Reachable(objs, roots, b, x)
    ensures x < |objs| && objs[x].refCount > 0
  {
    hide Consistent;
    var p :| Lifetimes.PathTo(objs, p, x) && Lifetimes.Anchored(roots, b, p[0]);
    Lifetimes.ReachableIsAlive(objs, roots, b, p, x);
  }

  class Tracker {
    const objs: seq<ObjectState>   // the objects with their member tables
    const allObjects: seq<Ref>     // `all_objects`
    const mark: array<nat>         // the `mark` field of each object
    var warnings: nat              // cycles reported to the log
    ghost var finish: seq<Ref>

    constructor (objs: seq<ObjectState>, allObjects: seq<Ref>)
      ensures this.objs == objs && this.allObjects == allObjects
      ensures mark.Length == |objs| && fresh(mark) && warnings == 0
    {
      this.objs, this.allObjects := objs, allObjects;
      mark := new nat[|objs|](_ => WHITE);
      warnings := 0;
      finish := [];
    }

    /** `di_mark_and_sweep_dfs`. */
    method Dfs(o: Ref, ghost starts: set<Ref>, ghost live: set<Ref>, ghost stack: seq<Ref>)
      requires mark.Length == |objs| && Closed(objs, live) && o in live
      requires Marking(objs, starts, mark[..], stack, finish, warnings)
      requires Reached(objs, starts, o)
      requires stack != [] ==> Edge(objs, stack[|stack|-1], o)
      modifies mark, this`warnings, this`finish
      ensures Marking(objs, starts, mark[..], stack, finish, warnings)
      ensures Darker(old(mark[..]), mark[..]) && mark[o] != WHITE
      ensures old(warnings) <= warnings && old(finish) <= finish
      ensures Whites(mark[..]) <= old(Whites(mark[..]))
      ensures warnings == old(warnings) ==> mark[o] == BLACK
      ensures stack == [] ==> mark[o] == BLACK
      decreases Whites(mark[..])
    {
      hide Marking, Darker, Whites, Closed, Edge, Reached, ReachedCycle, Seen;
      ghost var m0 := mark[..];
      ListedInRange(objs, live, o);
      GreyOnStack(objs, starts, m0, stack, finish, warnings, o);
      SameDarker(m0);
      if mark[o] != WHITE {
        if mark[o] == GREY {
          GreyCycle(objs, starts, m0, stack, finish, warnings, o);
          Warned(objs, starts, m0, stack, finish, warnings);
          warnings := warnings + 1;
        }
        return;
      }
      Enter(objs, starts, m0, stack, finish, warnings, o);
      Darken(m0, o, GREY);
      mark[o] := GREY;
      ghost var m1, stack' := mark[..], stack + [o];
      assert m1 == m0[o := GREY];
      SameDarker(m1);
      SeenNone(objs[o].members, m1, warnings);
      var i := 0;
      while i < |objs[o].members|
        invariant 0 <= i <= |objs[o].members|
        invariant Marking(objs, starts, mark[..], stack', finish, warnings)
        invariant Darker(m1, mark[..]) && Whites(mark[..]) < Whites(m0)
        invariant old(warnings) <= warnings && old(finish) <= finish
        invariant Seen(objs[o].members, i, mark[..], warnings)
      {
        ghost var m2, w2 := mark[..], warnings;
        SameDarker(m2);
        match objs[o].members[i].value {
          case Object(y) =>
            ListedNext(objs, live, o, i);
            ReachedNext(objs, starts, o, y);
            Dfs(y, starts, live, stack');
          case _ =>
        }
        DarkerTrans(m1, m2, mark[..]);
        SeenNext(objs[o].members, i, m2, w2, mark[..], warnings);
        i := i + 1;
      }
      ghost var m3 := mark[..];
      DarkerAt(m1, m3, o);
      Leave(objs, starts, m3, stack, finish, warnings, o);
      Darken(m3, o, BLACK);
      DarkerEnds(m0, m3, o);
      mark[o] := BLACK;
      finish := finish + [o];
      assert mark[..] == m3[o := BLACK];
    }

    /** `di_mark_and_sweep`: true iff some listed object is out of reach of the roots;
        a warning is logged iff a reference cycle is within reach. */
    method MarkAndSweep(roots: Ref, anonymous: seq<Root>) returns (leak: bool)
      requires mark.Length == |objs| && Closed(objs, Listed()) && roots in Listed()
      requires forall r | r in anonymous :: r.obj in Listed()
      requires forall x | 0 <= x < mark.Length && x !in allObjects :: mark[x] == WHITE
      modifies mark, this`warnings, this`finish
      ensures leak <==> exists x :: x in allObjects && !Reached(objs, Starts(roots, anonymous), x)
      ensures warnings > 0 <==> ReachedCycle(objs, Starts(roots, anonymous))
      ensures forall x | 0 <= x < mark.Length ::
        mark[x] == if Reached(objs, Starts(roots, anonymous), x) then BLACK else WHITE
    {
      hide Marking, Darker, Closed, Edge, Reached, ReachedCycle;
      ghost var starts, live := Starts(roots, anonymous), Listed();
      ListedAll(objs, live);
      assert forall i | 0 <= i < |allObjects| :: allObjects[i] in live;
      var i := 0;
      while i < |allObjects|
        invariant 0 <= i <= |allObjects|
        invariant forall x | 0 <= x < mark.Length && x !in allObjects[i..] :: mark[x] == WHITE
      {
        mark[allObjects[i]] := WHITE;
        i := i + 1;
      }
      warnings, finish := 0, [];
      AllWhite(objs, starts, mark[..]);
      ReachedStart(objs, starts, roots);
      Dfs(roots, starts, live, []);
      var k := 0;
      while k < |anonymous|
        invariant 0 <= k <= |anonymous| && Marking(objs, starts, mark[..], [], finish, warnings)
        invariant roots < mark.Length && mark[roots] == BLACK
        invariant forall j | 0 <= j < k :: anonymous[j].obj < mark.Length && mark[anonymous[j].obj] == BLACK
      {
        ghost var m := mark[..];
        assert anonymous[k] in anonymous;
        ReachedStart(objs, starts, anonymous[k].obj);
        ListedInRange(objs, live, anonymous[k].obj);
        Dfs(anonymous[k].obj, starts, live, []);
        DarkerAt(m, mark[..], roots);
        forall j | 0 <= j < k ensures mark[anonymous[j].obj] == BLACK {
          DarkerAt(m, mark[..], anonymous[j].obj);
        }
        k := k + 1;
      }
      AllMarked(objs, starts, live, mark[..], finish, warnings);
      leak := false;
      var n := 0;
      while n < |allObjects|
        invariant 0 <= n <= |allObjects| && !leak
        invariant forall j | 0 <= j < n :: mark[allObjects[j]] != WHITE
      {
        if mark[allObjects[n]] == WHITE {
          assert allObjects[n] in allObjects;
          return true;
        }
        n := n + 1;
      }
    }

    ghost function Listed(): set<Ref> {
      set x | x in allObjects
    }
  }
}
