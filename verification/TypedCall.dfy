/** Typed calls: `di_type_conversion` of include/utils.h, and the trampoline, closures and typed
    getters built on it (callable.c, object.c). */
module TypedCall {
  import opened Conversion
  import opened DiTypes
  import opened Values

  const MAX_NARGS := 128
  const E2BIG := 7
  const ENOENT := 2

  /** What a copy of a value owns and what freeing it gives back. */
  datatype Own = Counted(claim: Claim) | Chars(s: string)

  datatype Val =
    | Null
    | Truth(b: bool)
    | Num(t: DiType, n: int)
    | Real(r: real)
    | Address(p: int)
    | Obj(o: Ref)
    | WeakObj(o: Ref)
    | Str(s: string)
    | Literal(s: string)
    | Arr(elem: DiType, elems: seq<Val>)
    | Tup(elems: seq<Val>)
    | Var(inner: Val)

  function TypeOf(v: Val): DiType {
    match v
    case Null => NIL
    case Truth(_) => BOOL
    case Num(t, _) => t
    case Real(_) => FLOAT
    case Address(_) => ADDRESS
    case Obj(_) => OBJECT
    case WeakObj(_) => WEAK_OBJECT
    case Str(_) => STRING
    case Literal(_) => STRING_LITERAL
    case Arr(_, _) => ARRAY
    case Tup(_) => TUPLE
    case Var(_) => VARIANT
  }

  /** Numbers are in the range of their type; arrays have elements, all of the same type. */
  predicate Proper(v: Val) {
    match v
    case Num(t, n) => IsInteger(t) && InRange(n, t)
    case Arr(t, elems) => elems != [] && forall i | 0 <= i < |elems| :: TypeOf(elems[i]) == t && Proper(elems[i])
    case Tup(elems) => forall i | 0 <= i < |elems| :: Proper(elems[i])
    case Var(inner) => Proper(inner)
    case _ => true
  }

  function Owned(v: Val): multiset<Own>
    decreases v
  {
    match v
    case Obj(o) => multiset{Counted(Strong(o))}
    case WeakObj(o) => multiset{Counted(Weak(o))}
    case Str(s) => multiset{Chars(s)}
    case Arr(_, elems) => OwnedByAll(elems)
    case Tup(elems) => OwnedByAll(elems)
    case Var(inner) => Owned(inner)
    case _ => multiset{}
  }

  function OwnedByAll(vs: seq<Val>): multiset<Own>
    decreases vs
  {
    if vs == [] then multiset{} else Owned(vs[0]) + OwnedByAll(vs[1..])
  }

  // ---------------------------------------------------------------- what a value means

  function Unwrap(v: Val): Val {
    if v.Var? then Unwrap(v.inner) else v
  }

  /** The meaning of a value does not depend on variants around it, on the type that a number is
      stored in, nor on who owns the characters of a string. */
  datatype Meaning = Number(r: real) | Letters(s: string) | Itself(v: Val)

  function MeaningOf(v: Val): Meaning {
    match Unwrap(v)
    case Num(_, n) => Number(n as real)
    case Real(r) => Number(r)
    case Str(s) => Letters(s)
    case Literal(s) => Letters(s)
    case u => Itself(u)
  }

  /** The conversions that succeed. */
  predicate Converts(v: Val, t: DiType)
    decreases v
  {
    if TypeOf(v) == t || t == VARIANT || t == NIL then true
    else
      match v
      case Var(inner) => Converts(inner, t)
      case Literal(_) => t == STRING
      case Num(s, n) => t == FLOAT || (IsInteger(t) && IsInteger(s) && IntegerConversion(s, n, t).Some?)
      case _ => false
  }

  /** The object behind `dead_weak_ref`; no other object has its address. */
  const DEAD_OBJECT: Ref := 0

  type FreshRef = o: Ref | o > DEAD_OBJECT witness 1

  /** References and strings that are held somewhere; a copy adds what it owns, freeing takes it away. */
  class Ledger {
    ghost var held: multiset<Own>
    var nextObject: FreshRef

    constructor (nextObject: FreshRef)
      ensures this.nextObject == nextObject && held == multiset{}
    {
      this.nextObject := nextObject;
      held := multiset{};
    }

    method CopyValue(v: Val) returns (c: Val)
      modifies this`held
      ensures c == v && held == old(held) + Owned(v)
    {
      held := held + Owned(v);
      c := v;
    }

    /** Nothing is freed that is not held. */
    method FreeValue(v: Val)
      requires Owned(v) <= held
      modifies this`held
      ensures held == old(held) - Owned(v)
    {
      held := held - Owned(v);
    }

    method NewObject() returns (v: Val)
      modifies this
      ensures v == Obj(old(nextObject)) && v.o != DEAD_OBJECT && held == old(held) + Owned(v) && nextObject == old(nextObject) + 1
    {
      v := Obj(nextObject);
      held := held + Owned(v);
      nextObject := nextObject + 1;
    }
  }

  /** The end of `di_type_conversion`: numbers become numbers. */
  method ConvertNumber(v: Val, t: DiType) returns (rc: int, out: Val)
    requires v.Num? && Proper(v) && t != v.t && t != VARIANT && t != NIL
    ensures rc == 0 <==> Converts(v, t)
    ensures rc != 0 ==> rc == -EINVAL || rc == -ERANGE
    ensures rc == 0 ==> TypeOf(out) == t && MeaningOf(out) == MeaningOf(v) && Proper(out) && Owned(out) == Owned(v)
  {
    hide IntegerConversion, InRange;
    rc, out := 0, Null;
    if IsInteger(t) {
      IntegersExact(v.t, v.n, t);
      var n := IntegerConversion(v.t, v.n, t);
      if n.None? {
        rc := -ERANGE;
      } else {
        out := Num(t, n.value);
      }
    } else if t == FLOAT {
      out := Real(v.n as real);
    } else {
      rc := -EINVAL;
    }
  }

  /** `di_type_conversion`; the result code is negative on failure. */
  method Convert(v: Val, t: DiType, borrowing: bool, ledger: Ledger) returns (rc: int, out: Val, cloned: bool)
    requires Proper(v)
    modifies ledger`held
    ensures rc == 0 <==> Converts(v, t)
    ensures rc != 0 ==> rc == -EINVAL || rc == -ERANGE
    ensures rc == 0 && t != NIL ==> TypeOf(out) == t && MeaningOf(out) == MeaningOf(v) && Proper(out)
    ensures t == NIL ==> out == Null
    ensures cloned ==> rc == 0 && t != NIL
    ensures ledger.held == if cloned then old(ledger.held) + Owned(out) else old(ledger.held)
    ensures rc == 0 && t != NIL && !cloned && !borrowing ==> Owned(out) == Owned(v)
    decreases v
  {
    hide IntegerConversion, InRange, OwnedByAll;
    rc, out, cloned := 0, Null, false;
    if TypeOf(v) == t {
      out := v;
      return;
    }
    if t == VARIANT {
      var copy := ledger.CopyValue(v);
      out, cloned := Var(copy), true;
      return;
    }
    if v.Literal? && t == STRING {
      out := Str(v.s);
      if !borrowing {
        out := ledger.CopyValue(out);
        cloned := true;
      }
      return;
    }
    if t == NIL {
      return;
    }
    if v.Var? {
      rc, out, cloned := Convert(v.inner, t, borrowing, ledger);
      return;
    }
    if v.Num? {
      rc, out := ConvertNumber(v, t);
      return;
    }
    rc := -EINVAL;
  }

  // ---------------------------------------------------------------- typed getters

  /** `di_rawgetxt` on a member with the value `member`, or None if there is no such member. */
  method RawGetXT(member: Option<Val>, t: DiType, ledger: Ledger) returns (rc: int, out: Val)
    requires member.Some? ==> Proper(member.value)
    modifies ledger`held
    ensures rc == 0 <==> member.Some? && Converts(member.value, t)
    ensures rc != 0 ==> ledger.held == old(ledger.held)
    ensures rc == 0 && t != NIL ==>
      TypeOf(out) == t && MeaningOf(out) == MeaningOf(member.value) && ledger.held == old(ledger.held) + Owned(out)
    ensures rc == 0 && t == NIL && TypeOf(member.value) != NIL ==> out == Null && ledger.held == old(ledger.held) + Owned(member.value)
  {
    if member.None? {
      return -ENOENT, Null;
    }
    hide Owned, MeaningOf, Converts, Proper, TypeOf;
    var copy := ledger.CopyValue(member.value);
    var cloned;
    rc, out, cloned := Convert(copy, t, false, ledger);
    if cloned || rc != 0 {
      ledger.FreeValue(copy);
    }
  }

  // ---------------------------------------------------------------- calls

  /** What nil is passed as where a parameter is not a variant. */
  predicate Substitutable(t: DiType) {
    t == OBJECT || t == WEAK_OBJECT || t == ADDRESS || t == ARRAY || t == TUPLE
  }

  predicate Passes(v: Val, t: DiType) {
    Converts(v, t) || (v == Null && Substitutable(t))
  }

  /** The parameter `x` of type `t` is what the caller passed. */
  predicate PassedAs(v: Val, t: DiType, x: Val) {
    && TypeOf(x) == t
    && if Converts(v, t) then MeaningOf(x) == MeaningOf(v)
       else v == Null && ((x.Obj? && x.o != DEAD_OBJECT) || x == WeakObj(DEAD_OBJECT) || x == Address(0) || x == Arr(ANY, []) || x == Tup([]))
  }

  /** What the loop over the arguments does with one of them. */
  method PassArgument(v: Val, t: DiType, ledger: Ledger) returns (rc: int, x: Val, cloned: bool)
    requires Proper(v) && t != NIL && t != ANY
    modifies ledger
    ensures rc == 0 <==> Passes(v, t)
    ensures rc == 0 ==> PassedAs(v, t, x)
    ensures rc != 0 ==> !cloned
    ensures ledger.held == if cloned then old(ledger.held) + Owned(x) else old(ledger.held)
  {
    hide Converts, MeaningOf, Owned, Proper;
    rc, x, cloned := Convert(v, t, true, ledger);
    if rc != 0 && v.Null? {
      match t
      case OBJECT =>
        x := ledger.NewObject();
        rc, cloned := 0, true;
      case WEAK_OBJECT =>
        rc, x := 0, WeakObj(DEAD_OBJECT);
      case ADDRESS =>
        rc, x := 0, Address(0);
      case ARRAY =>
        rc, x := 0, Arr(ANY, []);
      case TUPLE =>
        rc, x := 0, Tup([]);
      case _ =>
    }
  }

  /** What the cloned ones among some arguments own. */
  ghost function Clones(xs: seq<Val>, cloned: seq<bool>): multiset<Own>
    requires |xs| == |cloned|
  {
    if xs == [] then multiset{}
    else (if cloned[0] then Owned(xs[0]) else multiset{}) + Clones(xs[1..], cloned[1..])
  }

  lemma {:induction false} ClonesPush(xs: seq<Val>, cloned: seq<bool>, x: Val, c: bool)
    requires |xs| == |cloned|
    ensures Clones(xs + [x], cloned + [c]) == Clones(xs, cloned) + if c then Owned(x) else multiset{}
  {
    if xs == [] {
      assert Clones([x], [c]) == (if c then Owned(x) else multiset{}) + Clones([], []);
    } else {
      assert (xs + [x])[1..] == xs[1..] + [x] && (cloned + [c])[1..] == cloned[1..] + [c];
      ClonesPush(xs[1..], cloned[1..], x, c);
    }
  }

  /** The first loop of `_di_typed_trampoline`; it stops at the first argument that cannot be passed. */
  method FillArguments(fnats: seq<DiType>, nargs0: nat, args: seq<Val>, xargs: array<Val>, argsCloned: array<bool>, ledger: Ledger)
      returns (rc: int, last: nat, ghost passed: seq<Val>)
    requires |fnats| == |args| == argsCloned.Length && xargs.Length == nargs0 + |args|
    requires forall i | 0 <= i < |args| :: Proper(args[i]) && fnats[i] != NIL && fnats[i] != ANY
    modifies xargs, argsCloned, ledger
    ensures last == |passed| <= |args| && (rc == 0 <==> last == |args|)
    ensures xargs[..nargs0] == old(xargs[..nargs0]) && xargs[nargs0..nargs0 + last] == passed
    ensures forall k | 0 <= k < last :: Passes(args[k], fnats[k]) && PassedAs(args[k], fnats[k], passed[k])
    ensures rc != 0 ==> !Passes(args[last], fnats[last])
    ensures ledger.held == old(ledger.held) + Clones(passed, argsCloned[..last])
  {
    hide Passes, PassedAs, Owned, Proper, Clones;
    rc, last, passed := 0, 0, [];
    NoClones();
    while last < |args|
      invariant last == |passed| <= |args| && rc == 0
      invariant xargs[..nargs0] == old(xargs[..nargs0]) && xargs[nargs0..nargs0 + last] == passed
      invariant forall k | 0 <= k < last :: Passes(args[k], fnats[k]) && PassedAs(args[k], fnats[k], passed[k])
      invariant ledger.held == old(ledger.held) + Clones(passed, argsCloned[..last])
    {
      var x, cloned;
      rc, x, cloned := PassArgument(args[last], fnats[last], ledger);
      if rc != 0 {
        break;
      }
      ClonesPush(passed, argsCloned[..last], x, cloned);
      Store(xargs, argsCloned, nargs0, last, x, cloned, passed);
      passed := passed + [x];
      last := last + 1;
    }
  }

  method Store(xargs: array<Val>, argsCloned: array<bool>, nargs0: nat, i: nat, x: Val, cloned: bool, ghost passed: seq<Val>)
    requires nargs0 + i < xargs.Length && i < argsCloned.Length && xargs[nargs0..nargs0 + i] == passed
    modifies xargs, argsCloned
    ensures xargs[..nargs0] == old(xargs[..nargs0]) && xargs[nargs0..nargs0 + i + 1] == passed + [x]
    ensures argsCloned[..i + 1] == old(argsCloned[..i]) + [cloned]
  {
    xargs[nargs0 + i], argsCloned[i] := x, cloned;
  }

  lemma BehindCaptures(captured: seq<Val>, passed: seq<Val>, all: seq<Val>)
    requires |all| == |captured| + |passed| && all[..|captured|] == captured && all[|captured|..|captured| + |passed|] == passed
    ensures captured <= all && forall i | 0 <= i < |passed| :: all[|captured| + i] == passed[i]
  {
    forall i | 0 <= i < |passed| ensures all[|captured| + i] == passed[i] {
      assert all[|captured|..|captured| + |passed|][i] == all[|captured| + i];
    }
  }

  /** `_di_typed_trampoline`: `called` is what the function is called with, if it is called. On
      every way out, all references made for the arguments have been given back, each once. */
  method TypedTrampoline(fnats: seq<DiType>, captured: seq<Val>, args: seq<Val>, ledger: Ledger) returns (rc: int, called: Option<seq<Val>>)
    requires |fnats| == |args| && |captured| + |args| <= MAX_NARGS
    requires forall i | 0 <= i < |args| :: Proper(args[i]) && fnats[i] != NIL && fnats[i] != ANY
    modifies ledger
    ensures ledger.held == old(ledger.held)
    ensures called.Some? <==> forall i | 0 <= i < |args| :: Passes(args[i], fnats[i])
    ensures rc == 0 <==> called.Some?
    ensures called.Some? ==> |called.value| == |captured| + |args| && captured <= called.value
    ensures called.Some? ==> forall i | 0 <= i < |args| :: PassedAs(args[i], fnats[i], called.value[|captured| + i])
  {
    hide Passes, PassedAs, Owned, Proper, Clones;
    called := None;
    var nargs0 := |captured|;
    var xargs, argsCloned := new Val[nargs0 + |args|](_ => Null), new bool[|args|](_ => false);
    forall k | 0 <= k < nargs0 {
      xargs[k] := captured[k];
    }
    assert xargs[..nargs0] == captured;
    var last;
    ghost var passed;
    rc, last, passed := FillArguments(fnats, nargs0, args, xargs, argsCloned, ledger);
    if rc == 0 {
      called := Some(xargs[..]);
      BehindCaptures(captured, passed, xargs[..]);
    }
    FreeClones(xargs[nargs0..nargs0 + last], argsCloned[..last], ledger);
  }

  lemma NoClones()
    ensures Clones([], []) == multiset{}
  {}

  /** The loop at `out`, over the arguments that were processed. */
  method FreeClones(xs: seq<Val>, cloned: seq<bool>, ledger: Ledger)
    requires |xs| == |cloned| && Clones(xs, cloned) <= ledger.held
    modifies ledger
    ensures ledger.held == old(ledger.held) - Clones(xs, cloned)
  {
    hide Owned;
    ghost var rest := ledger.held - Clones(xs, cloned);
    assert xs[0..] == xs && cloned[0..] == cloned;
    for i := 0 to |xs|
      invariant ledger.held == rest + Clones(xs[i..], cloned[i..])
    {
      assert xs[i..][1..] == xs[i+1..] && cloned[i..][1..] == cloned[i+1..];
      if cloned[i] {
        ledger.FreeValue(xs[i]);
      }
    }
  }

  // ---------------------------------------------------------------- closures

  /** `struct di_closure` */
  class Closure {
    const atypes: seq<DiType>
    const nargs0: nat
    const nargs: nat
    var cargs: seq<Val>

    ghost predicate Valid()
      reads this
    {
      && |cargs| == nargs0 && |atypes| == nargs0 + nargs <= MAX_NARGS
      && forall t | t in atypes :: t != NIL && t != ANY
    }

    constructor (captureTypes: seq<DiType>, captures: seq<Val>, argTypes: seq<DiType>)
      requires |captures| == |captureTypes| && |captures| + |argTypes| <= MAX_NARGS
      requires forall t | t in captureTypes || t in argTypes :: t != NIL && t != ANY
      ensures Valid() && cargs == captures && atypes == captureTypes + argTypes && nargs0 == |captures| && nargs == |argTypes|
    {
      atypes, nargs0, nargs, cargs := captureTypes + argTypes, |captures|, |argTypes|, captures;
      assert forall t | t in captureTypes + argTypes :: t in captureTypes || t in argTypes;
    }

    /** `closure_trampoline` */
    method Call(args: seq<Val>, ledger: Ledger) returns (rc: int, called: Option<seq<Val>>)
      requires Valid() && forall i | 0 <= i < |args| :: Proper(args[i])
      modifies ledger
      ensures ledger.held == old(ledger.held) && (rc == 0 <==> called.Some?)
      ensures called.Some? <==> |args| == nargs && forall i | 0 <= i < nargs :: Passes(args[i], atypes[nargs0 + i])
      ensures called.Some? ==> |called.value| == nargs0 + nargs && cargs <= called.value
      ensures called.Some? ==> forall i | 0 <= i < nargs :: PassedAs(args[i], atypes[nargs0 + i], called.value[nargs0 + i])
    {
      hide Passes, PassedAs, Proper;
      if |args| != nargs {
        return -EINVAL, None;
      }
      assert forall i | 0 <= i < nargs :: atypes[nargs0..][i] in atypes;
      rc, called := TypedTrampoline(atypes[nargs0..], cargs, args, ledger);
      assert forall i | 0 <= i < nargs :: atypes[nargs0..][i] == atypes[nargs0 + i];
    }

    /** `free_closure` gives back exactly what the closure captured. */
    method Free(ledger: Ledger)
      requires Valid() && OwnedByAll(cargs) <= ledger.held
      modifies this, ledger
      ensures ledger.held == old(ledger.held) - OwnedByAll(old(cargs)) && cargs == []
    {
      hide Owned;
      ghost var rest := ledger.held - OwnedByAll(cargs);
      assert cargs[0..] == cargs;
      for i := 0 to |cargs|
        invariant cargs == old(cargs) && ledger.held == rest + OwnedByAll(cargs[i..])
      {
        assert cargs[i..][1..] == cargs[i+1..];
        ledger.FreeValue(cargs[i]);
      }
      cargs := [];
    }
  }

  /** `di_create_closure` */
  method CreateClosure(captureTypes: seq<DiType>, captures: seq<Val>, argTypes: seq<DiType>, ledger: Ledger)
      returns (rc: int, closure: Option<Closure>)
    requires |captures| == |captureTypes| && forall t | t in captureTypes || t in argTypes :: t != ANY
    modifies ledger
    ensures rc == 0 <==> closure.Some?
    ensures |captures| + |argTypes| > MAX_NARGS ==> rc == -E2BIG
    ensures |captures| + |argTypes| <= MAX_NARGS && (NIL in captureTypes || NIL in argTypes) ==> rc == -EINVAL
    ensures rc != 0 ==> |captures| + |argTypes| > MAX_NARGS || NIL in captureTypes || NIL in argTypes
    ensures rc != 0 ==> ledger.held == old(ledger.held)
    ensures closure.Some? ==> fresh(closure.value) && closure.value.Valid() && closure.value.cargs == captures
    ensures closure.Some? ==> closure.value.atypes == captureTypes + argTypes
    ensures closure.Some? ==> closure.value.nargs0 == |captures| && closure.value.nargs == |argTypes|
    ensures closure.Some? ==> ledger.held == old(ledger.held) + OwnedByAll(captures)
  {
    hide Owned;
    if |captures| + |argTypes| > MAX_NARGS {
      return -E2BIG, None;
    }
    if NIL in captureTypes || NIL in argTypes {
      return -EINVAL, None;
    }
    var cargs: seq<Val> := [];
    for i := 0 to |captures|
      invariant cargs == captures[..i] && ledger.held == old(ledger.held) + OwnedByAll(captures[..i])
    {
      var copy := ledger.CopyValue(captures[i]);
      assert captures[..i+1] == captures[..i] + [captures[i]];
      OwnedPush(captures[..i], captures[i]);
      cargs := cargs + [copy];
    }
    assert captures[..|captures|] == captures;
    var cl := new Closure(captureTypes, cargs, argTypes);
    return 0, Some(cl);
  }

  lemma {:induction false} OwnedPush(vs: seq<Val>, v: Val)
    ensures OwnedByAll(vs + [v]) == OwnedByAll(vs) + Owned(v)
  {
    if vs == [] {
      assert OwnedByAll([v]) == Owned(v) + OwnedByAll([]);
    } else {
      assert (vs + [v])[1..] == vs[1..] + [v];
      OwnedPush(vs[1..], v);
    }
  }
}
