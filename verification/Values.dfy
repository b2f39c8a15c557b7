/** The values that members, arguments and return values are made of, and the
    references ("claims") they hold on objects. */
module Values {

  datatype Option<+T> = None | Some(value: T)

  /** The address of an object. Addresses are handed out in order and never reused. */
  type Ref = nat

  /** One counted reference to an object. */
  datatype Claim = Strong(target: Ref) | Weak(target: Ref)

  /** The recursive value of object.h; all types without references are `Plain`. */
  datatype Value =
    | Nil
    | Plain(bits: int)
    | Text(chars: string)
    | Object(obj: Ref)
    | WeakObject(obj: Ref)
    | Array(elems: seq<Value>)
    | Tuple(elems: seq<Value>)
    | Variant(inner: Value)

  /** Copying an array without elements aborts: its element type is unresolved. */
  predicate Copyable(v: Value) {
    match v
    case Array(elems) => elems != [] && forall i | 0 <= i < |elems| :: Copyable(elems[i])
    case Tuple(elems) => forall i | 0 <= i < |elems| :: Copyable(elems[i])
    case Variant(inner) => Copyable(inner)
    case _ => true
  }

  /** The references a value holds, with multiplicity. */
  function Leaves(v: Value): multiset<Claim>
    decreases v, 1
  {
    match v
    case Object(o) => multiset{Strong(o)}
    case WeakObject(o) => multiset{Weak(o)}
    case Array(elems) => LeavesOfAll(elems)
    case Tuple(elems) => LeavesOfAll(elems)
    case Variant(inner) => Leaves(inner)
    case _ => multiset{}
  }

  function LeavesOfAll(vs: seq<Value>): multiset<Claim>
    decreases vs, 0
  {
    if vs == [] then multiset{} else Leaves(vs[0]) + LeavesOfAll(vs[1..])
  }

  ghost function Size(v: Value): (n: nat)
    ensures n >= 1
    decreases v, 1
  {
    match v
    case Array(elems) => 1 + SizeOfAll(elems)
    case Tuple(elems) => 1 + SizeOfAll(elems)
    case Variant(inner) => 1 + Size(inner)
    case _ => 1
  }

  ghost function SizeOfAll(vs: seq<Value>): nat
    decreases vs, 0
  {
    if vs == [] then 0 else Size(vs[0]) + SizeOfAll(vs[1..])
  }
}
