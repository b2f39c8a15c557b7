/** D-Bus type signatures of values: plugins/dbus/sedes.c. */
module Signature {
  import opened DiTypes
  import opened Values

  /** A value as far as its signature depends on it. */
  datatype Data = Leaf(t: DiType) | Arr(elem: DiType, elems: seq<Data>) | Tup(elems: seq<Data>) | Var(inner: Data)

  function TypeOf(v: Data): DiType {
    match v
    case Leaf(t) => t
    case Arr(_, _) => ARRAY
    case Tup(_) => TUPLE
    case Var(_) => VARIANT
  }

  /** The elements of an array have its element type; an array without elements has none. */
  predicate WellTyped(v: Data) {
    match v
    case Leaf(t) => t != ARRAY && t != TUPLE && t != VARIANT && t != ANY
    case Arr(t, elems) => elems != [] && forall i | 0 <= i < |elems| :: TypeOf(elems[i]) == t && WellTyped(elems[i])
    case Tup(elems) => forall i | 0 <= i < |elems| :: WellTyped(elems[i])
    case Var(inner) => WellTyped(inner)
  }

  /** `di_type_to_dbus_basic`, where it yields a basic type. */
  function Basic(t: DiType): Option<char> {
    match t
    case BOOL => Some('b')
    case INT => Some('x')
    case UINT => Some('t')
    case NINT => Some('i')
    case NUINT => Some('u')
    case FLOAT => Some('d')
    case STRING => Some('s')
    case STRING_LITERAL => Some('s')
    case _ => None
  }

  // ---------------------------------------------------------------- the three functions

  /** `type_signature_length_of_di_value`, comparing all elements of an array with the first. */
  function Length(v: Data): (n: int)
    requires WellTyped(v)
    ensures n >= -1
    decreases v, 1
  {
    if Basic(TypeOf(v)).Some? then 1
    else if v.Arr? then
      var v0 := Length(v.elems[0]);
      if forall i | 0 <= i < |v.elems| :: Length(v.elems[i]) == v0 then 1 + v0 else -1
    else if v.Tup? then LengthOfTuple(v.elems, 0)
    else -1
  }

  function LengthOfTuple(elems: seq<Data>, sum: nat): (n: int)
    requires forall i | 0 <= i < |elems| :: WellTyped(elems[i])
    ensures n >= -1
    decreases elems, 0
  {
    if elems == [] then sum + 2
    else
      var n := Length(elems[0]);
      if n < 0 then n else LengthOfTuple(elems[1..], sum + n)
  }

  /** `verify_type_signature`: what is left of the signature, or None. */
  function Verify(v: Data, sig: string): Option<string>
    requires WellTyped(v)
    decreases v
  {
    if Basic(TypeOf(v)).Some? then
      if sig != [] && sig[0] == Basic(TypeOf(v)).value then Some(sig[1..]) else None
    else if v.Arr? && v.elem != VARIANT then
      if sig == [] || sig[0] != 'a' then None
      else if forall i | 1 <= i < |v.elems| :: Verify(v.elems[i], sig[1..]).Some? then Verify(v.elems[0], sig[1..])
      else None
    else None
  }

  // ---------------------------------------------------------------- signatures

  /** No tuples anywhere in the value. */
  predicate TupleFree(v: Data) {
    match v
    case Leaf(_) => true
    case Arr(_, elems) => forall i | 0 <= i < |elems| :: TupleFree(elems[i])
    case Tup(_) => false
    case Var(inner) => TupleFree(inner)
  }

  /** The values that have a signature: basic values, arrays of tuple-free values that all have
      the same signature, and tuples of values that have one. */
  predicate Accepted(v: Data)
    decreases v
  {
    match v
    case Leaf(t) => Basic(t).Some?
    case Arr(_, elems) => elems != [] && forall i | 0 <= i < |elems| ::
        Accepted(elems[i]) && TupleFree(elems[i]) && Sig(elems[i]) == Sig(elems[0])
    case Tup(elems) => forall i | 0 <= i < |elems| :: Accepted(elems[i])
    case Var(_) => false
  }

  function Sig(v: Data): string
    decreases v
  {
    match v
    case Leaf(t) => if Basic(t).Some? then [Basic(t).value] else ""
    case Arr(_, elems) => if elems == [] then "a" else "a" + Sig(elems[0])
    case Tup(elems) => "(" + Sigs(elems) + ")"
    case Var(_) => ""
  }

  function Sigs(elems: seq<Data>): string
    decreases elems
  {
    if elems == [] then "" else Sig(elems[0]) + Sigs(elems[1..])
  }

  /** Signatures of accepted values without tuples are complete: none is a proper prefix of another. */
  lemma {:induction false} PrefixFree(u: Data, w: Data, s: string)
    requires Accepted(u) && TupleFree(u) && Accepted(w) && TupleFree(w)
    requires Sig(u) <= s && Sig(w) <= s
    ensures Sig(u) == Sig(w)
    decreases u
  {
    if u.Arr? && w.Arr? {
      assert Accepted(u.elems[0]) && Accepted(w.elems[0]);
      assert Sig(u)[1..] == Sig(u.elems[0]) && Sig(w)[1..] == Sig(w.elems[0]);
      PrefixFree(u.elems[0], w.elems[0], s[1..]);
    } else {
      assert Sig(u)[0] == s[0] == Sig(w)[0];
    }
  }

  /** For a value without tuples, verification succeeds exactly on the signatures that begin with
      the value's own, and consumes just that; in particular arrays pass only if homogeneous. */
  lemma {:induction false} VerifyIsSig(v: Data, sig: string)
    requires WellTyped(v) && TupleFree(v)
    ensures Verify(v, sig).Some? <==> Accepted(v) && Sig(v) <= sig
    ensures Verify(v, sig).Some? ==> Verify(v, sig).value == sig[|Sig(v)|..]
    decreases v
  {
    if v.Arr? {
      if v.elem == VARIANT {
        assert TypeOf(v.elems[0]) == VARIANT;
      } else if sig == [] || sig[0] != 'a' {
        assert Sig(v)[0] == 'a';
      } else {
        forall i | 0 <= i < |v.elems|
          ensures Verify(v.elems[i], sig[1..]).Some? <==> Accepted(v.elems[i]) && Sig(v.elems[i]) <= sig[1..]
          ensures Verify(v.elems[i], sig[1..]).Some? ==> Verify(v.elems[i], sig[1..]).value == sig[1..][|Sig(v.elems[i])|..]
        {
          VerifyIsSig(v.elems[i], sig[1..]);
        }
        VerifyArray(v, sig);
      }
    }
  }

  lemma VerifyArray(v: Data, sig: string)
    requires WellTyped(v) && TupleFree(v) && v.Arr? && v.elem != VARIANT && sig != [] && sig[0] == 'a'
    requires forall i | 0 <= i < |v.elems| ::
      Verify(v.elems[i], sig[1..]).Some? <==> Accepted(v.elems[i]) && Sig(v.elems[i]) <= sig[1..]
    requires forall i | 0 <= i < |v.elems| && Verify(v.elems[i], sig[1..]).Some? ::
      Verify(v.elems[i], sig[1..]).value == sig[1..][|Sig(v.elems[i])|..]
    ensures Verify(v, sig).Some? <==> Accepted(v) && Sig(v) <= sig
    ensures Verify(v, sig).Some? ==> Verify(v, sig).value == sig[|Sig(v)|..]
  {
    VerifyStep(v, sig);
    SigStep(v, sig);
    hide Verify, Sig;
    if Verify(v, sig).Some? {
      forall i | 0 <= i < |v.elems| ensures Accepted(v.elems[i]) && Sig(v.elems[i]) == Sig(v.elems[0]) {
        PrefixFree(v.elems[i], v.elems[0], sig[1..]);
      }
    }
  }

  lemma VerifyStep(v: Data, sig: string)
    requires WellTyped(v) && v.Arr? && v.elem != VARIANT && sig != [] && sig[0] == 'a'
    ensures Verify(v, sig).Some? <==> forall i | 0 <= i < |v.elems| :: Verify(v.elems[i], sig[1..]).Some?
    ensures Verify(v, sig).Some? ==> Verify(v, sig) == Verify(v.elems[0], sig[1..])
  {
    var tail := sig[1..];
    if forall i | 1 <= i < |v.elems| :: Verify(v.elems[i], tail).Some? {
      assert Verify(v, sig) == Verify(v.elems[0], tail);
      forall i | 0 <= i < |v.elems| && Verify(v, sig).Some? ensures Verify(v.elems[i], tail).Some? {
        if i == 0 { assert Verify(v.elems[0], tail).Some?; }
      }
    } else {
      var i :| 1 <= i < |v.elems| && Verify(v.elems[i], tail).None?;
      assert Verify(v, sig).None?;
    }
  }

  lemma SigStep(v: Data, sig: string)
    requires v.Arr? && v.elems != [] && sig != [] && sig[0] == 'a'
    ensures Sig(v) <= sig <==> Sig(v.elems[0]) <= sig[1..]
    ensures Sig(v) <= sig ==> sig[|Sig(v)|..] == sig[1..][|Sig(v.elems[0])|..]
  {
    assert sig == "a" + sig[1..];
  }

  lemma {:induction false} TuplesRefused(v: Data, sig: string)
    requires WellTyped(v) && !TupleFree(v)
    ensures Verify(v, sig).None?
    decreases v
  {
    if v.Arr? && sig != [] {
      var i :| 0 <= i < |v.elems| && !TupleFree(v.elems[i]);
      TuplesRefused(v.elems[i], sig[1..]);
    }
  }

  // ---------------------------------------------------------------- lengths

  lemma {:induction false} LengthIsSig(v: Data)
    requires WellTyped(v) && Accepted(v)
    ensures Length(v) == |Sig(v)|
    decreases v, 1
  {
    if v.Arr? {
      forall i | 0 <= i < |v.elems| ensures Length(v.elems[i]) == |Sig(v.elems[0])| { LengthIsSig(v.elems[i]); }
    } else if v.Tup? {
      LengthIsSigs(v.elems, 0);
    }
  }

  lemma {:induction false} LengthIsSigs(elems: seq<Data>, sum: nat)
    requires forall i | 0 <= i < |elems| :: WellTyped(elems[i]) && Accepted(elems[i])
    ensures LengthOfTuple(elems, sum) == sum + |Sigs(elems)| + 2
    decreases elems, 0
  {
    if elems != [] {
      LengthIsSig(elems[0]);
      LengthIsSigs(elems[1..], sum + |Sig(elems[0])|);
    }
  }

  /** How many characters `type_signature_of_di_value_to_buffer` writes. */
  function Written(v: Data): nat
    requires WellTyped(v)
    decreases v, 1
  {
    match v
    case Leaf(t) => if Basic(t).Some? then 1 else 0
    case Arr(_, elems) => 1 + Written(elems[0])
    case Tup(elems) => 1 + WrittenTuple(elems)
    case Var(_) => 0
  }

  function WrittenTuple(elems: seq<Data>): nat
    requires forall i | 0 <= i < |elems| :: WellTyped(elems[i])
    decreases elems, 0
  {
    if elems == [] then 1
    else if Accepted(elems[0]) then Written(elems[0]) + WrittenTuple(elems[1..])
    else Written(elems[0])
  }

  lemma {:induction false} WrittenIsSig(v: Data)
    requires WellTyped(v) && Accepted(v)
    ensures Written(v) == |Sig(v)|
    decreases v, 1
  {
    if v.Arr? {
      WrittenIsSig(v.elems[0]);
    } else if v.Tup? {
      WrittenIsSigs(v.elems);
    }
  }

  lemma {:induction false} WrittenIsSigs(elems: seq<Data>)
    requires forall i | 0 <= i < |elems| :: WellTyped(elems[i]) && Accepted(elems[i])
    ensures WrittenTuple(elems) == |Sigs(elems)| + 1
    decreases elems, 0
  {
    if elems != [] {
      WrittenIsSig(elems[0]);
      WrittenIsSigs(elems[1..]);
    }
  }

  /** Where a value whose length is known is written in a block with `room` characters behind that length.
      The writer follows the first elements of arrays and the first refused elements of tuples. If it comes
      to an array whose first element has no length, which the array counts as -1, the characters of that
      element must fit into the room left by everything that is still to come. */
  predicate Fits(v: Data, room: nat)
    requires WellTyped(v) && Length(v) >= 0
    decreases v, 1
  {
    match v
    case Arr(_, elems) => if Length(elems[0]) >= 0 then Fits(elems[0], room) else Written(elems[0]) < room
    case Tup(elems) =>
      TupleLengths(elems, 0);
      FitsTuple(elems, room)
    case _ => true
  }

  predicate FitsTuple(elems: seq<Data>, room: nat)
    requires forall i | 0 <= i < |elems| :: WellTyped(elems[i]) && Length(elems[i]) >= 0
    decreases elems, 0
  {
    elems == [] ||
    if Accepted(elems[0]) then FitsTuple(elems[1..], room) else Fits(elems[0], room + 1 + SumOfLengths(elems[1..]))
  }

  /** The characters still to come for the later elements of a tuple. */
  function SumOfLengths(elems: seq<Data>): nat
    requires forall i | 0 <= i < |elems| :: WellTyped(elems[i]) && Length(elems[i]) >= 0
  {
    if elems == [] then 0 else Length(elems[0]) + SumOfLengths(elems[1..])
  }

  /** A tuple has a length if and only if all its elements do: their sum, and the parentheses. */
  lemma {:induction false} TupleLengths(elems: seq<Data>, sum: nat)
    requires forall i | 0 <= i < |elems| :: WellTyped(elems[i])
    ensures LengthOfTuple(elems, sum) >= 0 <==> forall i | 0 <= i < |elems| :: Length(elems[i]) >= 0
    ensures LengthOfTuple(elems, sum) >= 0 ==> LengthOfTuple(elems, sum) == sum + SumOfLengths(elems) + 2
    decreases elems
  {
    if elems != [] && Length(elems[0]) >= 0 {
      TupleLengths(elems[1..], sum + Length(elems[0]));
      assert forall i | 0 < i < |elems| :: elems[i] == elems[1..][i-1];
    }
  }

  /** What is written stays within the length and the given room exactly if it fits. */
  lemma {:induction false} RoomIff(v: Data, room: nat)
    requires WellTyped(v) && Length(v) >= 0
    ensures Written(v) <= Length(v) + room <==> Fits(v, room)
    decreases v, 1
  {
    match v
    case Arr(_, elems) =>
      ArrayMeasure(v);
      if Length(elems[0]) >= 0 { RoomIff(elems[0], room); }
    case Tup(elems) =>
      TupleLengths(elems, 0);
      RoomTupleIff(elems, room);
    case _ =>
  }

  lemma {:induction false} RoomTupleIff(elems: seq<Data>, room: nat)
    requires forall i | 0 <= i < |elems| :: WellTyped(elems[i]) && Length(elems[i]) >= 0
    ensures WrittenTuple(elems) <= SumOfLengths(elems) + 1 + room <==> FitsTuple(elems, room)
    decreases elems, 0
  {
    if elems != [] {
      if Accepted(elems[0]) {
        WrittenIsSig(elems[0]);
        LengthIsSig(elems[0]);
        RoomTupleIff(elems[1..], room);
      } else {
        RoomIff(elems[0], room + 1 + SumOfLengths(elems[1..]));
      }
    }
  }

  lemma ArrayMeasure(v: Data)
    requires WellTyped(v) && v.Arr?
    ensures Length(v) == -1 || Length(v) == 1 + Length(v.elems[0])
    ensures Written(v) == 1 + Written(v.elems[0])
  {}

  /** The writer leaves the block that `type_signature_of_di_value` allocates, which has room for the length
      and a final NUL, exactly if the value does not fit into it. */
  lemma OverrunIff(v: Data)
    requires WellTyped(v) && Length(v) >= 0
    ensures Written(v) > Length(v) + 1 <==> !Fits(v, 1)
  {
    RoomIff(v, 1);
  }

  /** Values that have a signature always fit. */
  lemma AcceptedFits(v: Data)
    requires WellTyped(v) && Accepted(v)
    ensures Length(v) >= 0 && Fits(v, 0)
  {
    LengthIsSig(v);
    WrittenIsSig(v);
    RoomIff(v, 0);
  }

  /** It happens: an array of tuples of objects is measured as 0 and written with 2 characters; within a
      tuple it has just enough room. */
  lemma WritesTooMuch() returns (v: Data, w: Data)
    ensures WellTyped(v) && Length(v) == 0 && Written(v) == 2 && !Fits(v, 1)
    ensures WellTyped(w) && w == Tup([v]) && Length(w) == 2 && Written(w) == 3 && Fits(w, 1)
  {
    var inner := Tup([Leaf(OBJECT)]);
    v := Arr(TUPLE, [inner]);
    w := Tup([v]);
    assert Length(inner) == -1 && Written(inner) == 1;
    assert Length(v) == 0 && Written(v) == 2;
    LengthOfOne(v);
    WrittenOfOne(v);
    OverrunIff(v);
    OverrunIff(w);
  }

  lemma LengthOfOne(v: Data)
    requires WellTyped(v) && Length(v) >= 0
    ensures Length(Tup([v])) == Length(v) + 2
  {
    assert LengthOfTuple([v][1..], Length(v)) == Length(v) + 2;
  }

  lemma WrittenOfOne(v: Data)
    requires WellTyped(v)
    ensures !Accepted(v) ==> Written(Tup([v])) == Written(v) + 1
  {}

  // ---------------------------------------------------------------- writing

  /** `struct dbus_signature`; `current` is an offset into the buffer. */
  datatype Node = Node(current: nat, length: nat, child: seq<Node>) | Invalid

  /** The children are the signatures of the parts, each where it stands in the buffer. */
  ghost predicate Describes(r: Node, v: Data, pos: nat)
    decreases v
  {
    && r.Node? && r.current == pos && r.length == |Sig(v)|
    && match v
       case Arr(_, elems) => elems != [] && |r.child| == 1 && Describes(r.child[0], elems[0], pos + 1)
       case Tup(elems) => |r.child| == |elems|
           && forall i | 0 <= i < |elems| :: Describes(r.child[i], elems[i], pos + 1 + |Sigs(elems[..i])|)
       case _ => r.child == []
  }

  lemma {:induction false} SigsPush(elems: seq<Data>, i: nat)
    requires i < |elems|
    ensures Sigs(elems[..i+1]) == Sigs(elems[..i]) + Sig(elems[i])
    decreases i
  {
    if i == 0 {
      assert elems[..1][1..] == [];
      assert Sigs(elems[..1]) == Sig(elems[0]) + "";
    } else {
      SigsPush(elems[1..], i - 1);
      assert elems[..i+1][1..] == elems[1..][..i] && elems[..i][1..] == elems[1..][..i-1];
      assert Sig(elems[0]) + (Sigs(elems[1..][..i-1]) + Sig(elems[i])) == Sig(elems[0]) + Sigs(elems[1..][..i-1]) + Sig(elems[i]);
    }
  }

  /** The children of a described node lie side by side and fill it, up to the parentheses or the `a`. */
  lemma ChildrenTile(r: Node, v: Data, pos: nat, i: nat)
    requires Describes(r, v, pos) && v.Tup? && i < |r.child|
    ensures r.child[i].Node?
    ensures i == 0 ==> r.child[i].current == r.current + 1
    ensures i > 0 ==> r.child[i-1].Node? && r.child[i].current == r.child[i-1].current + r.child[i-1].length
    ensures i == |r.child| - 1 ==> r.child[i].current + r.child[i].length + 1 == r.current + r.length
  {
    assert v.elems[..|v.elems|] == v.elems;
    SigsPush(v.elems, i);
    if i > 0 {
      SigsPush(v.elems, i - 1);
      assert Describes(r.child[i-1], v.elems[i-1], pos + 1 + |Sigs(v.elems[..i-1])|);
    }
  }

  lemma {:induction false} WrittenTupleFrom(elems: seq<Data>, i: nat)
    requires (forall k | 0 <= k < |elems| :: WellTyped(elems[k])) && i <= |elems|
    requires forall k | 0 <= k < i :: Accepted(elems[k])
    ensures WrittenTuple(elems) == |Sigs(elems[..i])| + WrittenTuple(elems[i..])
    decreases i
  {
    if i > 0 {
      WrittenTupleFrom(elems, i - 1);
      SigsPush(elems, i - 1);
      WrittenIsSig(elems[i-1]);
      assert elems[i-1..][1..] == elems[i..];
    } else {
      assert elems[0..] == elems;
    }
  }

  /** `type_signature_of_di_value_to_buffer` */
  method ToBuffer(v: Data, buffer: array<char>, pos: nat) returns (r: Node)
    requires WellTyped(v) && pos + Written(v) <= buffer.Length
    modifies buffer
    ensures buffer[..pos] == old(buffer[..pos]) && buffer[pos + Written(v)..] == old(buffer[pos + Written(v)..])
    ensures Accepted(v) ==> Describes(r, v, pos) && Written(v) == |Sig(v)| && buffer[pos..pos + |Sig(v)|] == Sig(v)
    ensures !Accepted(v) ==> r == Invalid
    decreases v, 1
  {
    if Basic(TypeOf(v)).Some? {
      buffer[pos] := Basic(TypeOf(v)).value;
      return Node(pos, 1, []);
    }
    if v.Arr? {
      r := ArrayToBuffer(v, buffer, pos);
      return;
    }
    if v.Tup? {
      r := TupleToBuffer(v, buffer, pos);
      return;
    }
    return Invalid;
  }

  method ArrayToBuffer(v: Data, buffer: array<char>, pos: nat) returns (r: Node)
    requires v.Arr? && WellTyped(v) && pos + Written(v) <= buffer.Length
    modifies buffer
    ensures buffer[..pos] == old(buffer[..pos]) && buffer[pos + Written(v)..] == old(buffer[pos + Written(v)..])
    ensures Accepted(v) ==> Describes(r, v, pos) && Written(v) == |Sig(v)| && buffer[pos..pos + |Sig(v)|] == Sig(v)
    ensures !Accepted(v) ==> r == Invalid
    decreases v, 0
  {
    ghost var e0 := v.elems[0];
    ArrayOfFirst(v);
    hide Accepted, Sig, Describes, Written, Verify, WellTyped;
    buffer[pos] := 'a';
    var res := ToBuffer(v.elems[0], buffer, pos + 1);
    assert buffer[..pos + 1][pos] == 'a';
    ghost var text := buffer[..];
    if Accepted(v) {
      Prefixed(text, pos, Sig(e0));
      assert text[pos..] == buffer[pos..];
      Described(res, e0, pos + 1);
    }
    VerifyDecides(v, buffer[pos..]);
    if Verify(v, buffer[pos..]).None? {
      return Invalid;
    }
    r := Node(pos, res.length + 1, [res]);
    ArrayDescribed(v, res, pos);
  }

  lemma ArrayOfFirst(v: Data)
    requires v.Arr? && WellTyped(v)
    ensures v.elems != [] && WellTyped(v.elems[0]) && Written(v) == 1 + Written(v.elems[0]) && Sig(v) == "a" + Sig(v.elems[0])
    ensures Accepted(v) ==> Accepted(v.elems[0])
  {}

  lemma Prefixed(text: string, pos: nat, sig: string)
    requires pos + 1 + |sig| <= |text| && text[pos] == 'a' && text[pos + 1..pos + 1 + |sig|] == sig
    ensures text[pos..pos + 1 + |sig|] == "a" + sig && "a" + sig <= text[pos..]
  {
    assert text[pos..] == ['a'] + text[pos + 1..];
    assert text[pos + 1..][..|sig|] == sig;
    assert text[pos..][..1 + |sig|] == text[pos..pos + 1 + |sig|];
  }

  lemma ArrayDescribed(v: Data, res: Node, pos: nat)
    requires v.Arr? && v.elems != [] && Describes(res, v.elems[0], pos + 1)
    ensures Describes(Node(pos, res.length + 1, [res]), v, pos)
  {}

  /** When the first element is written, verifying the whole array accepts it exactly if it is acceptable. */
  lemma VerifyDecides(v: Data, text: string)
    requires v.Arr? && WellTyped(v) && (Accepted(v) ==> Sig(v) <= text)
    ensures Verify(v, text).Some? <==> Accepted(v)
  {
    if TupleFree(v) {
      VerifyIsSig(v, text);
    } else {
      TuplesRefused(v, text);
      if Accepted(v) { AcceptedArray(v); }
    }
  }

  lemma AcceptedArray(v: Data)
    requires v.Arr? && Accepted(v)
    ensures TupleFree(v)
  {}

  ghost predicate PartsDescribed(v: Data, pos: nat, child: seq<Node>, i: nat)
    requires v.Tup? && i <= |v.elems|
  {
    && (forall k | 0 <= k < i :: Accepted(v.elems[k])) && |child| == i
    && (forall k | 0 <= k < i :: Describes(child[k], v.elems[k], pos + 1 + |Sigs(v.elems[..k])|))
  }

  ghost predicate TextDone(text: string, pos: nat, front: string) {
    pos + 1 + |front| <= |text| && text[pos..pos + 1 + |front|] == "(" + front
  }

  /** The first `i` parts of a tuple are written. */
  ghost predicate PartsWritten(v: Data, text: string, pos: nat, child: seq<Node>, i: nat)
    requires v.Tup? && i <= |v.elems|
  {
    PartsDescribed(v, pos, child, i) && TextDone(text, pos, Sigs(v.elems[..i]))
  }

  lemma PartsNone(v: Data, text: string, pos: nat)
    requires v.Tup? && pos < |text| && text[pos] == '('
    ensures PartsWritten(v, text, pos, [], 0) && Sigs(v.elems[..0]) == ""
  {
    assert v.elems[..0] == [];
    assert text[pos..pos + 1] == "(" + "";
  }

  lemma TupleOpens(v: Data)
    requires v.Tup? && WellTyped(v)
    ensures Written(v) >= 1 && forall i | 0 <= i < |v.elems| :: WellTyped(v.elems[i])
  {}

  lemma PartRoom(v: Data, text: string, pos: nat, child: seq<Node>, i: nat)
    requires v.Tup? && WellTyped(v) && i < |v.elems| && PartsWritten(v, text, pos, child, i)
    ensures pos + 1 + |Sigs(v.elems[..i])| + Written(v.elems[i]) <= pos + Written(v)
    ensures pos + 1 + |Sigs(v.elems[..i])| <= |text|
  {
    WrittenTupleFrom(v.elems, i);
    assert v.elems[i..][0] == v.elems[i];
  }

  lemma PartRefused(v: Data, i: nat)
    requires v.Tup? && i < |v.elems| && !Accepted(v.elems[i])
    ensures !Accepted(v)
  {}

  lemma Described(r: Node, v: Data, pos: nat)
    requires Describes(r, v, pos)
    ensures r.Node? && r.length == |Sig(v)|
  {}

  lemma PartsNext(v: Data, text: string, text': string, pos: nat, child: seq<Node>, i: nat, c: Node)
    requires v.Tup? && i < |v.elems| && PartsWritten(v, text, pos, child, i) && Accepted(v.elems[i])
    requires var curr := pos + 1 + |Sigs(v.elems[..i])|; var n := |Sig(v.elems[i])|;
      && |text'| == |text| && curr + n <= |text| && text'[..curr] == text[..curr]
      && Describes(c, v.elems[i], curr) && text'[curr..curr + n] == Sig(v.elems[i])
    ensures PartsWritten(v, text', pos, child + [c], i + 1)
    ensures |Sigs(v.elems[..i+1])| == |Sigs(v.elems[..i])| + |Sig(v.elems[i])|
  {
    SigsPush(v.elems, i);
    hide Sigs, Sig, Accepted, Describes, PartsDescribed, TextDone;
    DescribedNext(v, pos, child, i, c);
    TextNext(text, text', pos, Sigs(v.elems[..i]), Sig(v.elems[i]));
  }

  lemma DescribedNext(v: Data, pos: nat, child: seq<Node>, i: nat, c: Node)
    requires v.Tup? && i < |v.elems| && PartsDescribed(v, pos, child, i) && Accepted(v.elems[i])
    requires Describes(c, v.elems[i], pos + 1 + |Sigs(v.elems[..i])|)
    ensures PartsDescribed(v, pos, child + [c], i + 1)
  {
    hide Sigs, Accepted, Describes;
  }

  lemma TextNext(text: string, text': string, pos: nat, front: string, next: string)
    requires TextDone(text, pos, front)
    requires var curr := pos + 1 + |front|;
      && |text'| == |text| && curr + |next| <= |text| && text'[..curr] == text[..curr] && text'[curr..curr + |next|] == next
    ensures TextDone(text', pos, front + next)
  {
    Glue(text, text', pos, pos + 1 + |front|, |next|);
    Paren(front, next);
  }

  lemma Paren(a: string, b: string)
    ensures ("(" + a) + b == "(" + (a + b)
  {}

  lemma Glue(text: string, text': string, pos: nat, curr: nat, n: nat)
    requires pos <= curr && curr + n <= |text| == |text'| && text'[..curr] == text[..curr]
    ensures text'[pos..curr + n] == text[pos..curr] + text'[curr..curr + n]
  {
    assert text'[pos..curr] == text'[..curr][pos..] == text[..curr][pos..] == text[pos..curr];
  }

  lemma Untouched(text: string, text': string, a: nat, b: nat)
    requires a <= b <= |text| == |text'| && text'[a..] == text[a..]
    ensures text'[b..] == text[b..]
  {
    assert text'[b..] == text'[a..][b - a..] && text[b..] == text[a..][b - a..];
  }

  lemma PartsAll(v: Data, text: string, pos: nat, child: seq<Node>)
    requires v.Tup? && WellTyped(v) && PartsWritten(v, text, pos, child, |v.elems|)
    ensures Accepted(v) && Written(v) == |Sig(v)| == 2 + |Sigs(v.elems[..|v.elems|])|
    ensures Describes(Node(pos, |Sig(v)|, child), v, pos)
    ensures pos + 1 + |Sigs(v.elems[..|v.elems|])| <= |text|
    ensures text[pos..pos + 1 + |Sigs(v.elems[..|v.elems|])|] + ")" == Sig(v)
  {
    assert v.elems[..|v.elems|] == v.elems;
    AllAccepted(v);
    WrittenIsSig(v);
    TupleDescribed(v, pos, child);
    hide Describes, Accepted, Sigs, Written;
    assert "(" + Sigs(v.elems) + ")" == Sig(v);
  }

  lemma AllAccepted(v: Data)
    requires v.Tup? && forall k | 0 <= k < |v.elems| :: Accepted(v.elems[k])
    ensures Accepted(v)
  {}

  lemma TupleDescribed(v: Data, pos: nat, child: seq<Node>)
    requires v.Tup? && PartsDescribed(v, pos, child, |v.elems|)
    ensures Describes(Node(pos, |Sig(v)|, child), v, pos)
  {
    hide Sig, Sigs, Accepted;
  }

  method TupleToBuffer(v: Data, buffer: array<char>, pos: nat) returns (r: Node)
    requires v.Tup? && WellTyped(v) && pos + Written(v) <= buffer.Length
    modifies buffer
    ensures buffer[..pos] == old(buffer[..pos]) && buffer[pos + Written(v)..] == old(buffer[pos + Written(v)..])
    ensures Accepted(v) ==> Describes(r, v, pos) && Written(v) == |Sig(v)| && buffer[pos..pos + |Sig(v)|] == Sig(v)
    ensures !Accepted(v) ==> r == Invalid
    decreases v, 0
  {
    hide Sigs, Sig, Describes, Accepted, Written, WrittenTuple, PartsWritten, Verify;
    var curr := pos;
    TupleOpens(v);
    buffer[curr] := '(';
    curr := curr + 1;
    var length, child := 2, [];
    PartsNone(v, buffer[..], pos);
    for i := 0 to |v.elems|
      invariant buffer[..pos] == old(buffer[..pos]) && buffer[pos + Written(v)..] == old(buffer[pos + Written(v)..])
      invariant PartsWritten(v, buffer[..], pos, child, i)
      invariant curr == pos + 1 + |Sigs(v.elems[..i])| && length == 2 + |Sigs(v.elems[..i])|
    {
      ghost var text := buffer[..];
      PartRoom(v, text, pos, child, i);
      var c := ToBuffer(v.elems[i], buffer, curr);
      if Accepted(v.elems[i]) { Described(c, v.elems[i], curr); }
      assert buffer[..pos] == text[..pos];
      Untouched(text, buffer[..], curr + Written(v.elems[i]), pos + Written(v));
      if c == Invalid {
        PartRefused(v, i);
        return Invalid;
      }
      PartsNext(v, text, buffer[..], pos, child, i, c);
      child := child + [c];
      length := length + c.length;
      curr := curr + c.length;
    }
    ghost var text := buffer[..];
    PartsAll(v, text, pos, child);
    buffer[curr] := ')';
    assert buffer[pos..curr + 1] == text[pos..curr] + [')'];
    assert buffer[..pos] == text[..pos];
    Untouched(text, buffer[..], curr + 1, pos + Written(v));
    r := Node(pos, length, child);
  }

  /** What becomes of a value. After an overrun the behaviour of the code is undefined. */
  datatype Outcome = Signed(sig: string, node: Node) | Refused | Overrun

  /** `type_signature_of_di_value`: exactly the accepted values get a signature; of the others, those that
      have a length but do not fit into the block for it make the writer leave it. */
  method TypeSignature(v: Data) returns (r: Outcome)
    requires WellTyped(v)
    ensures r.Signed? <==> Accepted(v)
    ensures r.Signed? ==> r.sig == Sig(v) && |Sig(v)| == Length(v) && Describes(r.node, v, 0)
    ensures r.Overrun? <==> Length(v) >= 0 && !Fits(v, 1)
  {
    var len := Length(v);
    if Accepted(v) {
      AcceptedFits(v);
      LengthIsSig(v);
      WrittenIsSig(v);
    }
    if len < 0 {
      return Refused;
    }
    OverrunIff(v);
    hide Accepted, Describes, Fits, Written;
    var buffer := new char[len + 1];
    // the code has no such test: from the end of the block it writes on
    if Written(v) > len + 1 {
      return Overrun;
    }
    var node := ToBuffer(v, buffer, 0);
    if Accepted(v) { Described(node, v, 0); }
    if node == Invalid {
      return Refused;
    }
    r := Signed(buffer[..len], node);
    assert buffer[0..len] == buffer[..len];
  }

  // ---------------------------------------------------------------- the D-Bus type grammar

  predicate BasicCode(c: char) {
    c in "ybnqiuxtdsogh"
  }

  /** One single complete type at the start of `s`; the result is what follows it. */
  function ParseType(s: string): (r: Option<string>)
    ensures r.Some? ==> |r.value| < |s|
    decreases |s|, 0
  {
    if s == "" then None
    else if BasicCode(s[0]) || s[0] == 'v' then Some(s[1..])
    else if s[0] == 'a' then ParseType(s[1..])
    else if s[0] == '(' then
      match ParseType(s[1..])
      case None => None
      case Some(t) => ParseFields(t)
    else None
  }

  /** More types up to the closing parenthesis. */
  function ParseFields(s: string): (r: Option<string>)
    ensures r.Some? ==> |r.value| < |s|
    decreases |s|, 1
  {
    if s == "" then None
    else if s[0] == ')' then Some(s[1..])
    else
      match ParseType(s)
      case None => None
      case Some(t) => ParseFields(t)
  }

  /** D-Bus has no empty structs. */
  predicate NoEmptyTuple(v: Data) {
    match v
    case Tup(elems) => elems != [] && forall i | 0 <= i < |elems| :: NoEmptyTuple(elems[i])
    case _ => true
  }

  lemma {:induction false} ArrayParses(v: Data, rest: string)
    requires Accepted(v) && TupleFree(v)
    ensures ParseType(Sig(v) + rest) == Some(rest) && Sig(v)[0] != ')'
    decreases v
  {
    if v.Arr? {
      ArrayParses(v.elems[0], rest);
      assert (Sig(v) + rest)[1..] == Sig(v.elems[0]) + rest;
    } else {
      assert (Sig(v) + rest)[1..] == rest;
    }
  }

  /** The signature of an accepted value is one single complete type if and only if the value has
      no tuple without elements. */
  lemma {:induction false} SigIsComplete(v: Data, rest: string)
    requires Accepted(v)
    ensures ParseType(Sig(v) + rest) == if NoEmptyTuple(v) then Some(rest) else None
    ensures Sig(v) != "" && Sig(v)[0] != ')'
    decreases v, 1
  {
    if v.Tup? {
      TupleText(v, rest);
      if v.elems == [] {
        assert Sig(v) == "()";
      } else {
        var tail := Sigs(v.elems[1..]) + (")" + rest);
        SigIsComplete(v.elems[0], tail);
        SigsComplete(v.elems[1..], rest);
        ParseParen(Sig(v.elems[0]) + tail);
        hide ParseType, ParseFields, Sig, Sigs;
      }
    } else {
      ArrayParses(v, rest);
    }
  }

  lemma TupleText(v: Data, rest: string)
    requires v.Tup?
    ensures Sig(v) != "" && Sig(v)[0] == '('
    ensures v.elems != [] ==> Sig(v) + rest == "(" + (Sig(v.elems[0]) + (Sigs(v.elems[1..]) + (")" + rest)))
    ensures v.elems == [] ==> ParseType(Sig(v) + rest) == None
  {
    if v.elems == [] {
      assert (Sig(v) + rest)[1..] == ")" + rest;
    }
  }

  lemma ParseParen(t: string)
    ensures ParseType("(" + t) == match ParseType(t) case None => None case Some(u) => ParseFields(u)
  {
    assert ("(" + t)[1..] == t;
  }

  lemma {:induction false} SigsComplete(elems: seq<Data>, rest: string)
    requires forall i | 0 <= i < |elems| :: Accepted(elems[i])
    ensures ParseFields(Sigs(elems) + (")" + rest)) ==
      if forall i | 0 <= i < |elems| :: NoEmptyTuple(elems[i]) then Some(rest) else None
    decreases elems, 0
  {
    if elems == [] {
      assert Sigs(elems) + (")" + rest) == ")" + rest;
      assert (")" + rest)[1..] == rest;
    } else {
      var tail := Sigs(elems[1..]) + (")" + rest);
      SigIsComplete(elems[0], tail);
      assert Sigs(elems) + (")" + rest) == Sig(elems[0]) + tail;
      SigsComplete(elems[1..], rest);
    }
  }
}
