/** Conversions between types: include/utils.h, on 64-bit machines. */
module Conversion {
  import opened DiTypes
  import opened Values

  const TWO_32 := 0x1_0000_0000
  const TWO_64 := 0x1_0000_0000_0000_0000

  const ERANGE := 34
  const EINVAL := 22

  // ---------------------------------------------------------------- integers as C has them

  predicate IsInteger(t: DiType) {
    t == INT || t == NINT || t == UINT || t == NUINT
  }

  predicate Wide(t: DiType) {
    t == INT || t == UINT
  }

  predicate Unsigned(t: DiType) {
    t == UINT || t == NUINT
  }

  function Modulus(t: DiType): int {
    if Wide(t) then TWO_64 else TWO_32
  }

  function MaxOf(t: DiType): int {
    if Unsigned(t) then Modulus(t) - 1 else Modulus(t) / 2 - 1
  }

  function MinOf(t: DiType): int {
    if Unsigned(t) then 0 else -(Modulus(t) / 2)
  }

  predicate InRange(n: int, t: DiType) {
    MinOf(t) <= n <= MaxOf(t)
  }

  /** A cast to an integer type: the value modulo the size of the type. */
  function Cast(n: int, t: DiType): (r: int)
    ensures InRange(r, t)
  {
    var m := n % Modulus(t);
    if Unsigned(t) || m <= MaxOf(t) then m else m - Modulus(t)
  }

  /** The usual arithmetic conversions. */
  function Common(a: DiType, b: DiType): DiType {
    if Wide(a) == Wide(b) then (if Unsigned(a) then a else b)
    else if Wide(a) then a else b
  }

  predicate Less(a: DiType, m: int, b: DiType, n: int) {
    Cast(m, Common(a, b)) < Cast(n, Common(a, b))
  }

  /** The constant that the code compares with, and its type: 0 for unsigned targets is an int. */
  function MinType(t: DiType): DiType {
    if Unsigned(t) then NINT else t
  }

  /** `integer_conversion` between different integer types: the result, or None for -ERANGE. */
  function IntegerConversion(inty: DiType, n: int, outty: DiType): Option<int>
    requires IsInteger(inty) && IsInteger(outty)
  {
    if inty == outty then Some(n)
    else if Less(outty, MaxOf(outty), inty, n) || Less(inty, n, MinType(outty), MinOf(outty)) then None
    else Some(Cast(n, outty))
  }

  /** The pairs where comparing with a negative minimum turns that into a large unsigned number. */
  predicate NeverConverts(inty: DiType, outty: DiType) {
    (inty == UINT && outty == INT) || (inty == NUINT && outty == NINT) || (inty == UINT && outty == NINT)
  }

  lemma CastInRange(n: int, t: DiType)
    requires InRange(n, t)
    ensures Cast(n, t) == n
  {
    if n < 0 { assert n % Modulus(t) == n + Modulus(t); }
  }

  /** An integer is converted if and only if the target can hold it and the pair of types is not one
      of the three that never convert; what is converted keeps its value. */
  lemma IntegersExact(inty: DiType, n: int, outty: DiType)
    requires IsInteger(inty) && IsInteger(outty) && InRange(n, inty)
    ensures IntegerConversion(inty, n, outty) ==
      if InRange(n, outty) && !NeverConverts(inty, outty) then Some(n) else None
  {
    hide Less, Cast, MaxOf, MinOf, Modulus, MinType;
    if inty != outty {
      TooBig(inty, n, outty);
      TooSmall(inty, n, outty);
      Bounds(outty);
      if InRange(n, outty) { CastInRange(n, outty); }
    }
  }

  lemma Bounds(t: DiType)
    ensures MinOf(t) <= 0 <= MaxOf(t) && (Unsigned(t) ==> MinOf(t) == 0)
  {}

  lemma TooBig(inty: DiType, n: int, outty: DiType)
    requires IsInteger(inty) && IsInteger(outty) && inty != outty && InRange(n, inty)
    ensures n > MaxOf(outty) ==> Less(outty, MaxOf(outty), inty, n)
    ensures 0 <= n <= MaxOf(outty) || (n < 0 && !Unsigned(outty)) ==> !Less(outty, MaxOf(outty), inty, n)
  {
    var c := Common(outty, inty);
    MaxStays(outty, inty);
    CastInRange(MaxOf(outty), c);
    CastsOf(n, inty, c);
    hide Cast;
    if InRange(n, c) {
      assert Less(outty, MaxOf(outty), inty, n) <==> MaxOf(outty) < n;
    } else {
      Overflows(outty, inty, n);
    }
  }

  lemma MaxStays(outty: DiType, inty: DiType)
    requires IsInteger(inty) && IsInteger(outty)
    ensures InRange(MaxOf(outty), Common(outty, inty))
  {}

  /** Only a negative number compared with an unsigned type is changed by the usual conversions. */
  lemma Overflows(outty: DiType, inty: DiType, n: int)
    requires IsInteger(inty) && IsInteger(outty) && inty != outty && InRange(n, inty) && !InRange(n, Common(outty, inty))
    ensures n < 0 && Unsigned(outty)
  {}

  lemma TooSmall(inty: DiType, n: int, outty: DiType)
    requires IsInteger(inty) && IsInteger(outty) && inty != outty && InRange(n, inty)
    ensures Unsigned(outty) ==> (Less(inty, n, MinType(outty), MinOf(outty)) <==> n < 0)
    ensures NeverConverts(inty, outty) && n <= MaxOf(outty) ==> Less(inty, n, MinType(outty), MinOf(outty))
    ensures !Unsigned(outty) && !NeverConverts(inty, outty) ==>
      (Less(inty, n, MinType(outty), MinOf(outty)) <==> n < MinOf(outty))
  {
    var d := Common(inty, MinType(outty));
    CastsOf(n, inty, d);
    CastsOf(MinOf(outty), MinType(outty), d);
    hide Cast;
  }

  /** Casting to a type that is at least as wide. */
  lemma CastsOf(n: int, from: DiType, to: DiType)
    requires IsInteger(from) && IsInteger(to) && InRange(n, from) && (Wide(from) ==> Wide(to))
    ensures Cast(n, to) == if InRange(n, to) then n else if n < 0 then n + Modulus(to) else n - Modulus(to)
  {
    if InRange(n, to) {
      CastInRange(n, to);
    } else if n < 0 {
      assert n % Modulus(to) == n + Modulus(to);
    }
  }
}
