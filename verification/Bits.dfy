/** Shifts and masks of unsigned numbers, as uthash uses them on powers of two. */
module Bits {

  function Pow2(k: nat): (p: nat)
    ensures p >= 1
  {
    if k == 0 then 1 else 2 * Pow2(k - 1)
  }

  /** `x >> k` */
  function Shr(x: nat, k: nat): nat {
    if k == 0 then x else Shr(x / 2, k - 1)
  }

  /** `x & y` */
  function And(x: nat, y: nat): nat {
    if x == 0 || y == 0 then 0 else (x % 2) * (y % 2) + 2 * And(x / 2, y / 2)
  }

  lemma {:induction false} MaskIsMod(x: nat, k: nat)
    ensures And(x, Pow2(k) - 1) == x % Pow2(k)
  {
    var m := Pow2(k);
    if k == 0 {
      assert m == 1 && And(x, 0) == 0;
    } else {
      var p := Pow2(k - 1);
      assert m == 2 * p;
      MaskIsMod(x / 2, k - 1);
      MaskStep(x, p);
      hide And, Pow2;
    }
  }

  lemma MaskStep(x: nat, p: nat)
    requires p >= 1 && And(x / 2, p - 1) == (x / 2) % p
    ensures And(x, 2 * p - 1) == x % (2 * p)
  {
    OddMask(x, p);
    HalfFirst(x, p);
  }

  lemma OddMask(x: nat, p: nat)
    requires p >= 1
    ensures And(x, 2 * p - 1) == x % 2 + 2 * And(x / 2, p - 1)
  {
    assert (2 * p - 1) / 2 == p - 1 && (2 * p - 1) % 2 == 1;
  }

  /** Dividing by 2 p is halving and dividing by p. */
  lemma HalfFirst(x: nat, p: nat)
    requires p >= 1
    ensures x / (2 * p) == (x / 2) / p && x % (2 * p) == x % 2 + 2 * ((x / 2) % p)
  {
    var h, b := x / 2, x % 2;
    var q, r := h / p, h % p;
    assert h == p * q + r;
    Doubled(p, q, r, b);
    Quotient(x, 2 * p, q, 2 * r + b);
  }

  lemma Doubled(p: nat, q: nat, r: nat, b: nat)
    ensures 2 * (p * q + r) + b == (2 * p) * q + (2 * r + b)
  {
    assert (2 * p) * q == 2 * (p * q);
  }

  lemma {:induction false} MulMono(d: nat, a: nat, b: nat)
    requires a <= b
    ensures d * a <= d * b
  {
    if d > 0 { MulMono(d - 1, a, b); }
  }

  lemma Quotient(x: nat, d: nat, q: nat, r: nat)
    requires d > 0 && x == d * q + r && r < d
    ensures x / d == q && x % d == r
  {
    var q', r' := x / d, x % d;
    assert x == d * q' + r' && r' < d;
    assert d * (q' + 1) == d * q' + d && d * (q + 1) == d * q + d;
    if q' < q { MulMono(d, q' + 1, q); }
    if q < q' { MulMono(d, q + 1, q'); }
  }

  lemma {:induction false} ShrIsDiv(x: nat, k: nat)
    ensures Shr(x, k) == x / Pow2(k)
  {
    if k > 0 {
      ShrIsDiv(x / 2, k - 1);
      HalfFirst(x, Pow2(k - 1));
    }
  }

  function CeilDiv(x: nat, d: nat): (q: nat)
    requires d > 0
  {
    x / d + if x % d != 0 then 1 else 0
  }

  /** The least number of chains of length `CeilDiv(x, d)` covers all items. */
  lemma CeilDivIsLeast(x: nat, d: nat)
    requires d > 0
    ensures x <= d * CeilDiv(x, d)
    ensures forall q: nat | x <= d * q :: CeilDiv(x, d) <= q
  {
    var c := CeilDiv(x, d);
    assert x == d * (x / d) + x % d;
    assert d * (x / d + 1) == d * (x / d) + d;
    forall q: nat ensures x <= d * q ==> c <= q {
      if q < c { MulMono(d, q, c - 1); }
    }
  }

  lemma CeilFacts(x: nat, d: nat)
    requires d > 0 && x > 0
    ensures CeilDiv(x, d) >= 1 && d * (CeilDiv(x, d) - 1) < x <= d * CeilDiv(x, d)
  {
    CeilDivIsLeast(x, d);
    assert d * 0 == 0;
  }

  lemma CeilStep(x: nat, d: nat)
    requires d > 0 && x > 1
    ensures var c := CeilDiv(x - 1, d); CeilDiv(x, d) == if x > d * c then c + 1 else c
  {
    var c := CeilDiv(x - 1, d);
    CeilFacts(x - 1, d);
    assert d * (c + 1) == d * c + d;
    CeilIs(x, d, if x > d * c then c + 1 else c);
  }

  lemma CeilIs(x: nat, d: nat, q: nat)
    requires d > 0 && q >= 1 && d * (q - 1) < x <= d * q
    ensures CeilDiv(x, d) == q
  {
    CeilDivIsLeast(x, d);
    hide CeilDiv;
    if CeilDiv(x, d) < q { MulMono(d, CeilDiv(x, d), q - 1); }
  }

  /** Rounding up by shift and mask. */
  lemma ShiftMaskIsCeil(x: nat, k: nat)
    ensures Shr(x, k) + (if And(x, Pow2(k) - 1) != 0 then 1 else 0) == CeilDiv(x, Pow2(k))
  {
    MaskIsMod(x, k);
    ShrIsDiv(x, k);
  }
}
