/**
  32-bit masks of digits, as the sudoku engine's JavaScript bit operations see
  them: bit v set means that digit v is present.  The operators are wrapped in
  named functions so that proofs about masks need not unfold them.
 */
module Bits {

  type Mask = bv32

  function Or(a: Mask, b: Mask): Mask { a | b }
  function And(a: Mask, b: Mask): Mask { a & b }
  function Not(a: Mask): Mask { !a }
  function Xor(a: Mask, b: Mask): Mask { a ^ b }
  predicate Meets(a: Mask, b: Mask) { a & b != 0 }

  function Bit(v: nat): Mask
    requires v < 32
  {
    1 << v
  }

  predicate Has(m: Mask, v: nat)
    requires v < 32
  {
    Meets(m, Bit(v))
  }

  // ------------------------------------------------------------------ bit algebra

  ghost predicate SingleBit(p: Mask) { p != 0 && p & (p - 1) == 0 }

  lemma BitIsSingle(v: nat)
    requires v < 32
    ensures SingleBit(Bit(v))
  {
  }

  lemma HasOwnBit(v: nat, w: nat)
    requires v < 32 && w < 32
    ensures Has(Bit(w), v) <==> v == w
  {
  }

  lemma HasOr(a: Mask, b: Mask, v: nat)
    requires v < 32
    ensures Has(Or(a, b), v) <==> Has(a, v) || Has(b, v)
  {
    MeetsOr(a, b, Bit(v));
  }

  lemma MeetsOr(a: Mask, b: Mask, p: Mask)
    ensures Meets(Or(a, b), p) <==> Meets(a, p) || Meets(b, p)
  {
    assert (a | b) & p == (a & p) | (b & p);
    if !Meets(a, p) && !Meets(b, p) { assert (a & p) | (b & p) == 0; }
  }

  lemma HasAnd(a: Mask, b: Mask, v: nat)
    requires v < 32
    ensures Has(And(a, b), v) <==> Has(a, v) && Has(b, v)
  {
    BitIsSingle(v);
    MeetsAnd(a, b, Bit(v));
  }

  lemma MeetsAnd(a: Mask, b: Mask, p: Mask)
    requires SingleBit(p)
    ensures Meets(And(a, b), p) <==> Meets(a, p) && Meets(b, p)
  {
    assert a & p == 0 || a & p == p;
    assert (a & b) & p == (a & p) & b;
  }

  lemma HasNot(a: Mask, v: nat)
    requires v < 32
    ensures Has(Not(a), v) <==> !Has(a, v)
  {
    BitIsSingle(v);
    MeetsNot(a, Bit(v));
  }

  lemma MeetsNot(a: Mask, p: Mask)
    requires SingleBit(p)
    ensures Meets(Not(a), p) <==> !Meets(a, p)
  {
    assert a & p == 0 || a & p == p;
    assert !a & p == p & !(a & p);
  }

  /** Xor with one bit clears it where it was set and sets it where it was clear. */
  lemma Toggle(a: Mask, p: Mask)
    requires SingleBit(p)
    ensures Meets(a, p) ==> Xor(a, p) == And(a, Not(p))
    ensures !Meets(a, p) ==> Xor(a, p) == Or(a, p)
  {
  }

  lemma HasToggle(a: Mask, d: nat, v: nat)
    requires d < 32 && v < 32
    ensures Has(Xor(a, Bit(d)), v) <==> Has(a, v) != (v == d)
  {
    BitIsSingle(d);
    Toggle(a, Bit(d));
    HasOwnBit(v, d);
    if Has(a, d) {
      HasAnd(a, Not(Bit(d)), v);
      HasNot(Bit(d), v);
    } else {
      HasOr(a, Bit(d), v);
    }
  }

  /** A bit that was clear can be set and cleared again without trace. */
  lemma SetThenClear(a: Mask, v: nat)
    requires v < 32 && !Has(a, v)
    ensures And(Or(a, Bit(v)), Not(Bit(v))) == a
  {
    SetThenClearBits(a, Bit(v));
  }

  lemma SetThenClearBits(a: Mask, p: Mask)
    requires !Meets(a, p)
    ensures And(Or(a, p), Not(p)) == a
  {
  }

  /** The digits 1..size: ((1 << (size + 1)) - 1) & ~1. */
  function FullMask(size: nat): Mask
    requires size < 31
  {
    And(LowBits(Bit(size + 1)), Not(1))
  }

  function LowBits(p: Mask): Mask { p - 1 }

  lemma HasFull(size: nat, v: nat)
    requires size < 31 && v < 32
    ensures Has(FullMask(size), v) <==> 1 <= v <= size
  {
    HasAnd(LowBits(Bit(size + 1)), Not(1), v);
    HasLow(size + 1, v);
    HasNot(1, v);
    assert Bit(0) == 1;
    HasOwnBit(v, 0);
  }

  /** The low s bits: (1 << s) - 1. */
  lemma {:induction false} HasLow(s: nat, v: nat)
    requires s < 32 && v < 32
    ensures Has(LowBits(Bit(s)), v) <==> v < s
  {
    if s == 0 {
      assert LowBits(Bit(0)) == 0;
      HasNone(v);
    } else {
      var p := Bit(s - 1);
      BitIsSingle(s - 1);
      NextBit(s);
      LowBitsNext(p, Bit(s));
      HasLow(s - 1, v);
      HasOr(LowBits(p), p, v);
      HasOwnBit(v, s - 1);
    }
  }

  lemma HasNone(v: nat)
    requires v < 32
    ensures !Has(0, v)
  {
    MeetsNone(Bit(v));
  }

  lemma MeetsNone(p: Mask)
    ensures !Meets(0, p)
  {
  }

  ghost predicate Twice(q: Mask, p: Mask) { q == p + p }

  lemma NextBit(s: nat)
    requires 0 < s < 32
    ensures Twice(Bit(s), Bit(s - 1))
  {
  }

  lemma LowBitsNext(p: Mask, q: Mask)
    requires SingleBit(p) && Twice(q, p)
    ensures LowBits(q) == Or(LowBits(p), p)
  {
  }

  // ------------------------------------------------------------------ popcount

  /** The digits whose bits are set. */
  ghost function BitsOf(m: Mask): set<nat> { set v: nat | v < 32 && Has(m, v) }

  /** v & (v - 1): the mask without its lowest set bit. */
  function DropLowest(m: Mask): Mask { m & (m - 1) }

  lemma LowestBit(m: Mask) returns (b: nat)
    requires m != 0
    ensures b < 32 && Has(m, b) && !Meets(m, LowBits(Bit(b)))
    ensures forall v :: 0 <= v < b ==> !Has(m, v)
  {
    b := 0;
    assert LowBits(Bit(0)) == 0;
    NoMeet(m);
    while !Has(m, b)
      invariant b < 32 && !Meets(m, LowBits(Bit(b)))
      invariant forall v :: 0 <= v < b ==> !Has(m, v)
      decreases 32 - b
    {
      BitIsSingle(b);
      NextLow(m, Bit(b));
      LastBit(b);
      NextBit(b + 1);
      LowBitsNext(Bit(b), Bit(b + 1));
      b := b + 1;
    }
  }

  lemma NoMeet(m: Mask)
    ensures !Meets(m, 0)
  {
  }

  ghost predicate HighBit(p: Mask) { p == 0x8000_0000 }

  lemma LastBit(b: nat)
    requires b < 32 && !HighBit(Bit(b))
    ensures b < 31
  {
  }

  lemma NextLow(m: Mask, p: Mask)
    requires SingleBit(p) && m != 0 && !Meets(m, p) && !Meets(m, LowBits(p))
    ensures !Meets(m, Or(LowBits(p), p)) && !HighBit(p)
  {
  }

  lemma ClearLowestBits(m: Mask, p: Mask)
    requires SingleBit(p) && Meets(m, p) && !Meets(m, LowBits(p))
    ensures DropLowest(m) == And(m, Not(p))
  {
  }

  /** The bit dropped is the lowest, and the others stay. */
  lemma DropLowestDropsOne(m: Mask)
    requires m != 0
    ensures exists b: nat ::
      && b in BitsOf(m) && (forall v :: v in BitsOf(m) ==> b <= v)
      && BitsOf(DropLowest(m)) == BitsOf(m) - {b}
    ensures |BitsOf(DropLowest(m))| == |BitsOf(m)| - 1
  {
    var b := LowestBit(m);
    BitIsSingle(b);
    ClearLowestBits(m, Bit(b));
    ClearOne(m, b);
    hide Has, DropLowest, And, Not, Bit;
    assert b in BitsOf(m);
  }

  lemma ClearOne(m: Mask, b: nat)
    requires b < 32
    ensures BitsOf(And(m, Not(Bit(b)))) == BitsOf(m) - {b}
  {
    forall v: nat | v < 32
      ensures Has(And(m, Not(Bit(b))), v) <==> Has(m, v) && v != b
    {
      HasAnd(m, Not(Bit(b)), v);
      HasNot(Bit(b), v);
      HasOwnBit(v, b);
    }
  }

  lemma NoBits()
    ensures BitsOf(0) == {}
  {
    forall v: nat | v < 32 ensures !Has(0, v) { HasNone(v); }
  }

  /** Kernighan's loop counts the set bits. */
  method PopCount(x: Mask) returns (c: nat)
    ensures c == |BitsOf(x)|
  {
    c := 0;
    var v := x;
    while v != 0
      invariant c + |BitsOf(v)| == |BitsOf(x)|
      decreases |BitsOf(v)|
    {
      DropLowestDropsOne(v);
      v := DropLowest(v);
      c := c + 1;
    }
    NoBits();
  }

  /** The digits of a mask in increasing order. */
  method MaskToValues(mask: Mask, size: nat) returns (out: seq<nat>)
    requires size < 32
    ensures forall v :: v in out <==> 1 <= v <= size && Has(mask, v)
    ensures forall i, j :: 0 <= i < j < |out| ==> out[i] < out[j]
  {
    out := [];
    for v := 1 to size + 1
      invariant forall w :: w in out <==> 1 <= w < v && Has(mask, w)
      invariant forall i, j :: 0 <= i < j < |out| ==> out[i] < out[j]
    {
      if Has(mask, v) {
        assert forall i :: 0 <= i < |out| ==> out[i] in out;
        out := out + [v];
      }
    }
  }
}
