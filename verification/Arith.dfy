/** The few facts about products, quotients and remainders that the grid geometry needs. */
module Arith {

  lemma MulGap(k: nat, a: nat, b: nat)
    requires a < b
    ensures k * a + k <= k * b
  {
    var d := b - a - 1;
    assert b == a + 1 + d;
    assert k * (a + 1 + d) == k * a + k + k * d;
  }

  lemma DivBelow(x: nat, a: nat, b: nat)
    requires 0 < b && x < a * b
    ensures x / b < a
  {
    assert x / b * b <= x < a * b;
  }

  lemma PairBelow(q: nat, p: nat, k: nat)
    requires q < k && p < k
    ensures q * k + p < k * k
  {
    MulGap(k, q, k);
  }

  lemma PairUnique(k: nat, a: nat, r: nat, a': nat, r': nat)
    requires r < k && r' < k && k * a + r == k * a' + r'
    ensures a == a' && r == r'
  {
    if a < a' {
      MulGap(k, a, a');
    } else if a' < a {
      MulGap(k, a', a);
    }
  }

  lemma DivMod(x: nat, n: nat)
    requires 0 < n
    ensures x == n * (x / n) + x % n && x % n < n
  {
  }

  lemma ShiftsDiffer(n: nat, s: nat, x: nat, y: nat)
    requires x < n && y < n && x != y
    ensures (s + x) % n != (s + y) % n
  {
    DivMod(s + x, n);
    DivMod(s + y, n);
    RemaindersDiffer(n, s + x, s + y, (s + x) / n, (s + y) / n, (s + x) % n, (s + y) % n);
  }

  lemma RemaindersDiffer(n: nat, x: nat, y: nat, q: nat, p: nat, a: nat, b: nat)
    requires x == n * q + a && y == n * p + b && x != y && x < y + n && y < x + n
    ensures a != b
  {
    if q < p {
      MulGap(n, q, p);
    } else if p < q {
      MulGap(n, p, q);
    }
  }

  /** Two-digit numbers in base k, read in either order, stay below k * k and keep their digits apart. */
  lemma DigitsDiffer(k: nat, a: nat, q: nat, a': nat, q': nat)
    requires a < k && q < k && a' < k && q' < k && (a != a' || q != q')
    ensures k * a + q < k * k && k * a' + q' < k * k && k * a + q != k * a' + q'
  {
    PairBelow(a, q, k);
    PairBelow(a', q', k);
    if k * a + q == k * a' + q' { PairUnique(k, a, q, a', q'); }
  }

  lemma ShiftedDigitsDiffer(k: nat, n: nat, r: nat, c: nat, a: nat, e: nat, a': nat, e': nat)
    requires n == k * k && a < k && e < k && a' < k && e' < k && (a != a' || e != e')
    ensures (k * a + r + (k * c + e)) % n != (k * a' + r + (k * c + e')) % n
  {
    DigitsDiffer(k, a, e, a', e');
    ShiftedSumsDiffer(n, r, k * c, k * a, e, k * a', e');
  }

  lemma ShiftedSumsDiffer(n: nat, r: nat, z: nat, x: nat, e: nat, x': nat, e': nat)
    requires x + e < n && x' + e' < n && x + e != x' + e'
    ensures (x + r + (z + e)) % n != (x' + r + (z + e')) % n
  {
    ShiftsDiffer(n, r + z, x + e, x' + e');
    assert x + r + (z + e) == r + z + (x + e) && x' + r + (z + e') == r + z + (x' + e');
  }

  lemma Split(x: nat, k: nat) returns (q: nat, a: nat)
    requires x < k * k
    ensures q == x / k && a == x % k && q < k && a < k && x == k * q + a
  {
    q, a := x / k, x % k;
    DivBelow(x, k, k);
    DivMod(x, k);
  }

  lemma SwappedDigitsDiffer(k: nat, r: nat, r': nat)
    requires r < k * k && r' < k * k && r != r'
    ensures k * (r % k) + r / k < k * k
    ensures k * (r % k) + r / k != k * (r' % k) + r' / k
  {
    var q, a := Split(r, k);
    var q', a' := Split(r', k);
    DigitsDiffer(k, a, q, a', q');
  }

  lemma SameBlockDiffers(k: nat, n: nat, r: nat, c: nat, r': nat, c': nat)
    requires n == k * k && r < n && c < n && r' < n && c' < n && (r != r' || c != c')
    requires r / k * k + c / k == r' / k * k + c' / k
    ensures (k * (r % k) + r / k + c) % n != (k * (r' % k) + r' / k + c') % n
  {
    var q, a := Split(r, k);
    var q', a' := Split(r', k);
    var p, e := Split(c, k);
    var p', e' := Split(c', k);
    PairUnique(k, q, p, q', p');
    ShiftedDigitsDiffer(k, n, q, p, a, e, a', e');
  }

  lemma DivModUnique(x: nat, n: nat, q: nat, r: nat)
    requires r < n && x == n * q + r
    ensures x / n == q && x % n == r
  {
    DivMod(x, n);
    PairUnique(n, q, r, x / n, x % n);
  }

  lemma BlockCoord(x: nat, k: nat, q: nat, r: nat)
    requires r < k
    ensures x / k == q && x % k == r <==> x == q * k + r
  {
    DivMod(x, k);
    if x == q * k + r { DivModUnique(x, k, q, r); }
  }

  lemma SameBlock(k: nat, r: nat, c: nat, br: nat, bc: nat)
    requires r < k * k && c < k * k && br < k && bc < k
    ensures r / k * k + c / k == br * k + bc <==> r / k == br && c / k == bc
  {
    var q, a := Split(r, k);
    var p, e := Split(c, k);
    if q * k + p == br * k + bc { PairUnique(k, q, p, br, bc); }
  }

  lemma BlockCell(k: nat, n: nat, q: nat, r: nat)
    requires n == k * k && q < k && r < k
    ensures q * k + r < n && (q * k + r) / k == q && (q * k + r) % k == r
  {
    PairBelow(q, r, k);
    BlockCoord(q * k + r, k, q, r);
  }

  lemma EqualParts(x: nat, y: nat, k: nat)
    requires 0 < k && x / k == y / k && x % k == y % k
    ensures x == y
  {
    DivMod(x, k);
    DivMod(y, k);
  }

  /** The part of d that is part out of total, rounded down. */
  function Portion(d: nat, part: nat, total: nat): (r: nat)
    requires part <= total
    ensures r <= d
    ensures total > 0 ==> total * r <= d * part < total * r + total
    ensures total == 0 ==> r == 0
  {
    if total == 0 then 0
    else
      MulMonotone(d, part, total);
      DivAtMost(d * part, d, total);
      DivMod(d * part, total);
      d * part / total
  }

  lemma DivAtMost(x: nat, d: nat, total: nat)
    requires total > 0 && x <= total * d
    ensures x / total <= d
  {
    DivMod(x, total);
    if d < x / total { MulGap(total, d, x / total); }
  }

  lemma MulMonotone(d: nat, part: nat, total: nat)
    requires part <= total
    ensures d * part <= total * d
  {
  }
}
