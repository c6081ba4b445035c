/**
  The random source and the Fisher-Yates shuffle: what a shuffle does with each
  stream of draws, and that every order can come out.
 */
module Shuffling {

  /** A stream of draws, each used once. */
  class Random {
    const draws: nat -> nat
    var next: nat

    constructor (draws: nat -> nat)
      ensures this.draws == draws && next == 0
    {
      this.draws, next := draws, 0;
    }

    /** The next draw, reduced below the bound; nothing is drawn for a bound that is not positive. */
    method RandInt(maxExclusive: int) returns (r: int)
      modifies this`next
      ensures maxExclusive <= 0 ==> r == 0 && next == old(next)
      ensures maxExclusive > 0 ==> 0 <= r < maxExclusive && r == draws(old(next)) % maxExclusive
      ensures maxExclusive > 0 ==> next == old(next) + 1
    {
      if maxExclusive <= 0 { return 0; }
      r := draws(next) % maxExclusive;
      next := next + 1;
    }
  }

  function Swap<T>(s: seq<T>, i: nat, j: nat): (t: seq<T>)
    requires i < |s| && j < |s|
    ensures |t| == |s|
  {
    s[i := s[j]][j := s[i]]
  }

  /** From position i down to 1, each element changes places with the one the next draw picks at or before it. */
  function ShuffledFrom<T>(s: seq<T>, i: nat, draws: nat -> nat, at: nat): (t: seq<T>)
    requires i < |s|
    ensures |t| == |s|
    decreases i
  {
    if i == 0 then s else ShuffledFrom(Swap(s, i, draws(at) % (i + 1)), i - 1, draws, at + 1)
  }

  function Shuffled<T>(s: seq<T>, draws: nat -> nat, at: nat): (t: seq<T>)
    ensures |t| == |s|
  {
    if s == [] then [] else ShuffledFrom(s, |s| - 1, draws, at)
  }

  lemma SwapKeepsElements<T>(s: seq<T>, i: nat, j: nat)
    requires i < |s| && j < |s|
    ensures multiset(Swap(s, i, j)) == multiset(s)
  {
  }

  lemma {:induction false} ShuffledFromKeepsElements<T>(s: seq<T>, i: nat, draws: nat -> nat, at: nat)
    requires i < |s|
    ensures multiset(ShuffledFrom(s, i, draws, at)) == multiset(s)
    decreases i
  {
    if i > 0 {
      SwapKeepsElements(s, i, draws(at) % (i + 1));
      ShuffledFromKeepsElements(Swap(s, i, draws(at) % (i + 1)), i - 1, draws, at + 1);
    }
  }

  /** Whatever is drawn, a shuffle is a permutation. */
  lemma ShuffleIsPermutation<T>(s: seq<T>, draws: nat -> nat, at: nat)
    ensures multiset(Shuffled(s, draws, at)) == multiset(s)
  {
    if s != [] { ShuffledFromKeepsElements(s, |s| - 1, draws, at); }
  }

  lemma ShuffleStep<T>(s: seq<T>, i: nat, draws: nat -> nat, at: nat)
    requires 0 < i < |s|
    ensures ShuffledFrom(s, i, draws, at) == ShuffledFrom(Swap(s, i, draws(at) % (i + 1)), i - 1, draws, at + 1)
  {
  }

  lemma LastStep<T>(s: seq<T>, draws: nat -> nat, at: nat)
    requires s != []
    ensures ShuffledFrom(s, 0, draws, at) == s
  {
  }

  lemma SwapInPlace<T>(s: seq<T>, i: nat, j: nat, t: seq<T>)
    requires i < |s| && j < |s| && t == s[i := s[j]][j := s[i]]
    ensures t == Swap(s, i, j)
  {
  }

  /** The shuffle in place. */
  method ShuffleInPlace<T>(arr: array<T>, rng: Random)
    modifies arr, rng`next
    ensures arr[..] == Shuffled(old(arr[..]), rng.draws, old(rng.next))
    ensures multiset(arr[..]) == multiset(old(arr[..]))
    ensures rng.next == old(rng.next) + if arr.Length == 0 then 0 else arr.Length - 1
  {
    hide ShuffledFrom, Swap;
    ShuffleIsPermutation(arr[..], rng.draws, rng.next);
    if arr.Length == 0 { return; }
    ghost var was, at := arr[..], rng.next;
    var i := arr.Length - 1;
    while i > 0
      invariant 0 <= i < arr.Length && rng.next == at + (arr.Length - 1 - i)
      invariant ShuffledFrom(arr[..], i, rng.draws, rng.next) == ShuffledFrom(was, arr.Length - 1, rng.draws, at)
    {
      ghost var before, here := arr[..], rng.next;
      var j := rng.RandInt(i + 1);
      ShuffleStep(before, i, rng.draws, here);
      var tmp := arr[i];
      arr[i] := arr[j];
      arr[j] := tmp;
      SwapInPlace(before, i, j, arr[..]);
      i := i - 1;
    }
    LastStep(arr[..], rng.draws, rng.next);
  }

  // ------------------------------------------------------------------ every order can come out

  /** A shuffle from position i takes i draws. */
  lemma {:induction false} OnlyItsDrawsMatter<T>(s: seq<T>, i: nat, d: nat -> nat, e: nat -> nat, at: nat)
    requires i < |s| && forall n :: at <= n < at + i ==> d(n) == e(n)
    ensures ShuffledFrom(s, i, d, at) == ShuffledFrom(s, i, e, at)
    decreases i
  {
    if i > 0 { OnlyItsDrawsMatter(Swap(s, i, d(at) % (i + 1)), i - 1, d, e, at + 1); }
  }

  lemma FindAtOrBefore<T>(s: seq<T>, i: nat, p: seq<T>) returns (j: nat)
    requires i < |s| == |p| && multiset(s[..i + 1]) == multiset(p[..i + 1])
    ensures j <= i && s[j] == p[i]
  {
    assert p[..i + 1][i] == p[i];
    assert p[i] in multiset(p[..i + 1]);
    assert p[i] in s[..i + 1];
    j :| 0 <= j <= i && s[..i + 1][j] == p[i];
  }

  /** One draw in front of others. */
  function FirstDraw(j: nat, rest: nat -> nat, at: nat): nat -> nat { n => if n == at then j else rest(n) }

  lemma FirstDrawIs(j: nat, rest: nat -> nat, at: nat)
    ensures forall n: nat :: FirstDraw(j, rest, at)(n) == if n == at then j else rest(n)
  {
  }

  lemma OneMoreDraw<T>(s: seq<T>, i: nat, j: nat, rest: nat -> nat, at: nat)
    requires 0 < i < |s| && j <= i
    ensures ShuffledFrom(s, i, FirstDraw(j, rest, at), at) == ShuffledFrom(Swap(s, i, j), i - 1, rest, at + 1)
  {
    assert FirstDraw(j, rest, at)(at) == j && j % (i + 1) == j;
    OnlyItsDrawsMatter(Swap(s, i, j), i - 1, FirstDraw(j, rest, at), rest, at + 1);
  }

  lemma {:induction false} EveryOrderFrom<T>(s: seq<T>, i: nat, p: seq<T>, at: nat) returns (draws: nat -> nat)
    requires i < |s| == |p| && multiset(s[..i + 1]) == multiset(p[..i + 1]) && s[i + 1..] == p[i + 1..]
    ensures ShuffledFrom(s, i, draws, at) == p
    ensures forall n: nat :: draws(n) <= i
    decreases i
  {
    if i == 0 {
      draws := n => 0;
      OneLeft(s, p);
    } else {
      hide ShuffledFrom, Swap, FirstDraw;
      var j := FindAtOrBefore(s, i, p);
      SwapFixesLast(s, i, j, p);
      var rest := EveryOrderFrom(Swap(s, i, j), i - 1, p, at + 1);
      draws := FirstDraw(j, rest, at);
      FirstDrawIs(j, rest, at);
      OneMoreDraw(s, i, j, rest, at);
    }
  }

  lemma OneLeft<T>(s: seq<T>, p: seq<T>)
    requires |s| == |p| > 0 && multiset(s[..1]) == multiset(p[..1]) && s[1..] == p[1..]
    ensures s == p
  {
    assert s[..1] == [s[0]] && p[..1] == [p[0]];
    assert s[0] in multiset(p[..1]);
    assert s == [s[0]] + s[1..] && p == [p[0]] + p[1..];
  }

  lemma SwapFixesLast<T>(s: seq<T>, i: nat, j: nat, p: seq<T>)
    requires 0 < i < |s| == |p| && j <= i && s[j] == p[i]
    requires multiset(s[..i + 1]) == multiset(p[..i + 1]) && s[i + 1..] == p[i + 1..]
    ensures var t := Swap(s, i, j); multiset(t[..i]) == multiset(p[..i]) && t[i..] == p[i..]
  {
    var t := Swap(s, i, j);
    assert t[..i + 1] == Swap(s[..i + 1], i, j);
    SwapKeepsElements(s[..i + 1], i, j);
    assert t[i] == p[i] && t[i + 1..] == s[i + 1..];
    hide Swap;
    WithoutLast(t, i);
    WithoutLast(p, i);
  }

  lemma WithoutLast<T>(s: seq<T>, i: nat)
    requires i < |s|
    ensures multiset(s[..i]) == multiset(s[..i + 1]) - multiset{s[i]}
    ensures s[i..] == [s[i]] + s[i + 1..]
  {
    assert s[..i + 1] == s[..i] + [s[i]];
  }

  /** Every permutation comes out of some draws, none of them large. */
  lemma EveryOrderIsPossible<T>(s: seq<T>, p: seq<T>, at: nat) returns (draws: nat -> nat)
    requires multiset(s) == multiset(p)
    ensures Shuffled(s, draws, at) == p
    ensures forall n: nat :: draws(n) <= |s|
  {
    assert |multiset(s)| == |s| && |multiset(p)| == |p|;
    if s == [] {
      draws := n => 0;
    } else {
      assert s[..|s|] == s && p[..|s|] == p && s[|s|..] == p[|s|..];
      draws := EveryOrderFrom(s, |s| - 1, p, at);
    }
  }
}
