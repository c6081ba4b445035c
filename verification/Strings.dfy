/** The string functions of the Go library that the models need. */
module Strings {

  /** The characters of Unicode's White_Space property. */
  predicate IsSpace(c: char) {
    || '\t' <= c <= '\r' || c == ' ' || c == '\U{85}' || c == '\U{A0}' || c == '\U{1680}'
    || '\U{2000}' <= c <= '\U{200A}' || c == '\U{2028}' || c == '\U{2029}' || c == '\U{202F}'
    || c == '\U{205F}' || c == '\U{3000}'
  }

  function TrimLeft(s: string, drop: char -> bool): string {
    if s != [] && drop(s[0]) then TrimLeft(s[1..], drop) else s
  }

  function TrimRight(s: string, drop: char -> bool): string {
    if s != [] && drop(s[|s| - 1]) then TrimRight(s[..|s| - 1], drop) else s
  }

  function Trim(s: string, drop: char -> bool): string { TrimRight(TrimLeft(s, drop), drop) }

  function TrimSpace(s: string): string { Trim(s, IsSpace) }

  function TrimBrackets(s: string): string { Trim(s, c => c == '[' || c == ']') }

  function LowerChar(c: char): char { if 'A' <= c <= 'Z' then (c as int + 32) as char else c }

  /** The dotless i and the long s are the letters outside ASCII whose capital is inside. */
  function UpperChar(c: char): char {
    if 'a' <= c <= 'z' then (c as int - 32) as char
    else if c == '\U{131}' then 'I'
    else if c == '\U{17F}' then 'S'
    else c
  }

  /** Lower case, for ASCII letters. */
  function Lower(s: string): string { seq(|s|, i requires 0 <= i < |s| => LowerChar(s[i])) }

  /** Upper case, as far as ASCII capitals come out. */
  function Upper(s: string): string { seq(|s|, i requires 0 <= i < |s| => UpperChar(s[i])) }

  /** Trimming gives a stretch of the string, without the dropped characters at its ends and missing only such. */
  lemma TrimResult(s: string, drop: char -> bool) returns (lo: nat, hi: nat)
    ensures lo <= hi <= |s| && Trim(s, drop) == s[lo..hi]
    ensures forall i :: 0 <= i < lo || hi <= i < |s| ==> drop(s[i])
    ensures lo < hi ==> !drop(s[lo]) && !drop(s[hi - 1])
  {
    lo := TrimLeftResult(s, drop);
    var n := TrimRightResult(s[lo..], drop);
    hi := lo + n;
    forall i | hi <= i < |s| ensures drop(s[i]) { assert s[lo..][i - lo] == s[i]; }
  }

  /** And it is the only such stretch: whatever droppable surrounds it comes off. */
  lemma TrimOf(a: string, s: string, b: string, drop: char -> bool)
    requires s != "" && !drop(s[0]) && !drop(s[|s| - 1])
    requires (forall i :: 0 <= i < |a| ==> drop(a[i])) && (forall i :: 0 <= i < |b| ==> drop(b[i]))
    ensures Trim(a + s + b, drop) == s
  {
    TrimLeftOf(a, s + b, drop);
    assert a + s + b == a + (s + b);
    TrimRightOf(s, b, drop);
  }

  lemma {:induction false} TrimLeftOf(a: string, s: string, drop: char -> bool)
    requires s != "" && !drop(s[0]) && forall i :: 0 <= i < |a| ==> drop(a[i])
    ensures TrimLeft(a + s, drop) == s
  {
    if a == "" {
      assert a + s == s;
    } else {
      assert (a + s)[1..] == a[1..] + s;
      TrimLeftOf(a[1..], s, drop);
    }
  }

  lemma {:induction false} TrimRightOf(s: string, b: string, drop: char -> bool)
    requires s != "" && !drop(s[|s| - 1]) && forall i :: 0 <= i < |b| ==> drop(b[i])
    ensures TrimRight(s + b, drop) == s
  {
    if b == "" {
      assert s + b == s;
    } else {
      assert (s + b)[..|s + b| - 1] == s + b[..|b| - 1];
      TrimRightOf(s, b[..|b| - 1], drop);
    }
  }

  lemma {:induction false} TrimLeftResult(s: string, drop: char -> bool) returns (lo: nat)
    ensures lo <= |s| && TrimLeft(s, drop) == s[lo..]
    ensures forall i :: 0 <= i < lo ==> drop(s[i])
    ensures lo < |s| ==> !drop(s[lo])
  {
    lo := 0;
    if s != [] && drop(s[0]) {
      var n := TrimLeftResult(s[1..], drop);
      lo := n + 1;
      forall i | 0 <= i < lo ensures drop(s[i]) { if i > 0 { assert s[1..][i - 1] == s[i]; } }
    }
  }

  lemma {:induction false} TrimRightResult(s: string, drop: char -> bool) returns (hi: nat)
    ensures hi <= |s| && TrimRight(s, drop) == s[..hi]
    ensures forall i :: hi <= i < |s| ==> drop(s[i])
    ensures 0 < hi ==> !drop(s[hi - 1])
  {
    hi := |s|;
    if s != [] && drop(s[|s| - 1]) {
      hi := TrimRightResult(s[..|s| - 1], drop);
    }
  }
}
