/**
  Splitting a child process's output into lines, however the stream is cut into
  writes.
 */
module LineWriter {

  type Byte = b: int | 0 <= b < 256

  type Bytes = seq<Byte>

  const NL: Byte := 10
  const CR: Byte := 13

  const MAX_LINE_BYTES: nat := 64 * 1024

  // ------------------------------------------------------------------ the lines of a stream

  /** The pieces between newlines; the last one is what follows the last newline. */
  function Split(s: Bytes): (pieces: seq<Bytes>)
    ensures pieces != []
  {
    if s == [] then [[]]
    else
      var before, c := Split(s[..|s| - 1]), s[|s| - 1];
      if c == NL then before + [[]] else Init(before) + [Last(before) + [c]]
  }

  function Init<T>(xs: seq<T>): seq<T>
    requires xs != []
  {
    xs[..|xs| - 1]
  }

  function Last<T>(xs: seq<T>): T
    requires xs != []
  {
    xs[|xs| - 1]
  }

  function TrimCR(s: Bytes): (t: Bytes)
    ensures |t| <= |s|
  {
    if s != [] && s[|s| - 1] == CR then TrimCR(s[..|s| - 1]) else s
  }

  /** What emit passes on of one piece: nothing if it is empty once trimmed. */
  function Line(piece: Bytes): seq<Bytes> { if TrimCR(piece) == [] then [] else [TrimCR(piece)] }

  function Report(pieces: seq<Bytes>): seq<Bytes> {
    if pieces == [] then [] else Report(Init(pieces)) + Line(Last(pieces))
  }

  predicate AllCR(s: Bytes) { forall i :: 0 <= i < |s| ==> s[i] == CR }

  // ------------------------------------------------------------------ the writer on values

  datatype State = State(buf: Bytes, lines: seq<Bytes>)

  const FRESH := State([], [])

  function AfterWrite(st: State, p: Bytes): State {
    var pieces := Split(st.buf + p);
    var complete := st.lines + Report(Init(pieces));
    if |Last(pieces)| > MAX_LINE_BYTES then State([], complete + Line(Last(pieces))) else State(Last(pieces), complete)
  }

  function AfterFlush(st: State): State { State([], st.lines + Line(st.buf)) }

  function AfterWrites(chunks: seq<Bytes>): State {
    if chunks == [] then FRESH else AfterWrite(AfterWrites(Init(chunks)), Last(chunks))
  }

  function Output(chunks: seq<Bytes>): seq<Bytes> { AfterFlush(AfterWrites(chunks)).lines }

  function Concat(chunks: seq<Bytes>): Bytes { if chunks == [] then [] else Concat(Init(chunks)) + Last(chunks) }

  // ------------------------------------------------------------------ the class

  class Writer {
    var buf: Bytes
    var lines: seq<Bytes>          // what onLine has been given
    const listening: bool          // whether there is an onLine

    constructor (listening: bool)
      ensures buf == [] && lines == [] && this.listening == listening
    {
      buf, lines, this.listening := [], [], listening;
    }

    ghost predicate Valid()
      reads this
    {
      NL !in buf && |buf| <= MAX_LINE_BYTES
    }

    ghost function Value(): State
      reads this
    {
      State(buf, lines)
    }

    method Emit(b: Bytes)
      modifies this`lines
      ensures lines == if listening then old(lines) + Line(b) else old(lines)
    {
      if !listening { return; }
      var line := b;
      while line != [] && line[|line| - 1] == CR
        invariant TrimCR(line) == TrimCR(b)
        decreases |line|
      {
        line := line[..|line| - 1];
      }
      if line != [] { lines := lines + [line]; }
    }

    method Write(p: Bytes) returns (n: nat)
      requires Valid()
      modifies this
      ensures Valid() && n == |p|
      ensures buf == AfterWrite(old(Value()), p).buf
      ensures lines == if listening then AfterWrite(old(Value()), p).lines else old(lines)
    {
      buf := buf + p;
      ghost var all, pieces: seq<Bytes> := buf, [];
      while true
        invariant Split(all) == pieces + Split(buf)
        invariant lines == if listening then old(lines) + Report(pieces) else old(lines)
        decreases |buf|
      {
        var i := IndexOfNL(buf);
        if i == |buf| { break; }
        SplitAtNL(buf, i);
        Emit(buf[..i]);
        pieces := pieces + [buf[..i]];
        buf := buf[i + 1..];
      }
      SplitWithoutNL(buf);
      assert Init(Split(all)) == pieces;
      if |buf| > MAX_LINE_BYTES {
        Emit(buf);
        buf := [];
      }
      n := |p|;
    }

    method Flush()
      requires Valid()
      modifies this
      ensures Valid()
      ensures buf == AfterFlush(old(Value())).buf
      ensures lines == if listening then AfterFlush(old(Value())).lines else old(lines)
    {
      if |buf| > 0 {
        Emit(buf);
        buf := [];
      }
    }
  }

  /** The first newline, or the length if there is none. */
  method IndexOfNL(s: Bytes) returns (i: nat)
    ensures i <= |s| && NL !in s[..i]
    ensures i < |s| ==> s[i] == NL
  {
    i := 0;
    while i < |s| && s[i] != NL
      invariant i <= |s| && NL !in s[..i]
    {
      i := i + 1;
    }
  }

  // ------------------------------------------------------------------ splitting and joining

  lemma {:induction false} SplitWithoutNL(s: Bytes)
    requires NL !in s
    ensures Split(s) == [s]
  {
    if s != [] {
      SplitWithoutNL(s[..|s| - 1]);
      assert s == s[..|s| - 1] + [s[|s| - 1]];
    }
  }

  /** No piece holds a newline. */
  lemma {:induction false} PiecesHoldNoNL(s: Bytes)
    ensures forall k :: 0 <= k < |Split(s)| ==> NL !in Split(s)[k]
  {
    if s != [] { PiecesHoldNoNL(s[..|s| - 1]); }
  }

  /** The pieces with a newline, byte 10, between each two. */
  function Rejoin(pieces: seq<Bytes>): Bytes
    requires pieces != []
  {
    if |pieces| == 1 then pieces[0] else Rejoin(Init(pieces)) + [10] + Last(pieces)
  }

  /** Splitting loses nothing. */
  lemma {:induction false} RejoinSplit(s: Bytes)
    ensures Rejoin(Split(s)) == s
  {
    if s != [] {
      var init, c := s[..|s| - 1], s[|s| - 1];
      RejoinSplit(init);
      assert s == init + [c];
      var before := Split(init);
      if c == NL {
        assert Init(before + [[]]) == before;
      } else {
        RejoinReplaced(before, Last(before) + [c]);
        if |before| > 1 {
          assert Rejoin(Init(before)) + [10] + (Last(before) + [c]) == Rejoin(Init(before)) + [10] + Last(before) + [c];
        }
      }
    }
  }

  lemma RejoinReplaced(xs: seq<Bytes>, y: Bytes)
    requires xs != []
    ensures Rejoin(Init(xs) + [y]) == if |xs| == 1 then y else Rejoin(Init(xs)) + [10] + y
  {
    assert Init(Init(xs) + [y]) == Init(xs);
  }

  /** And it splits at every newline and nowhere else: pieces without newlines come back as they were. */
  lemma {:induction false} SplitRejoined(pieces: seq<Bytes>)
    requires pieces != [] && forall k :: 0 <= k < |pieces| ==> 10 !in pieces[k]
    ensures Split(Rejoin(pieces)) == pieces
  {
    if |pieces| == 1 {
      SplitWithoutNL(pieces[0]);
    } else {
      var a, last := Rejoin(Init(pieces)), Last(pieces);
      SplitRejoined(Init(pieces));
      SplitEndingInNL(a);
      SplitWithoutNL(last);
      SplitOfConcat(a + [10], last);
      assert [] + last == last;
      assert Init(Split(a) + [[]]) == Split(a);
      assert Joined(Split(a) + [[]], [last]) == Split(a) + [last];
    }
  }

  /** A line comes out without the carriage returns, byte 13, at its end, and not at all if there is nothing else. */
  lemma {:induction false} LineIs(body: Bytes, n: nat)
    requires body == [] || Last(body) != 13
    ensures Line(body + seq(n, _ => 13)) == if body == [] then [] else [body]
  {
    var crs: Bytes := seq(n, _ => 13);
    TrimOfAllCR(body, crs);
  }

  /** Splitting a stream cut in two: the pieces next to the cut join. */
  function Joined(a: seq<Bytes>, b: seq<Bytes>): (r: seq<Bytes>)
    requires a != [] && b != []
    ensures r != []
  {
    Init(a) + [Last(a) + b[0]] + b[1..]
  }

  lemma {:induction false} SplitOfConcat(a: Bytes, b: Bytes)
    ensures Split(a + b) == Joined(Split(a), Split(b))
  {
    if b == [] {
      assert a + b == a;
      assert Last(Split(a)) + [] == Last(Split(a));
    } else {
      var init, c := b[..|b| - 1], b[|b| - 1];
      assert (a + b)[..|a + b| - 1] == a + init;
      SplitOfConcat(a, init);
      if c != NL {
        JoinedExtends(Split(a), Split(init), c);
      }
    }
  }

  lemma JoinedExtends(a: seq<Bytes>, b: seq<Bytes>, c: Byte)
    requires a != [] && b != []
    ensures Init(Joined(a, b)) + [Last(Joined(a, b)) + [c]] == Joined(a, Init(b) + [Last(b) + [c]])
  {
    if |b| == 1 {
      assert Last(a) + (b[0] + [c]) == Last(a) + b[0] + [c];
    }
  }

  lemma SplitEndingInNL(s: Bytes)
    ensures Split(s + [NL]) == Split(s) + [[]]
  {
    assert (s + [NL])[..|s|] == s;
  }

  lemma EmptyFirst(a: seq<Bytes>, b: seq<Bytes>)
    requires b != []
    ensures Joined(a + [[]], b) == a + b
  {
    assert [] + b[0] == b[0];
    assert Init(a + [[]]) == a;
  }

  lemma SplitAtNL(s: Bytes, i: nat)
    requires i < |s| && s[i] == NL && NL !in s[..i]
    ensures Split(s) == [s[..i]] + Split(s[i + 1..])
  {
    hide Split;
    var rest := s[i + 1..];
    assert s == s[..i] + [NL] + rest;
    SplitWithoutNL(s[..i]);
    SplitEndingInNL(s[..i]);
    SplitOfConcat(s[..i] + [NL], rest);
    EmptyFirst([s[..i]], Split(rest));
  }

  lemma {:induction false} ReportOfConcat(a: seq<Bytes>, b: seq<Bytes>)
    ensures Report(a + b) == Report(a) + Report(b)
  {
    hide Line;
    if b == [] {
      assert a + b == a;
      assert Report(a) + [] == Report(a);
    } else {
      assert Init(a + b) == a + Init(b);
      ReportOfConcat(a, Init(b));
      assert Report(a) + (Report(Init(b)) + Line(Last(b))) == Report(a) + Report(Init(b)) + Line(Last(b));
    }
  }

  lemma ReportOfOne(piece: Bytes)
    ensures Report([piece]) == Line(piece)
  {
    assert Init([piece]) == [];
  }

  // ------------------------------------------------------------------ trimming

  lemma {:induction false} TrimOfAllCR(s: Bytes, t: Bytes)
    requires AllCR(t)
    ensures TrimCR(s + t) == TrimCR(s)
  {
    if t == [] {
      assert s + t == s;
    } else {
      assert (s + t)[..|s + t| - 1] == s + t[..|t| - 1];
      TrimOfAllCR(s, t[..|t| - 1]);
    }
  }

  /** Trimming keeps a prefix and everything after it is a carriage return. */
  lemma {:induction false} TrimKeepsPrefix(s: Bytes)
    ensures TrimCR(s) == s[..|TrimCR(s)|] && AllCR(s[|TrimCR(s)|..])
    ensures TrimCR(s) != [] ==> Last(TrimCR(s)) != CR
  {
    if s != [] && s[|s| - 1] == CR {
      TrimKeepsPrefix(s[..|s| - 1]);
      var n := |TrimCR(s)|;
      assert s[..n] == s[..|s| - 1][..n];
      assert s[n..] == s[..|s| - 1][n..] + [CR];
    }
  }

  lemma PastTrim(s: Bytes, m: nat, i: nat)
    requires m <= i < |s| && AllCR(s[m..])
    ensures s[i] == CR
  {
    assert s[m..][i - m] == s[i];
  }

  lemma NotCRIsBefore(s: Bytes, m: nat, i: nat)
    requires m <= |s| && i < |s| && AllCR(s[m..]) && s[i] != CR
    ensures i < m
  {
    hide AllCR;
    if m <= i { PastTrim(s, m, i); }
  }

  /** A prefix is not longer once both are trimmed. */
  lemma TrimOfPrefix(s: Bytes, t: Bytes)
    ensures |TrimCR(s)| <= |TrimCR(s + t)|
  {
    TrimKeepsPrefix(s);
    TrimKeepsPrefix(s + t);
    var n, m := |TrimCR(s)|, |TrimCR(s + t)|;
    if 0 < n {
      assert (s + t)[n - 1] != CR;
      NotCRIsBefore(s + t, m, n - 1);
    }
  }

  // ------------------------------------------------------------------ chunk independence

  /** No line is longer, once trimmed, than one byte over the limit. */
  ghost predicate Short(s: Bytes) {
    forall k :: 0 <= k < |Split(s)| ==> |TrimCR(Split(s)[k])| <= 65_537
  }

  lemma ShortPrefix(s: Bytes, t: Bytes)
    requires Short(s + t)
    ensures Short(s)
  {
    SplitOfConcat(s, t);
    var a, all := Split(s), Split(s + t);
    forall k | 0 <= k < |a| ensures |TrimCR(a[k])| <= MAX_LINE_BYTES + 1 {
      if k < |a| - 1 {
        assert all[k] == a[k];
      } else {
        assert all[k] == a[k] + Split(t)[0];
        TrimOfPrefix(a[k], Split(t)[0]);
      }
    }
  }

  /** d has been given out of the current line already: nothing, or all of it that matters. */
  ghost predicate Ahead(s: Bytes, st: State, d: Bytes) {
    && Last(Split(s)) == d + st.buf
    && if d == [] then st.lines == Report(Init(Split(s)))
       else |d| > MAX_LINE_BYTES && AllCR(st.buf) && st.lines == Report(Init(Split(s))) + Line(d)
  }

  /** What follows a long enough part of a short line is carriage returns. */
  lemma RestOfShortLine(d: Bytes, f: Bytes)
    requires |d| > MAX_LINE_BYTES && |TrimCR(d + f)| <= MAX_LINE_BYTES + 1
    ensures AllCR(f) && Line(f) == [] && Line(d + f) == Line(d)
  {
    TrimKeepsPrefix(d + f);
    var m := |TrimCR(d + f)|;
    forall i | 0 <= i < |f| ensures f[i] == CR {
      assert (d + f)[m..][|d| + i - m] == f[i];
    }
    CRsAreNoLine(d, f);
  }

  /** The line being read when p arrives ends with the first piece of the buffer and p. */
  lemma SplitAfterWrite(s: Bytes, d: Bytes, buf: Bytes, p: Bytes)
    requires Last(Split(s)) == d + buf && NL !in buf
    ensures Split(s + p) == Init(Split(s)) + [d + Split(buf + p)[0]] + Split(buf + p)[1..]
  {
    hide Split;
    SplitOfConcat(s, p);
    SplitOfConcat(buf, p);
    SplitWithoutNL(buf);
    assert d + buf + Split(p)[0] == d + (buf + Split(p)[0]);
  }

  lemma WriteKeepsAhead(s: Bytes, st: State, d: Bytes, p: Bytes) returns (d': Bytes)
    requires Ahead(s, st, d) && NL !in st.buf && Short(s + p)
    ensures Ahead(s + p, AfterWrite(st, p), d')
  {
    hide Split, Report, Line;
    SplitAfterWrite(s, d, st.buf, p);
    var ended, now := Init(Split(s)), Split(st.buf + p);
    if d == [] {
      assert d + now[0] == now[0];
      assert Split(s + p) == ended + now;
      d' := FreshLine(s, st, p);
    } else {
      assert Split(s + p)[|ended|] == d + now[0];
      RestOfShortLine(d, now[0]);
      if |now| == 1 {
        d' := SameLine(s, st, d, p);
      } else {
        d' := NextLine(s, st, d, p);
      }
    }
  }

  /** Nothing given out early so far: the writer is level with the stream, or just ahead. */
  lemma FreshLine(s: Bytes, st: State, p: Bytes) returns (d': Bytes)
    requires Ahead(s, st, []) && Split(s + p) == Init(Split(s)) + Split(st.buf + p)
    ensures Ahead(s + p, AfterWrite(st, p), d')
  {
    hide Split, Report, Line;
    var ended, now := Init(Split(s)), Split(st.buf + p);
    assert Init(Split(s + p)) == ended + Init(now);
    ReportOfConcat(ended, Init(now));
    d' := if |Last(now)| > MAX_LINE_BYTES then Last(now) else [];
    assert d' + AfterWrite(st, p).buf == Last(now);
  }

  /** No newline came: the line given out early goes on with carriage returns. */
  lemma SameLine(s: Bytes, st: State, d: Bytes, p: Bytes) returns (d': Bytes)
    requires Ahead(s, st, d) && d != []
    requires |Split(st.buf + p)| == 1
    requires var f := Split(st.buf + p)[0];
      Split(s + p) == Init(Split(s)) + [d + f] && AllCR(f) && Line(f) == [] && Line(d + f) == Line(d)
    ensures Ahead(s + p, AfterWrite(st, p), d')
  {
    hide Split, Line;
    var f := Split(st.buf + p)[0];
    assert Init(Split(s + p)) == Init(Split(s));
    assert Init(Split(st.buf + p)) == [];
    d' := if |f| > MAX_LINE_BYTES then d + f else d;
    assert d' + AfterWrite(st, p).buf == d + f;
  }

  /** The line given out early is over: the rest of it is not reported again. */
  lemma NextLine(s: Bytes, st: State, d: Bytes, p: Bytes) returns (d': Bytes)
    requires Ahead(s, st, d) && d != []
    requires |Split(st.buf + p)| > 1
    requires var now := Split(st.buf + p);
      Split(s + p) == Init(Split(s)) + [d + now[0]] + now[1..] && Line(now[0]) == [] && Line(d + now[0]) == Line(d)
    ensures Ahead(s + p, AfterWrite(st, p), d')
  {
    hide Split, Report, Line;
    var ended, now := Init(Split(s)), Split(st.buf + p);
    var f, r := now[0], Init(now)[1..];
    assert Init(now) == [f] + r;
    assert Init(Split(s + p)) == ended + [d + f] + r;
    ReportOfConcat([f], r);
    ReportOfConcat(ended + [d + f], r);
    ReportOfConcat(ended, [d + f]);
    ReportOfOne(f);
    ReportOfOne(d + f);
    assert [] + Report(r) == Report(r);
    d' := if |Last(now)| > MAX_LINE_BYTES then Last(now) else [];
    assert d' + AfterWrite(st, p).buf == Last(now);
  }

  lemma {:induction false} BufferHoldsNoNL(chunks: seq<Bytes>)
    ensures 10 !in AfterWrites(chunks).buf && |AfterWrites(chunks).buf| <= 65_536
  {
    if chunks != [] {
      PiecesHoldNoNL(AfterWrites(Init(chunks)).buf + Last(chunks));
    }
  }

  lemma {:induction false} WritesKeepAhead(chunks: seq<Bytes>) returns (d: Bytes)
    requires Short(Concat(chunks))
    ensures Ahead(Concat(chunks), AfterWrites(chunks), d)
    decreases |chunks|
  {
    if chunks == [] {
      d := [];
    } else {
      ShortPrefix(Concat(Init(chunks)), Last(chunks));
      var e := WritesKeepAhead(Init(chunks));
      BufferHoldsNoNL(Init(chunks));
      d := WriteKeepsAhead(Concat(Init(chunks)), AfterWrites(Init(chunks)), e, Last(chunks));
    }
  }

  lemma CRsAreNoLine(d: Bytes, t: Bytes)
    requires AllCR(t)
    ensures Line(t) == [] && Line(d + t) == Line(d)
  {
    TrimOfAllCR(d, t);
    TrimOfAllCR([], t);
    assert [] + t == t;
  }

  /** Short lines come out whole and in order, however the stream was cut. */
  lemma ShortLinesComeOutWhole(chunks: seq<Bytes>)
    requires Short(Concat(chunks))
    ensures Output(chunks) == Report(Split(Concat(chunks)))
  {
    var st, s := AfterWrites(chunks), Concat(chunks);
    var d := WritesKeepAhead(chunks);
    hide Split, Line;
    assert Report(Split(s)) == Report(Init(Split(s))) + Line(d + st.buf);
    if d == [] {
      assert d + st.buf == st.buf;
    } else {
      CRsAreNoLine(d, st.buf);
    }
  }

  /** A stream written at once comes out right whatever its lines. */
  lemma OneWriteIsExact(s: Bytes)
    ensures Output([s]) == Report(Split(s))
  {
    hide Split, Report, Line;
    AfterOne(s);
    assert [] + s == s;
    WriteThenFlush(FRESH, s);
    assert [] + Report(Split(s)) == Report(Split(s));
  }

  lemma AfterOne(s: Bytes)
    ensures AfterWrites([s]) == AfterWrite(FRESH, s)
  {
    assert Init([s]) == [];
  }

  lemma WriteThenFlush(st: State, p: Bytes)
    ensures AfterFlush(AfterWrite(st, p)).lines == st.lines + Report(Split(st.buf + p))
  {
    hide Split, Line;
    var pieces := Split(st.buf + p);
    assert st.lines + Report(Init(pieces)) + Line(Last(pieces)) ==
      st.lines + (Report(Init(pieces)) + Line(Last(pieces)));
    NothingLeft(st.lines + Report(Init(pieces)) + Line(Last(pieces)));
  }

  lemma NothingLeft(lines: seq<Bytes>)
    ensures AfterFlush(State([], lines)).lines == lines
  {
  }

  /** Every way of cutting the stream gives the stream's lines. */
  ghost predicate ChunkIndependent(s: Bytes) {
    forall chunks: seq<Bytes> :: Concat(chunks) == s ==> Output(chunks) == Report(Split(s))
  }

  /** Where a piece lies in its stream. */
  ghost predicate LiesBetween(s: Bytes, k: nat, a: Bytes, b: Bytes) {
    && k < |Split(s)|
    && s == a + Split(s)[k] + b
    && Split(a) == Split(s)[..k] + [[]]
    && Split(b) == [[]] + Split(s)[k + 1..]
  }

  lemma {:induction false} LocatePiece(s: Bytes, k: nat) returns (a: Bytes, b: Bytes)
    requires k < |Split(s)|
    ensures LiesBetween(s, k, a, b)
  {
    if s == [] {
      a, b := [], [];
    } else {
      var init, c := s[..|s| - 1], s[|s| - 1];
      assert s == init + [c];
      SplitSnoc(init, c);
      if c == NL && k == |Split(init)| {
        a, b := s, [];
        LastPieceIsEmpty(init);
      } else {
        var b';
        a, b' := LocatePiece(init, k);
        if c != NL && k == |Split(init)| - 1 {
          b := [];
          OnePieceIsAll(b');
          LastPieceGrows(init, a, c);
        } else {
          b := b' + [c];
          PieceStays(init, k, a, b', c);
        }
      }
    }
  }

  lemma SplitSnoc(init: Bytes, c: Byte)
    ensures Split(init + [c]) == if c == NL then Split(init) + [[]] else Init(Split(init)) + [Last(Split(init)) + [c]]
  {
    assert (init + [c])[..|init|] == init;
  }

  lemma LastPieceIsEmpty(init: Bytes)
    ensures LiesBetween(init + [NL], |Split(init)|, init + [NL], [])
  {
    SplitSnoc(init, NL);
    hide Split;
    assert Split([]) == [[]] by { SplitWithoutNL([]); }
    assert init + [NL] + [] + [] == init + [NL];
    assert (Split(init) + [[]])[..|Split(init)|] == Split(init);
  }

  lemma OnePieceIsAll(b: Bytes)
    requires Split(b) == [[]]
    ensures b == []
  {
  }

  lemma LastPieceGrows(init: Bytes, a: Bytes, c: Byte)
    requires LiesBetween(init, |Split(init)| - 1, a, []) && c != NL
    ensures LiesBetween(init + [c], |Split(init)| - 1, a, [])
  {
    SplitSnoc(init, c);
    hide Split;
    var k := |Split(init)| - 1;
    assert Split(init + [c])[k] == Split(init)[k] + [c];
    assert init + [c] == a + (Split(init)[k] + [c]) + [];
    assert Split(init + [c])[..k] == Split(init)[..k];
  }

  lemma PieceStays(init: Bytes, k: nat, a: Bytes, b: Bytes, c: Byte)
    requires LiesBetween(init, k, a, b) && (c == NL || k < |Split(init)| - 1)
    ensures LiesBetween(init + [c], k, a, b + [c])
  {
    hide Split;
    SplitSnoc(init, c);
    SplitSnoc(b, c);
    EndsTogether(init, k, a, Split(init)[k], b, c);
    if c == NL {
      TailOfSnoc(Split(init), k, []);
    } else {
      TailOfReplaced(Split(init), k, Last(Split(init)) + [c]);
    }
  }

  lemma EndsTogether(init: Bytes, k: nat, a: Bytes, piece: Bytes, b: Bytes, c: Byte)
    requires init == a + piece + b
    ensures init + [c] == a + piece + (b + [c])
  {
  }

  lemma TailOfSnoc<T>(xs: seq<T>, k: nat, y: T)
    requires k < |xs|
    ensures (xs + [y])[k] == xs[k] && (xs + [y])[..k] == xs[..k] && (xs + [y])[k + 1..] == xs[k + 1..] + [y]
  {
  }

  lemma TailOfReplaced<T>(xs: seq<T>, k: nat, y: T)
    requires k + 1 < |xs|
    ensures (Init(xs) + [y])[k] == xs[k] && (Init(xs) + [y])[..k] == xs[..k]
    ensures (Init(xs) + [y])[k + 1..] == Init(xs[k + 1..]) + [y]
  {
  }

  /** The part of a line past a cut, when the line goes on past it. */
  lemma TrimPastCut(piece: Bytes, j: nat)
    requires j < |TrimCR(piece)|
    ensures 0 < |TrimCR(piece[j..])| <= |TrimCR(piece)| - j
  {
    var m, n := |TrimCR(piece)|, |TrimCR(piece[j..])|;
    TrimKeepsPrefix(piece);
    TrimKeepsPrefix(piece[j..]);
    assert piece[j..][m - 1 - j] == piece[m - 1] != CR;
    NotCRIsBefore(piece[j..], n, m - 1 - j);
    assert piece[j..][n - 1] == piece[j + n - 1] != CR;
    NotCRIsBefore(piece, m, j + n - 1);
  }

  /** A line cut in two is not reported as it was. */
  lemma CutLineDiffers(before: seq<Bytes>, piece: Bytes, after: seq<Bytes>, j: nat)
    requires 0 < j < |TrimCR(piece)|
    ensures forall rest :: before + Line(piece[..j]) + (Line(piece[j..]) + after) != before + (Line(piece) + rest)
  {
    TrimPastCut(piece, j);
    var cut := before + Line(piece[..j]) + (Line(piece[j..]) + after);
    assert |cut[|before|]| < |TrimCR(piece)|;
    forall rest ensures cut != before + (Line(piece) + rest) {
      assert (before + (Line(piece) + rest))[|before|] == TrimCR(piece);
    }
  }

  /** A cut just past the limit breaks a line that goes on. */
  lemma LongLineCanBreak(s: Bytes, k: nat) returns (chunks: seq<Bytes>)
    requires k < |Split(s)| && |TrimCR(Split(s)[k])| > MAX_LINE_BYTES + 1
    ensures Concat(chunks) == s && Output(chunks) != Report(Split(s))
  {
    hide Split, Report, Line;
    var a, b := LocatePiece(s, k);
    var all, piece, j := Split(s), Split(s)[k], MAX_LINE_BYTES + 1;
    PiecesHoldNoNL(s);
    var p, q := a + piece[..j], piece[j..] + b;
    chunks := [p, q];
    ConcatOfTwo(p, q);
    assert s == p + q;
    JoinLeft(a, piece[..j], all[..k]);
    JoinRight(piece[j..], b, all[k + 1..]);
    OutputOfTwo(p, q);
    assert Init(Split(p)) == all[..k];
    ReportOfConcat([piece[j..]], all[k + 1..]);
    ReportOfOne(piece[j..]);
    ReportAround(all, k);
    CutLineDiffers(Report(all[..k]), piece, Report(all[k + 1..]), j);
  }

  lemma JoinLeft(a: Bytes, f: Bytes, before: seq<Bytes>)
    requires Split(a) == before + [[]] && NL !in f
    ensures Split(a + f) == before + [f]
  {
    hide Split;
    SplitWithoutNL(f);
    SplitOfConcat(a, f);
    assert [] + f == f;
    assert Init(before + [[]]) == before;
  }

  lemma JoinRight(f: Bytes, b: Bytes, after: seq<Bytes>)
    requires Split(b) == [[]] + after && NL !in f
    ensures Split(f + b) == [f] + after
  {
    hide Split;
    SplitWithoutNL(f);
    SplitOfConcat(f, b);
    assert f + [] == f;
  }

  lemma Around<T>(xs: seq<T>, k: nat)
    requires k < |xs|
    ensures xs[..k] + ([xs[k]] + xs[k + 1..]) == xs
  {
  }

  lemma ReportAround(all: seq<Bytes>, k: nat)
    requires k < |all|
    ensures Report(all) == Report(all[..k]) + (Line(all[k]) + Report(all[k + 1..]))
  {
    hide Report, Line;
    var after := all[k + 1..];
    ReportOfConcat(all[..k], [all[k]] + after);
    ReportOfConcat([all[k]], after);
    ReportOfOne(all[k]);
    Around(all, k);
  }

  lemma ConcatOfTwo(p: Bytes, q: Bytes)
    ensures Concat([p, q]) == p + q
  {
    assert Init([p, q]) == [p] && Init([p]) == [];
    assert Concat([p]) == [] + p == p;
  }

  /** Two writes, the first ending in a fragment over the limit. */
  lemma OutputOfTwo(p: Bytes, q: Bytes)
    requires |Last(Split(p))| > MAX_LINE_BYTES
    ensures Output([p, q]) == Report(Init(Split(p))) + Line(Last(Split(p))) + Report(Split(q))
  {
    hide Split, Report, Line;
    assert Init([p, q]) == [p];
    AfterOne(p);
    assert [] + p == p && [] + q == q;
    WriteThenFlush(AfterWrites([p]), q);
    assert [] + Report(Init(Split(p))) == Report(Init(Split(p)));
  }

  /** Cutting does not matter exactly for the streams with no line more than one byte over the limit. */
  lemma CutsDoNotMatterIffShort(s: Bytes)
    ensures ChunkIndependent(s) <==> Short(s)
  {
    if Short(s) {
      forall chunks: seq<Bytes> | Concat(chunks) == s ensures Output(chunks) == Report(Split(s)) {
        ShortLinesComeOutWhole(chunks);
      }
    } else {
      var k :| 0 <= k < |Split(s)| && |TrimCR(Split(s)[k])| > MAX_LINE_BYTES + 1;
      var chunks := LongLineCanBreak(s, k);
    }
  }
}
