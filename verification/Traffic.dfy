/**
  Traffic accounting: the direct/proxy split derived from polls of per-connection
  counters, and what it conserves.
 */
module Traffic {
  import opened Strings

  datatype Conn = Conn(id: string, up: nat, down: nat, chains: seq<string>)

  datatype Counter = Up | Down

  datatype Side = Direct | Proxied

  function Count(c: Conn, w: Counter): nat { if w == Up then c.up else c.down }

  datatype Direction = IsDirect | IsReject | IsProxy

  /** connDirection: the first DIRECT or REJECT in the chain decides. */
  function ConnDirection(chains: seq<string>): Direction {
    if chains == [] then IsDirect
    else FirstKeyword(chains)
  }

  function FirstKeyword(chains: seq<string>): Direction {
    if chains == [] then IsProxy
    else if Upper(chains[0]) == "DIRECT" then IsDirect
    else if Upper(chains[0]) == "REJECT" then IsReject
    else FirstKeyword(chains[1..])
  }

  /** A hop says a keyword, given in capitals, in any mix of small and capital letters. */
  predicate Says(hop: string, keyword: string) {
    && |hop| == |keyword|
    && forall i :: 0 <= i < |hop| ==> Spells(hop[i], keyword[i])
  }

  /** A capital letter, or a small one of it: the I also has a dotless one, the S a long one. */
  predicate Spells(c: char, letter: char) {
    || c == letter || c as int == letter as int + 32
    || (letter == 'I' && c == '\U{131}') || (letter == 'S' && c == '\U{17F}')
  }

  lemma UpperSays(hop: string, keyword: string)
    requires forall i :: 0 <= i < |keyword| ==> 'A' <= keyword[i] <= 'Z'
    ensures Upper(hop) == keyword <==> Says(hop, keyword)
  {
    if |hop| == |keyword| {
      forall i | 0 <= i < |hop|
        ensures Upper(hop)[i] == keyword[i] <==> Spells(hop[i], keyword[i])
      {
        assert Upper(hop)[i] == UpperChar(hop[i]);
      }
    } else {
      assert |Upper(hop)| == |hop|;
    }
  }

  /** Hop i is the first that says either keyword. */
  predicate FirstToSay(chains: seq<string>, i: nat) {
    && i < |chains| && (Says(chains[i], "DIRECT") || Says(chains[i], "REJECT"))
    && forall j :: 0 <= j < i ==> !Says(chains[j], "DIRECT") && !Says(chains[j], "REJECT")
  }

  /** The first hop that says either keyword says this one. */
  ghost predicate FirstSays(chains: seq<string>, keyword: string) {
    exists i: nat :: FirstToSay(chains, i) && Says(chains[i], keyword)
  }

  predicate SaysNeither(chains: seq<string>) {
    forall i :: 0 <= i < |chains| ==> !Says(chains[i], "DIRECT") && !Says(chains[i], "REJECT")
  }

  lemma {:induction false} FirstKeywordIs(chains: seq<string>)
    ensures FirstKeyword(chains) == IsDirect <==> FirstSays(chains, "DIRECT")
    ensures FirstKeyword(chains) == IsReject <==> FirstSays(chains, "REJECT")
    ensures FirstKeyword(chains) == IsProxy <==> SaysNeither(chains)
  {
    hide Upper, Says;
    if chains != [] {
      FirstKeywordIs(chains[1..]);
      UpperSays(chains[0], "DIRECT");
      UpperSays(chains[0], "REJECT");
      assert "DIRECT"[0] != "REJECT"[0];
      if Says(chains[0], "DIRECT") || Says(chains[0], "REJECT") {
        FirstHopSays(chains);
      } else {
        LaterHopSays(chains, "DIRECT");
        LaterHopSays(chains, "REJECT");
        assert SaysNeither(chains) <==> SaysNeither(chains[1..]) by {
          assert forall i :: 0 <= i < |chains| - 1 ==> chains[1..][i] == chains[i + 1];
          assert forall i :: 0 < i < |chains| ==> chains[i] == chains[1..][i - 1];
        }
      }
    }
  }

  lemma FirstHopSays(chains: seq<string>)
    requires chains != [] && (Says(chains[0], "DIRECT") || Says(chains[0], "REJECT"))
    ensures FirstSays(chains, "DIRECT") <==> Says(chains[0], "DIRECT")
    ensures FirstSays(chains, "REJECT") <==> Says(chains[0], "REJECT")
    ensures !SaysNeither(chains)
  {
    hide Upper, Says;
    assert FirstToSay(chains, 0);
    forall i: nat | FirstToSay(chains, i) ensures i == 0 { }
  }

  lemma LaterHopSays(chains: seq<string>, keyword: string)
    requires chains != [] && !Says(chains[0], "DIRECT") && !Says(chains[0], "REJECT")
    ensures FirstSays(chains, keyword) <==> FirstSays(chains[1..], keyword)
  {
    hide Upper, Says;
    var rest := chains[1..];
    assert forall i :: 0 <= i < |rest| ==> rest[i] == chains[i + 1];
    if FirstSays(rest, keyword) {
      var i: nat :| FirstToSay(rest, i) && Says(rest[i], keyword);
      forall j | 0 <= j < i + 1 ensures !Says(chains[j], "DIRECT") && !Says(chains[j], "REJECT") {
        if j > 0 { assert rest[j - 1] == chains[j]; }
      }
      assert FirstToSay(chains, i + 1);
    }
    if FirstSays(chains, keyword) {
      var i: nat :| FirstToSay(chains, i) && Says(chains[i], keyword);
      assert i > 0;
      assert FirstToSay(rest, i - 1);
    }
  }

  /**
    A connection is direct without hops or if DIRECT is the first keyword, rejected
    if REJECT is, proxied without either.
   */
  lemma DirectionIs(chains: seq<string>)
    ensures ConnDirection(chains) == IsDirect <==> chains == [] || FirstSays(chains, "DIRECT")
    ensures ConnDirection(chains) == IsReject <==> FirstSays(chains, "REJECT")
    ensures ConnDirection(chains) == IsProxy <==> chains != [] && SaysNeither(chains)
  {
    hide FirstSays, SaysNeither;
    FirstKeywordIs(chains);
    assert chains == [] ==> !FirstSays(chains, "REJECT") by { NoHopsSayNothing(); }
  }

  lemma NoHopsSayNothing()
    ensures !FirstSays([], "REJECT") && !FirstSays([], "DIRECT")
  {
  }

  /** A connection is booked as direct exactly if it goes out directly, everything else as proxied. */
  ghost predicate GoesDirect(c: Conn) { c.chains == [] || FirstSays(c.chains, "DIRECT") }

  lemma SideIs(c: Conn)
    ensures SideOf(c) == Direct <==> GoesDirect(c)
  {
    hide FirstSays, SaysNeither, ConnDirection;
    DirectionIs(c.chains);
  }

  /** The direct connections of a poll. */
  ghost function DirectIn(poll: Poll): set<nat> { set i: nat | i < |poll| && GoesDirect(poll[i]) }

  lemma {:induction false} DirectConnsAre(poll: Poll)
    ensures DirectConns(poll) == |DirectIn(poll)|
  {
    hide GoesDirect, SideOf;
    if poll == [] {
      assert DirectIn(poll) == {};
    } else {
      var n: nat := |poll| - 1;
      var init := poll[..n];
      DirectConnsAre(init);
      SideIs(poll[n]);
      assert DirectIn(poll) == if GoesDirect(poll[n]) then DirectIn(init) + {n} else DirectIn(init);
    }
  }

  function SideOf(c: Conn): Side { if ConnDirection(c.chains) == IsDirect then Direct else Proxied }

  /** What a counter grew by; a smaller value means it restarted. */
  function CounterDelta(cur: nat, last: nat): nat { if cur >= last then cur - last else cur }

  // ------------------------------------------------------------------ sums

  function SumBy<T>(xs: seq<T>, f: T -> nat): nat
  {
    if xs == [] then 0 else SumBy(xs[..|xs| - 1], f) + f(xs[|xs| - 1])
  }

  lemma SumBySnoc<T>(xs: seq<T>, x: T, f: T -> nat)
    ensures SumBy(xs + [x], f) == SumBy(xs, f) + f(x)
  {
    assert (xs + [x])[..|xs|] == xs;
  }

  lemma {:induction false} SumByAdd<T>(xs: seq<T>, f: T -> nat, g: T -> nat, h: T -> nat)
    requires forall x :: x in xs ==> f(x) + g(x) == h(x)
    ensures SumBy(xs, f) + SumBy(xs, g) == SumBy(xs, h)
  {
    if xs != [] { SumByAdd(xs[..|xs| - 1], f, g, h); }
  }

  lemma {:induction false} SumByEqual<T>(xs: seq<T>, f: T -> nat, g: T -> nat)
    requires forall x :: x in xs ==> f(x) == g(x)
    ensures SumBy(xs, f) == SumBy(xs, g)
  {
    if xs != [] { SumByEqual(xs[..|xs| - 1], f, g); }
  }

  lemma {:induction false} SumByZero<T>(xs: seq<T>, f: T -> nat)
    requires forall x :: x in xs ==> f(x) == 0
    ensures SumBy(xs, f) == 0
  {
    if xs != [] { SumByZero(xs[..|xs| - 1], f); }
  }

  /** A sum with at most one nonzero term is that term. */
  lemma {:induction false} SumBySingle<T>(xs: seq<T>, k: nat, f: T -> nat)
    requires k < |xs|
    requires forall i :: 0 <= i < |xs| && i != k ==> f(xs[i]) == 0
    ensures SumBy(xs, f) == f(xs[k])
  {
    var n := |xs| - 1;
    if k == n {
      forall x | x in xs[..n] ensures f(x) == 0 { }
      SumByZero(xs[..n], f);
    } else {
      SumBySingle(xs[..n], k, f);
    }
  }

  // ------------------------------------------------------------------ what a history of polls amounts to

  type Poll = seq<Conn>

  /** Which connections a total is about. */
  datatype Scope = All | Only(side: Side)

  predicate InScope(c: Conn, sc: Scope) { sc == All || SideOf(c) == sc.side }

  function Share(c: Conn, sc: Scope, w: Counter): nat { if InScope(c, sc) then Count(c, w) else 0 }

  predicate UniqueIds(poll: Poll) { forall i, j :: 0 <= i < j < |poll| ==> poll[i].id != poll[j].id }

  /** The same connection is still listed and its counter has not fallen. */
  predicate Continues(p: Conn, next: Poll, w: Counter) {
    exists c :: c in next && c.id == p.id && Count(c, w) >= Count(p, w)
  }

  /** The last value of a counter before its connection disappears or its counter restarts. */
  function FinalShare(p: Conn, next: Poll, sc: Scope, w: Counter): nat {
    if Continues(p, next, w) then 0 else Share(p, sc, w)
  }

  ghost function Listed(poll: Poll, sc: Scope, w: Counter): nat { SumBy(poll, c => Share(c, sc, w)) }

  ghost function Ended(before: Poll, next: Poll, sc: Scope, w: Counter): nat
  {
    SumBy(before, p => FinalShare(p, next, sc, w))
  }

  /** The sum, over every connection's listing intervals, of its counter's last value in the interval. */
  ghost function IntervalTotal(polls: seq<Poll>, sc: Scope, w: Counter): nat {
    if polls == [] then 0 else EndedTotal(polls, sc, w) + Listed(polls[|polls| - 1], sc, w)
  }

  /** The part of the intervals that are over. */
  ghost function EndedTotal(polls: seq<Poll>, sc: Scope, w: Counter): nat {
    if |polls| < 2 then 0
    else EndedTotal(polls[..|polls| - 1], sc, w) + Ended(polls[|polls| - 2], polls[|polls| - 1], sc, w)
  }

  // ------------------------------------------------------------------ one poll

  datatype Seen = Seen(up: nat, down: nat)

  function SeenCount(s: Seen, w: Counter): nat { if w == Up then s.up else s.down }

  /** prev holds exactly the counters of the previous poll. */
  ghost predicate Remembers(prev: map<string, Seen>, poll: Poll) {
    && (forall c :: c in poll ==> c.id in prev && prev[c.id] == Seen(c.up, c.down))
    && (forall id :: id in prev ==> exists c :: c in poll && c.id == id)
  }

  function Delta(c: Conn, prev: map<string, Seen>, w: Counter): nat {
    if c.id in prev then CounterDelta(Count(c, w), SeenCount(prev[c.id], w)) else Count(c, w)
  }

  function ScopedDelta(c: Conn, prev: map<string, Seen>, sc: Scope, w: Counter): nat {
    if InScope(c, sc) then Delta(c, prev, w) else 0
  }

  /** A connection listed twice in a row stays on its side. */
  ghost predicate SidesFixed(before: Poll, next: Poll) {
    forall p, c :: p in before && c in next && p.id == c.id ==> SideOf(p) == SideOf(c)
  }

  /** What the new value of c still contains of the old value of p. */
  function Overlap(c: Conn, p: Conn, sc: Scope, w: Counter): nat {
    if c.id == p.id && Count(c, w) >= Count(p, w) then Share(p, sc, w) else 0
  }

  /** All that the new value of c contains of old values. */
  ghost function OverlapOfNew(c: Conn, before: Poll, sc: Scope, w: Counter): nat
  {
    SumBy(before, p => Overlap(c, p, sc, w))
  }

  /** All that new values contain of the old value of p. */
  ghost function OverlapOfOld(p: Conn, next: Poll, sc: Scope, w: Counter): nat
  {
    SumBy(next, c => Overlap(c, p, sc, w))
  }

  /** Summing row by row or column by column is the same. */
  lemma {:induction false} OverlapBothWays(before: Poll, next: Poll, sc: Scope, w: Counter)
    ensures SumBy(next, c => OverlapOfNew(c, before, sc, w)) == SumBy(before, p => OverlapOfOld(p, next, sc, w))
    decreases |next|
  {
    if next == [] {
      SumByZero(before, p => OverlapOfOld(p, next, sc, w));
    } else {
      var init, last := next[..|next| - 1], next[|next| - 1];
      OverlapBothWays(before, init, sc, w);
      forall p | p in before
        ensures OverlapOfOld(p, init, sc, w) + Overlap(last, p, sc, w) == OverlapOfOld(p, next, sc, w)
      {
      }
      SumByAdd(before, p => OverlapOfOld(p, init, sc, w), p => Overlap(last, p, sc, w),
        p => OverlapOfOld(p, next, sc, w));
    }
  }

  lemma DeltaAndOverlap(c: Conn, before: Poll, prev: map<string, Seen>, sc: Scope, w: Counter)
    requires UniqueIds(before) && Remembers(prev, before)
    requires forall p :: p in before && p.id == c.id ==> InScope(p, sc) == InScope(c, sc)
    ensures ScopedDelta(c, prev, sc, w) + OverlapOfNew(c, before, sc, w) == Share(c, sc, w)
  {
    if c.id in prev {
      var p :| p in before && p.id == c.id;
      var k :| 0 <= k < |before| && before[k] == p;
      forall i | 0 <= i < |before| && i != k ensures Overlap(c, before[i], sc, w) == 0 { }
      SumBySingle(before, k, p => Overlap(c, p, sc, w));
    } else {
      forall p | p in before ensures Overlap(c, p, sc, w) == 0 { }
      SumByZero(before, p => Overlap(c, p, sc, w));
    }
  }

  lemma FinalAndOverlap(p: Conn, next: Poll, sc: Scope, w: Counter)
    requires UniqueIds(next)
    ensures FinalShare(p, next, sc, w) + OverlapOfOld(p, next, sc, w) == Share(p, sc, w)
  {
    if Continues(p, next, w) {
      var c :| c in next && c.id == p.id && Count(c, w) >= Count(p, w);
      var k :| 0 <= k < |next| && next[k] == c;
      forall i | 0 <= i < |next| && i != k ensures Overlap(next[i], p, sc, w) == 0 { }
      SumBySingle(next, k, c => Overlap(c, p, sc, w));
    } else {
      forall c | c in next ensures Overlap(c, p, sc, w) == 0 { }
      SumByZero(next, c => Overlap(c, p, sc, w));
    }
  }

  ghost function Gained(next: Poll, prev: map<string, Seen>, sc: Scope, w: Counter): nat {
    SumBy(next, c => ScopedDelta(c, prev, sc, w))
  }

  /** One poll: what it adds, and what was listed before, are what is listed now and what has ended. */
  lemma OnePollBalances(before: Poll, next: Poll, prev: map<string, Seen>, sc: Scope, w: Counter)
    requires UniqueIds(before) && UniqueIds(next) && Remembers(prev, before)
    requires sc == All || SidesFixed(before, next)
    ensures Gained(next, prev, sc, w) + Listed(before, sc, w) == Listed(next, sc, w) + Ended(before, next, sc, w)
  {
    forall c | c in next ensures ScopedDelta(c, prev, sc, w) + OverlapOfNew(c, before, sc, w) == Share(c, sc, w) {
      DeltaAndOverlap(c, before, prev, sc, w);
    }
    SumByAdd(next, c => ScopedDelta(c, prev, sc, w), c => OverlapOfNew(c, before, sc, w), c => Share(c, sc, w));
    forall p | p in before ensures FinalShare(p, next, sc, w) + OverlapOfOld(p, next, sc, w) == Share(p, sc, w) {
      FinalAndOverlap(p, next, sc, w);
    }
    SumByAdd(before, p => FinalShare(p, next, sc, w), p => OverlapOfOld(p, next, sc, w), p => Share(p, sc, w));
    OverlapBothWays(before, next, sc, w);
  }

  // ------------------------------------------------------------------ the accumulator

  ghost predicate PollsFit(polls: seq<Poll>) {
    && (forall t :: 0 <= t < |polls| ==> UniqueIds(polls[t]))
  }

  ghost predicate SidesFixedThroughout(polls: seq<Poll>) {
    forall t :: 0 < t < |polls| ==> SidesFixed(polls[t - 1], polls[t])
  }

  class TrafficAcc {
    var dirTx: nat
    var dirRx: nat
    var prxTx: nat
    var prxRx: nat
    var dirConns: nat
    var prxConns: nat
    var conns: nat
    var prev: map<string, Seen>
    ghost var polls: seq<Poll>     // since the last reset

    /** The totals are the interval totals: of both sides together always, and of each side while sides stay fixed. */
    ghost predicate Valid()
      reads this
    {
      && PollsFit(polls)
      && (polls == [] ==> prev == map[])
      && (polls != [] ==> Remembers(prev, polls[|polls| - 1]))
      && dirTx + prxTx == IntervalTotal(polls, All, Up)
      && dirRx + prxRx == IntervalTotal(polls, All, Down)
      && (SidesFixedThroughout(polls) ==>
            && dirTx == IntervalTotal(polls, Only(Direct), Up) && dirRx == IntervalTotal(polls, Only(Direct), Down)
            && prxTx == IntervalTotal(polls, Only(Proxied), Up) && prxRx == IntervalTotal(polls, Only(Proxied), Down))
    }

    constructor ()
      ensures Valid() && polls == []
    {
      dirTx, dirRx, prxTx, prxRx := 0, 0, 0, 0;
      dirConns, prxConns, conns := 0, 0, 0;
      prev, polls := map[], [];
    }

    method Reset()
      modifies this
      ensures Valid() && polls == []
    {
      dirTx, dirRx, prxTx, prxRx := 0, 0, 0, 0;
      dirConns, prxConns, conns := 0, 0, 0;
      prev, polls := map[], [];
    }

    method AccumulateConnections(snap: Poll)
      requires Valid() && UniqueIds(snap)
      modifies this
      ensures Valid() && polls == old(polls) + [snap]
      ensures conns == |snap| && dirConns == DirectConns(snap) && dirConns + prxConns == conns
      ensures dirConns == |DirectIn(snap)|
    {
      hide Gained, IntervalTotal, DirectConns, DirectIn;
      var cur, dTx, dRx, pTx, pRx, nDir := SplitPoll(snap, prev);
      NewPollBalances(polls, snap, prev);
      dirTx, dirRx, prxTx, prxRx := dirTx + dTx, dirRx + dRx, prxTx + pTx, prxRx + pRx;
      prev := cur;
      DirectAtMostAll(snap);
      DirectConnsAre(snap);
      dirConns, prxConns, conns := nDir, |snap| - nDir, |snap|;
      polls := polls + [snap];
    }
  }

  ghost function DirectConns(poll: Poll): nat { SumBy(poll, c => if SideOf(c) == Direct then 1 else 0) }

  lemma {:induction false} DirectAtMostAll(poll: Poll)
    ensures DirectConns(poll) <= |poll|
  {
    if poll != [] { DirectAtMostAll(poll[..|poll| - 1]); }
  }

  /** The loop over one poll: what each side gained, and the counters to remember. */
  method SplitPoll(snap: Poll, prev: map<string, Seen>)
    returns (cur: map<string, Seen>, dTx: nat, dRx: nat, pTx: nat, pRx: nat, nDir: nat)
    requires UniqueIds(snap)
    ensures Remembers(cur, snap)
    ensures dTx == Gained(snap, prev, Only(Direct), Up) && dRx == Gained(snap, prev, Only(Direct), Down)
    ensures pTx == Gained(snap, prev, Only(Proxied), Up) && pRx == Gained(snap, prev, Only(Proxied), Down)
    ensures nDir == DirectConns(snap)
  {
    hide Gained, DirectConns;
    cur := map[];
    dTx, dRx, pTx, pRx, nDir := 0, 0, 0, 0, 0;
    assert snap[..0] == [];
    NothingGained(prev);
    for i := 0 to |snap|
      invariant Remembers(cur, snap[..i])
      invariant dTx == Gained(snap[..i], prev, Only(Direct), Up) && dRx == Gained(snap[..i], prev, Only(Direct), Down)
      invariant pTx == Gained(snap[..i], prev, Only(Proxied), Up) && pRx == Gained(snap[..i], prev, Only(Proxied), Down)
      invariant nDir == DirectConns(snap[..i])
    {
      var c := snap[i];
      assert snap[..i + 1] == snap[..i] + [c];
      SideGains(snap[..i], c, prev);
      RemembersSnoc(cur, snap[..i], c);
      var dUp, dDown := c.up, c.down;
      if c.id in prev {
        dUp, dDown := CounterDelta(c.up, prev[c.id].up), CounterDelta(c.down, prev[c.id].down);
      }
      cur := cur[c.id := Seen(c.up, c.down)];
      if ConnDirection(c.chains) == IsDirect {
        dTx, dRx, nDir := dTx + dUp, dRx + dDown, nDir + 1;
      } else {
        pTx, pRx := pTx + dUp, pRx + dDown;
      }
    }
    assert snap[..|snap|] == snap;
  }

  lemma NothingGained(prev: map<string, Seen>)
    ensures forall sc, w :: Gained([], prev, sc, w) == 0
    ensures DirectConns([]) == 0
  {
  }

  /** One more connection adds its deltas to its own side and nothing to the other. */
  lemma SideGains(done: Poll, c: Conn, prev: map<string, Seen>)
    ensures forall w ::
      Gained(done + [c], prev, Only(SideOf(c)), w) == Gained(done, prev, Only(SideOf(c)), w) + Delta(c, prev, w)
    ensures forall side, w :: side != SideOf(c) ==>
      Gained(done + [c], prev, Only(side), w) == Gained(done, prev, Only(side), w)
    ensures DirectConns(done + [c]) == DirectConns(done) + if SideOf(c) == Direct then 1 else 0
  {
    forall side, w
      ensures Gained(done + [c], prev, Only(side), w) ==
        Gained(done, prev, Only(side), w) + ScopedDelta(c, prev, Only(side), w)
    {
      GainedSnoc(done, c, prev, Only(side), w);
    }
    SumBySnoc(done, c, x => if SideOf(x) == Direct then 1 else 0);
  }

  lemma GainedSnoc(done: Poll, c: Conn, prev: map<string, Seen>, sc: Scope, w: Counter)
    ensures Gained(done + [c], prev, sc, w) == Gained(done, prev, sc, w) + ScopedDelta(c, prev, sc, w)
  {
    SumBySnoc(done, c, x => ScopedDelta(x, prev, sc, w));
  }

  lemma RemembersSnoc(cur: map<string, Seen>, done: Poll, c: Conn)
    requires Remembers(cur, done) && forall x :: x in done ==> x.id != c.id
    ensures Remembers(cur[c.id := Seen(c.up, c.down)], done + [c])
  {
    var next := cur[c.id := Seen(c.up, c.down)];
    forall id | id in next ensures exists x :: x in done + [c] && x.id == id {
      if id in cur {
        var x :| x in done && x.id == id;
        assert x in done + [c];
      } else {
        assert c in done + [c];
      }
    }
  }

  /** Both sides together gain what everything gains. */
  lemma GainedSplits(next: Poll, prev: map<string, Seen>, w: Counter)
    ensures Gained(next, prev, Only(Direct), w) + Gained(next, prev, Only(Proxied), w) == Gained(next, prev, All, w)
  {
    SumByAdd(next, c => ScopedDelta(c, prev, Only(Direct), w), c => ScopedDelta(c, prev, Only(Proxied), w),
      c => ScopedDelta(c, prev, All, w));
  }

  lemma IntervalTotalSnoc(polls: seq<Poll>, next: Poll, prev: map<string, Seen>, sc: Scope, w: Counter)
    requires PollsFit(polls) && UniqueIds(next)
    requires if polls == [] then prev == map[] else Remembers(prev, polls[|polls| - 1])
    requires sc == All || polls == [] || SidesFixed(polls[|polls| - 1], next)
    ensures IntervalTotal(polls + [next], sc, w) == IntervalTotal(polls, sc, w) + Gained(next, prev, sc, w)
  {
    var all := polls + [next];
    if polls == [] {
      assert all == [next];
      SumByEqual(next, c => ScopedDelta(c, prev, sc, w), c => Share(c, sc, w));
    } else {
      assert all[..|all| - 1] == polls;
      OnePollBalances(polls[|polls| - 1], next, prev, sc, w);
    }
  }

  lemma NewPollBalances(polls: seq<Poll>, next: Poll, prev: map<string, Seen>)
    requires PollsFit(polls) && UniqueIds(next)
    requires if polls == [] then prev == map[] else Remembers(prev, polls[|polls| - 1])
    ensures PollsFit(polls + [next])
    ensures forall w ::
      IntervalTotal(polls + [next], All, w) ==
        IntervalTotal(polls, All, w) + Gained(next, prev, Only(Direct), w) + Gained(next, prev, Only(Proxied), w)
    ensures SidesFixedThroughout(polls + [next]) ==> SidesFixedThroughout(polls)
    ensures SidesFixedThroughout(polls + [next]) ==>
      forall side, w ::
        IntervalTotal(polls + [next], Only(side), w) ==
          IntervalTotal(polls, Only(side), w) + Gained(next, prev, Only(side), w)
  {
    var all := polls + [next];
    forall w ensures IntervalTotal(all, All, w) ==
      IntervalTotal(polls, All, w) + Gained(next, prev, Only(Direct), w) + Gained(next, prev, Only(Proxied), w)
    {
      IntervalTotalSnoc(polls, next, prev, All, w);
      GainedSplits(next, prev, w);
    }
    if SidesFixedThroughout(all) {
      forall t | 0 < t < |polls| ensures SidesFixed(polls[t - 1], polls[t]) {
        assert all[t - 1] == polls[t - 1] && all[t] == polls[t];
      }
      if polls != [] { assert all[|polls| - 1] == polls[|polls| - 1] && all[|polls|] == next; }
      forall side, w
        ensures IntervalTotal(all, Only(side), w) ==
          IntervalTotal(polls, Only(side), w) + Gained(next, prev, Only(side), w)
      {
        IntervalTotalSnoc(polls, next, prev, Only(side), w);
      }
    }
  }
}
