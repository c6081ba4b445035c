/**
  The per-day usage history: adding a delta to today, and trimming to the newest
  days.  Dates are day numbers, ordered like their ISO spelling.
 */
module UsageHistory {
  import Arith
  import Traffic

  datatype Field = Tx | Rx | DirectTx | DirectRx | ProxyTx | ProxyRx

  datatype UsageDay = UsageDay(date: nat, tx: nat, rx: nat, directTx: nat, directRx: nat, proxyTx: nat, proxyRx: nat)
  {
    function Get(f: Field): nat {
      match f
      case Tx => tx
      case Rx => rx
      case DirectTx => directTx
      case DirectRx => directRx
      case ProxyTx => proxyTx
      case ProxyRx => proxyRx
    }
  }

  /** A day's traffic is its direct and its proxied traffic. */
  predicate Balanced(d: UsageDay) { d.tx == d.directTx + d.proxyTx && d.rx == d.directRx + d.proxyRx }

  predicate AllBalanced(days: seq<UsageDay>) { forall i :: 0 <= i < |days| ==> Balanced(days[i]) }

  predicate DistinctDates(days: seq<UsageDay>) { forall i, j :: 0 <= i < j < |days| ==> days[i].date != days[j].date }

  predicate SortedByDate(days: seq<UsageDay>) { forall i, j :: 0 <= i < j < |days| ==> days[i].date <= days[j].date }

  function Total(days: seq<UsageDay>, f: Field): nat { if days == [] then 0 else days[0].Get(f) + Total(days[1..], f) }

  lemma {:induction false} TotalOfConcat(a: seq<UsageDay>, b: seq<UsageDay>, f: Field)
    ensures Total(a + b, f) == Total(a, f) + Total(b, f)
  {
    if a == [] {
      assert a + b == b;
    } else {
      assert (a + b)[1..] == a[1..] + b;
      TotalOfConcat(a[1..], b, f);
    }
  }

  lemma TotalsOfConcat(a: seq<UsageDay>, b: seq<UsageDay>)
    ensures forall f :: Total(a + b, f) == Total(a, f) + Total(b, f)
  {
    forall f ensures Total(a + b, f) == Total(a, f) + Total(b, f) {
      TotalOfConcat(a, b, f);
    }
  }

  lemma TotalsOfOne(d: UsageDay)
    ensures forall f :: Total([d], f) == d.Get(f)
  {
    assert [d][1..] == [];
  }

  lemma TotalSplit(days: seq<UsageDay>, i: nat, f: Field)
    requires i < |days|
    ensures Total(days, f) == Total(days[..i], f) + days[i].Get(f) + Total(days[i + 1..], f)
  {
    var rest := [days[i]] + days[i + 1..];
    assert days == days[..i] + rest;
    TotalOfConcat(days[..i], rest, f);
    assert rest[1..] == days[i + 1..];
  }

  function Without(b: seq<UsageDay>, k: nat): seq<UsageDay>
    requires k < |b|
  {
    b[..k] + b[k + 1..]
  }

  lemma TotalWithout(b: seq<UsageDay>, k: nat, f: Field)
    requires k < |b|
    ensures Total(b, f) == Total(Without(b, k), f) + b[k].Get(f)
  {
    TotalSplit(b, k, f);
    TotalOfConcat(b[..k], b[k + 1..], f);
  }

  lemma ContentsWithout(b: seq<UsageDay>, k: nat)
    requires k < |b|
    ensures multiset(Without(b, k)) == multiset(b) - multiset{b[k]}
  {
    assert b == b[..k] + ([b[k]] + b[k + 1..]);
  }

  /** Order does not matter for the totals. */
  lemma {:induction false} TotalOfPermutation(a: seq<UsageDay>, b: seq<UsageDay>, f: Field)
    requires multiset(a) == multiset(b)
    ensures Total(a, f) == Total(b, f)
    decreases |a|
  {
    if a == [] {
      assert |multiset(b)| == |b| == 0;
    } else {
      hide Total;
      assert a[0] in multiset(b);
      var k :| 0 <= k < |b| && b[k] == a[0];
      ContentsWithout(a, 0);
      ContentsWithout(b, k);
      TotalOfPermutation(Without(a, 0), Without(b, k), f);
      TotalWithout(a, 0, f);
      TotalWithout(b, k, f);
    }
  }

  lemma TotalsOfPermutation(a: seq<UsageDay>, b: seq<UsageDay>)
    requires multiset(a) == multiset(b)
    ensures forall f :: Total(a, f) == Total(b, f)
  {
    forall f ensures Total(a, f) == Total(b, f) {
      TotalOfPermutation(a, b, f);
    }
  }

  /** A day with another one's traffic added. */
  function Plus(d: UsageDay, e: UsageDay): (sum: UsageDay)
    ensures sum.date == d.date && forall f: Field :: sum.Get(f) == d.Get(f) + e.Get(f)
  {
    UsageDay(d.date, d.tx + e.tx, d.rx + e.rx, d.directTx + e.directTx, d.directRx + e.directRx, d.proxyTx + e.proxyTx,
      d.proxyRx + e.proxyRx)
  }

  lemma TotalsAfterPlus(days: seq<UsageDay>, i: nat, e: UsageDay)
    requires i < |days|
    ensures forall f :: Total(days[i := Plus(days[i], e)], f) == Total(days, f) + e.Get(f)
  {
    var out := days[i := Plus(days[i], e)];
    assert out[..i] == days[..i] && out[i + 1..] == days[i + 1..];
    forall f ensures Total(out, f) == Total(days, f) + e.Get(f) {
      TotalSplit(days, i, f);
      TotalSplit(out, i, f);
    }
  }

  /** The day of the given date grows by the delta, or appears with it; no other day changes. */
  method AddUsageToDay(days: seq<UsageDay>, delta: UsageDay) returns (out: seq<UsageDay>)
    ensures forall f :: Total(out, f) == Total(days, f) + delta.Get(f)
    ensures DistinctDates(days) ==> DistinctDates(out)
    ensures AllBalanced(days) && Balanced(delta) ==> AllBalanced(out)
    ensures |days| <= |out| <= |days| + 1
    ensures |out| > |days| <==> forall i :: 0 <= i < |days| ==> days[i].date != delta.date
    ensures |out| > |days| ==> out == days + [delta]
    ensures |out| == |days| ==>
      exists i :: 0 <= i < |days| && days[i].date == delta.date && out == days[i := Plus(days[i], delta)]
  {
    for i := 0 to |days|
      invariant forall k :: 0 <= k < i ==> days[k].date != delta.date
    {
      if days[i].date == delta.date {
        out := days[i := Plus(days[i], delta)];
        TotalsAfterPlus(days, i, delta);
        return;
      }
    }
    out := days + [delta];
    TotalsOfConcat(days, [delta]);
    TotalsOfOne(delta);
  }

  // ------------------------------------------------------------------ trimming

  /** Sorting by date, as the library does it in some way. */
  method SortByDate(days: seq<UsageDay>) returns (out: seq<UsageDay>)
    ensures SortedByDate(out) && multiset(out) == multiset(days)
  {
    out := [];
    assert days[..0] == [];
    for i := 0 to |days|
      invariant SortedByDate(out) && multiset(out) == multiset(days[..i])
    {
      assert days[..i + 1] == days[..i] + [days[i]];
      out := InsertByDate(out, days[i]);
    }
    assert days[..|days|] == days;
  }

  method InsertByDate(sorted: seq<UsageDay>, d: UsageDay) returns (out: seq<UsageDay>)
    requires SortedByDate(sorted)
    ensures SortedByDate(out) && multiset(out) == multiset(sorted) + multiset{d}
  {
    var k := |sorted|;
    while k > 0 && sorted[k - 1].date > d.date
      invariant 0 <= k <= |sorted|
      invariant forall j :: k <= j < |sorted| ==> sorted[j].date > d.date
    {
      k := k - 1;
    }
    out := sorted[..k] + [d] + sorted[k..];
    InsertedContents(sorted, k, d);
    InsertedSorted(sorted, k, d);
  }

  lemma InsertedContents(sorted: seq<UsageDay>, k: nat, d: UsageDay)
    requires k <= |sorted|
    ensures multiset(sorted[..k] + [d] + sorted[k..]) == multiset(sorted) + multiset{d}
  {
    assert sorted == sorted[..k] + sorted[k..];
  }

  lemma InsertedSorted(sorted: seq<UsageDay>, k: nat, d: UsageDay)
    requires SortedByDate(sorted) && k <= |sorted|
    requires forall j :: k <= j < |sorted| ==> sorted[j].date > d.date
    requires k > 0 ==> sorted[k - 1].date <= d.date
    ensures SortedByDate(sorted[..k] + [d] + sorted[k..])
  {
    var out := sorted[..k] + [d] + sorted[k..];
    forall i, j | 0 <= i < j < |out| ensures out[i].date <= out[j].date {
      assert out[i] == if i < k then sorted[i] else if i == k then d else sorted[i - 1];
      assert out[j] == if j < k then sorted[j] else if j == k then d else sorted[j - 1];
    }
  }

  /** Keeps the newest max days; only older dates are dropped. */
  method TrimUsageDays(days: seq<UsageDay>, max: int) returns (out: seq<UsageDay>, ghost dropped: seq<UsageDay>)
    ensures max <= 0 || |days| <= max ==> out == days && dropped == []
    ensures !(max <= 0 || |days| <= max) ==> |out| == max
    ensures multiset(dropped) + multiset(out) == multiset(days)
    ensures forall f :: Total(dropped, f) + Total(out, f) == Total(days, f)
    ensures forall i, j :: 0 <= i < |dropped| && 0 <= j < |out| ==> dropped[i].date <= out[j].date
    ensures AllBalanced(days) ==> AllBalanced(out)
    ensures DistinctDates(days) ==> DistinctDates(out)
  {
    if max <= 0 || |days| <= max { return days, []; }
    var sorted := SortByDate(days);
    assert |multiset(sorted)| == |multiset(days)|;
    var cut := |sorted| - max;
    dropped, out := sorted[..cut], sorted[cut..];
    assert sorted == dropped + out;
    TotalsOfConcat(dropped, out);
    TotalsOfPermutation(sorted, days);
    KeptFromDays(days, sorted, cut);
  }

  lemma KeptFromDays(days: seq<UsageDay>, sorted: seq<UsageDay>, cut: nat)
    requires multiset(sorted) == multiset(days) && cut <= |sorted|
    ensures AllBalanced(days) ==> AllBalanced(sorted[cut..])
    ensures DistinctDates(days) ==> DistinctDates(sorted[cut..])
  {
    forall i | 0 <= i < |sorted| ensures sorted[i] in days {
      assert sorted[i] in multiset(sorted);
      assert sorted[i] in multiset(days);
    }
    if DistinctDates(days) {
      forall i, j | 0 <= i < j < |sorted| ensures sorted[i].date != sorted[j].date {
        DistinctDatesPermuted(days, sorted, i, j);
      }
    }
  }

  lemma DistinctDatesPermuted(days: seq<UsageDay>, sorted: seq<UsageDay>, i: nat, j: nat)
    requires multiset(sorted) == multiset(days) && DistinctDates(days) && i < j < |sorted|
    ensures sorted[i].date != sorted[j].date
  {
    var x, y := sorted[i], sorted[j];
    assert x in multiset(sorted) && y in multiset(sorted);
    if x == y {
      assert sorted == sorted[..j] + sorted[j..];
      assert x in multiset(sorted[..j]) by { assert sorted[..j][i] == x; }
      assert x in multiset(sorted[j..]) by { assert sorted[j..][0] == x; }
      assert multiset(sorted)[x] >= 2;
    }
    OnceOnly(days, x);
    var a :| 0 <= a < |days| && days[a] == x;
    var b :| 0 <= b < |days| && days[b] == y;
    assert a != b;
  }

  lemma {:induction false} OnceOnly(days: seq<UsageDay>, x: UsageDay)
    requires DistinctDates(days)
    ensures multiset(days)[x] <= 1
  {
    if days != [] {
      assert days == [days[0]] + days[1..];
      OnceOnly(days[1..], x);
      if x == days[0] { assert x !in days[1..]; }
    }
  }

  // ------------------------------------------------------------------ the tracker

  /** What a stream of readings of a counter amounts to: its last value before each restart, and its last value. */
  function CounterTotal(readings: seq<nat>): nat {
    if readings == [] then 0 else EndedRuns(readings) + readings[|readings| - 1]
  }

  function EndedRuns(readings: seq<nat>): nat {
    if |readings| < 2 then 0
    else
      var n := |readings|;
      EndedRuns(readings[..n - 1]) + if readings[n - 1] < readings[n - 2] then readings[n - 2] else 0
  }

  function LastReading(readings: seq<nat>): nat { if readings == [] then 0 else readings[|readings| - 1] }

  lemma ReadingAdvances(readings: seq<nat>, cur: nat)
    ensures CounterTotal(readings + [cur]) == CounterTotal(readings) + Traffic.CounterDelta(cur, LastReading(readings))
    ensures LastReading(readings + [cur]) == cur
  {
    assert (readings + [cur])[..|readings|] == readings;
  }

  const KEPT_DAYS := 120

  /**
    The tracker with the last kernel totals it has accounted for.  loaded, dropped
    and the readings since then are kept for the proof; a reset counts as a reading
    of zero.
   */
  class UsageTracker {
    var days: seq<UsageDay>
    var lastUp: nat
    var lastDown: nat
    ghost var loaded: seq<UsageDay>
    ghost var dropped: seq<UsageDay>
    ghost var ups: seq<nat>
    ghost var downs: seq<nat>

    /** No byte is lost or counted twice: what is kept and what was dropped is what was loaded and read. */
    ghost predicate Valid()
      reads this
    {
      && |days| <= 120
      && lastUp == LastReading(ups) && lastDown == LastReading(downs)
      && Total(days, Tx) + Total(dropped, Tx) == Total(loaded, Tx) + CounterTotal(ups)
      && Total(days, Rx) + Total(dropped, Rx) == Total(loaded, Rx) + CounterTotal(downs)
      && (AllBalanced(loaded) ==> AllBalanced(days))
      && (DistinctDates(loaded) ==> DistinctDates(days))
    }

    constructor (file: seq<UsageDay>)
      ensures Valid() && loaded == file && ups == [] && downs == []
    {
      var kept, gone := TrimUsageDays(file, KEPT_DAYS);
      days, dropped, loaded := kept, gone, file;
      lastUp, lastDown, ups, downs := 0, 0, [], [];
    }

    method Reset()
      requires Valid()
      modifies this
      ensures Valid() && loaded == old(loaded) && days == old(days) && dropped == old(dropped)
      ensures ups == old(ups) + [0] && downs == old(downs) + [0]
      ensures lastUp == 0 && lastDown == 0
    {
      ReadingAdvances(ups, 0);
      ReadingAdvances(downs, 0);
      lastUp, lastDown, ups, downs := 0, 0, ups + [0], downs + [0];
    }

    /** One tick of the kernel's totals, split by the shares of the direct traffic so far. */
    method OnTraffic(upTotal: nat, downTotal: nat, today: nat, dirTx: nat, dirRx: nat, prxTx: nat, prxRx: nat)
      requires Valid()
      modifies this
      ensures Valid() && loaded == old(loaded)
      ensures ups == old(ups) + [upTotal] && downs == old(downs) + [downTotal]
      ensures |old(dropped)| <= |dropped| && dropped[..|old(dropped)|] == old(dropped)
      ensures OtherDaysKept(old(days), days + dropped[|old(dropped)|..], today)
      ensures var delta := Tick(upTotal, downTotal, old(lastUp), old(lastDown), today, dirTx, dirRx, prxTx, prxRx);
        forall f :: Total(days, f) + Total(dropped, f) == old(Total(days, f) + Total(dropped, f)) + delta.Get(f)
    {
      hide Total, CounterTotal, LastReading, AllBalanced, DistinctDates, Balanced, OtherDaysKept, Tick;
      var delta := Tick(upTotal, downTotal, lastUp, lastDown, today, dirTx, dirRx, prxTx, prxRx);
      ReadingAdvances(ups, upTotal);
      ReadingAdvances(downs, downTotal);
      lastUp, lastDown, ups, downs := upTotal, downTotal, ups + [upTotal], downs + [downTotal];
      if delta.tx > 0 || delta.rx > 0 {
        var kept, gone := AddAndTrim(days, delta);
        TotalsOfConcat(dropped, gone);
        days, dropped := kept, dropped + gone;
        assert dropped[|old(dropped)|..] == gone;
      } else {
        NoTick(delta);
        assert dropped[|old(dropped)|..] == [];
        NoDayLost(days, today);
      }
    }
  }

  /** What one tick adds: the counters' deltas, of which the direct traffic's share is direct and the rest proxied. */
  function Tick(up: nat, down: nat, lastUp: nat, lastDown: nat, today: nat, dirTx: nat, dirRx: nat, prxTx: nat,
    prxRx: nat): (d: UsageDay)
    ensures Balanced(d) && d.date == today
    ensures d.tx == Traffic.CounterDelta(up, lastUp) && d.rx == Traffic.CounterDelta(down, lastDown)
    ensures if dirTx + prxTx == 0 then d.directTx == 0
      else (dirTx + prxTx) * d.directTx <= d.tx * dirTx < (dirTx + prxTx) * d.directTx + (dirTx + prxTx)
    ensures if dirRx + prxRx == 0 then d.directRx == 0
      else (dirRx + prxRx) * d.directRx <= d.rx * dirRx < (dirRx + prxRx) * d.directRx + (dirRx + prxRx)
  {
    var dTx, dRx := Traffic.CounterDelta(up, lastUp), Traffic.CounterDelta(down, lastDown);
    var dd, dr := Arith.Portion(dTx, dirTx, dirTx + prxTx), Arith.Portion(dRx, dirRx, dirRx + prxRx);
    UsageDay(today, dTx, dRx, dd, dr, dTx - dd, dRx - dr)
  }

  lemma NoDayLost(days: seq<UsageDay>, date: nat)
    ensures OtherDaysKept(days, days + [], date)
  {
    assert days + [] == days;
  }

  /** A tick without traffic adds nothing anywhere. */
  lemma NoTick(d: UsageDay)
    requires Balanced(d) && d.tx == 0 && d.rx == 0
    ensures forall f: Field :: d.Get(f) == 0
  {
  }

  /** usageTracker.add: the delta goes to its day and the oldest days beyond the limit go. */
  method AddAndTrim(days: seq<UsageDay>, delta: UsageDay) returns (kept: seq<UsageDay>, ghost gone: seq<UsageDay>)
    ensures |kept| <= 120 && (gone != [] ==> |kept| == 120)
    ensures forall f :: Total(kept, f) + Total(gone, f) == Total(days, f) + delta.Get(f)
    ensures AllBalanced(days) && Balanced(delta) ==> AllBalanced(kept)
    ensures DistinctDates(days) ==> DistinctDates(kept)
    ensures forall i, j :: 0 <= i < |gone| && 0 <= j < |kept| ==> gone[i].date <= kept[j].date
    ensures OtherDaysKept(days, kept + gone, delta.date)
  {
    hide Total, AllBalanced, DistinctDates, Balanced;
    var added := AddUsageToDay(days, delta);
    kept, gone := TrimUsageDays(added, KEPT_DAYS);
    AddedDaysKept(days, added, delta);
    forall d: UsageDay | d.date != delta.date ensures d in days <==> d in kept + gone {
      SameDays(added, kept, gone, d);
    }
  }

  lemma AddedDaysKept(days: seq<UsageDay>, added: seq<UsageDay>, delta: UsageDay)
    requires added == days + [delta] ||
      exists i :: 0 <= i < |days| && days[i].date == delta.date && added == days[i := Plus(days[i], delta)]
    ensures OtherDaysKept(days, added, delta.date)
  {
    if added != days + [delta] {
      var i :| 0 <= i < |days| && days[i].date == delta.date && added == days[i := Plus(days[i], delta)];
      forall d: UsageDay | d.date != delta.date && d in days ensures d in added {
        var k :| 0 <= k < |days| && days[k] == d;
        assert added[k] == d;
      }
    }
  }

  /** Every day but the given date's is there before if and only if it is there after. */
  ghost predicate OtherDaysKept(before: seq<UsageDay>, after: seq<UsageDay>, date: nat) {
    forall d: UsageDay :: d.date != date ==> (d in before <==> d in after)
  }

  lemma SameDays(all: seq<UsageDay>, kept: seq<UsageDay>, gone: seq<UsageDay>, d: UsageDay)
    requires multiset(gone) + multiset(kept) == multiset(all)
    ensures d in all <==> d in kept + gone
  {
    assert d in all <==> d in multiset(all);
    assert d in kept <==> d in multiset(kept);
    assert d in gone <==> d in multiset(gone);
  }
}
