/**
  The macOS system proxy: capturing the user's settings per network service,
  pointing them at the app, and putting them back, also from the crash journal.
 */
module SystemProxy {

  import opened Options
  import opened Strings

  // ------------------------------------------------------------------ settings of one service

  datatype Proxy = Proxy(enabled: bool, server: string, port: int)

  datatype Kind = Web | Secure | Socks

  datatype Settings = Settings(
    web: Proxy, secure: Proxy, socks: Proxy, autoOn: bool, autoURL: string, bypass: seq<string>)
  {
    function Get(k: Kind): Proxy {
      match k
      case Web => web
      case Secure => secure
      case Socks => socks
    }

    function With(k: Kind, p: Proxy): Settings {
      match k
      case Web => this.(web := p)
      case Secure => this.(secure := p)
      case Socks => this.(socks := p)
    }
  }

  const LOOPBACK := "127.0.0.1"

  /** The loopback proxy the app installs. */
  predicate IsLocal(p: Proxy, want: int) {
    p.port == want && Lower(TrimBrackets(TrimSpace(p.server))) in {LOOPBACK, "localhost", "::1"}
  }

  lemma LoopbackIsLocal(on: bool, port: int)
    ensures IsLocal(Proxy(on, LOOPBACK, port), port)
  {
    assert TrimLeft(LOOPBACK, IsSpace) == LOOPBACK && TrimRight(LOOPBACK, IsSpace) == LOOPBACK;
    var drop := c => c == '[' || c == ']';
    assert TrimLeft(LOOPBACK, drop) == LOOPBACK && TrimRight(LOOPBACK, drop) == LOOPBACK;
    assert Lower(LOOPBACK) == LOOPBACK;
  }

  predicate IsBracket(c: char) { c == '[' || c == ']' }

  /**
    An address counts as local by its host, in any case, whatever white space and,
    within that, brackets surround it; and by its port.
   */
  lemma LocalIff(on: bool, port: int, want: int, before: string, open: string, host: string, close: string,
    after: string)
    requires host != "" && !IsSpace(host[0]) && !IsSpace(host[|host| - 1])
    requires !IsBracket(host[0]) && !IsBracket(host[|host| - 1])
    requires (forall i :: 0 <= i < |before| ==> IsSpace(before[i])) &&
      (forall i :: 0 <= i < |after| ==> IsSpace(after[i]))
    requires (forall i :: 0 <= i < |open| ==> IsBracket(open[i])) &&
      (forall i :: 0 <= i < |close| ==> IsBracket(close[i]))
    ensures IsLocal(Proxy(on, before + (open + host + close) + after, port), want) <==>
      port == want && Lower(host) in {"127.0.0.1", "localhost", "::1"}
  {
    hide Trim, Lower;
    var inner := open + host + close;
    assert !IsSpace(inner[0]) by { assert inner[0] == if open == "" then host[0] else open[0]; }
    assert !IsSpace(inner[|inner| - 1]) by {
      assert inner[|inner| - 1] == if close == "" then host[|host| - 1] else close[|close| - 1];
    }
    TrimOf(before, inner, after, IsSpace);
    TrimBracketsOf(open, host, close);
  }

  lemma TrimBracketsOf(open: string, host: string, close: string)
    requires host != "" && !IsBracket(host[0]) && !IsBracket(host[|host| - 1])
    requires (forall i :: 0 <= i < |open| ==> IsBracket(open[i])) &&
      (forall i :: 0 <= i < |close| ==> IsBracket(close[i]))
    ensures TrimBrackets(open + host + close) == host
  {
    hide Trim;
    TrimOf(open, host, close, c => c == '[' || c == ']');
  }

  /** Spellings of the local host that count. */
  lemma LocalSpellings(on: bool, port: int)
    ensures IsLocal(Proxy(on, "LocalHost", port), port) && !IsLocal(Proxy(on, "LocalHost", port), port + 1)
    ensures IsLocal(Proxy(on, "\t[::1] ", port), port)
  {
    hide IsLocal;
    LocalIff(on, port, port, "", "", "LocalHost", "", "");
    LocalIff(on, port, port + 1, "", "", "LocalHost", "", "");
    LocalIff(on, port, port, "\t", "[", "::1", "]", " ");
    assert "" + ("" + "LocalHost" + "") + "" == "LocalHost" && Lower("LocalHost") == "localhost";
    assert "\t" + ("[" + "::1" + "]") + " " == "\t[::1] " && Lower("::1") == "::1";
  }

  /** And some that do not. */
  lemma OtherSpellings(on: bool, port: int)
    ensures !IsLocal(Proxy(on, "127.0.0.2", port), port) && !IsLocal(Proxy(on, "", port), port)
  {
    hide IsLocal;
    LocalIff(on, port, port, "", "", "127.0.0.2", "", "");
    assert "" + ("" + "127.0.0.2" + "") + "" == "127.0.0.2";
    assert Lower("127.0.0.2")[8] == '2' && |Lower("127.0.0.2")| == 9;
    NoHostIsLocal(on, port, port);
  }

  lemma NoHostIsLocal(on: bool, port: int, want: int)
    ensures !IsLocal(Proxy(on, "", port), want)
  {
    assert |Lower("")| == 0;
  }

  predicate Ours(p: Proxy, port: int) { p.enabled && IsLocal(p, port) }

  predicate AnyOurs(s: Settings, port: int) { Ours(s.web, port) || Ours(s.secure, port) || Ours(s.socks, port) }

  /** An address that can be written back. */
  predicate Usable(p: Proxy) { p.server != "" && 0 < p.port <= 65535 }

  /** Switched on, but with an address that cannot be written back. */
  predicate Stuck(p: Proxy) { p.enabled && !Usable(p) }

  predicate NoneStuck(s: Settings) { !Stuck(s.web) && !Stuck(s.secure) && !Stuck(s.socks) }

  /** Where traffic goes because of an entry. */
  function Effective(p: Proxy): Option<(string, int)> {
    if p.enabled then Some((p.server, p.port)) else None
  }

  // ------------------------------------------------------------------ networksetup

  datatype Cmd =
    | SetProxy(kind: Kind, host: string, port: int)   // also switches the entry on
    | SetState(kind: Kind, on: bool)
    | SetAutoState(on: bool)
    | SetAutoURL(url: string)                         // also switches automatic configuration on
    | SetBypass(domains: seq<string>)

  function Run(c: Cmd, s: Settings): Settings {
    match c
    case SetProxy(k, host, port) => s.With(k, Proxy(true, host, port))
    case SetState(k, on) => s.With(k, s.Get(k).(enabled := on))
    case SetAutoState(on) => s.(autoOn := on)
    case SetAutoURL(url) => s.(autoURL := url, autoOn := true)
    case SetBypass(ds) => s.(bypass := ds)
  }

  function RunAll(cs: seq<Cmd>, s: Settings): Settings {
    if cs == [] then s else RunAll(cs[1..], Run(cs[0], s))
  }

  lemma {:induction false} RunAllConcat(a: seq<Cmd>, b: seq<Cmd>, s: Settings)
    ensures RunAll(a + b, s) == RunAll(b, RunAll(a, s))
  {
    if a == [] {
      assert a + b == b;
    } else {
      assert (a + b)[1..] == a[1..] + b;
      RunAllConcat(a[1..], b, Run(a[0], s));
    }
  }

  // ------------------------------------------------------------------ capture, set, restore

  /** A leftover of an earlier crashed run is not the user's setting. */
  function Cleaned(p: Proxy, port: int): Proxy {
    if IsLocal(p, port) then Proxy(false, "", 0) else p
  }

  function Captured(s: Settings, port: int): Settings {
    s.(web := Cleaned(s.web, port), secure := Cleaned(s.secure, port), socks := Cleaned(s.socks, port))
  }

  /** The snapshot is the user's settings, but nothing in it points at the app, and for that nothing else is changed. */
  lemma CapturedResult(s: Settings, port: int, k: Kind)
    ensures var e := Captured(s, port).Get(k);
      && !IsLocal(e, port) && (IsLocal(s.Get(k), port) ==> e == Proxy(false, "", 0))
      && (!IsLocal(s.Get(k), port) ==> e == s.Get(k))
    ensures var c := Captured(s, port); c.autoOn == s.autoOn && c.autoURL == s.autoURL && c.bypass == s.bypass
  {
    NoHostIsLocal(false, 0, port);
  }

  /** uniqueStrings: trimmed, without empty entries and without repeats up to case, the first spelling kept. */
  function Unique(kept: seq<string>, more: seq<string>): seq<string>
    decreases |more|
  {
    if more == [] then kept
    else
      var s := TrimSpace(more[0]);
      Unique(if s == "" || HasEntry(kept, s) then kept else kept + [s], more[1..])
  }

  predicate HasEntry(xs: seq<string>, s: string) { exists i :: 0 <= i < |xs| && Lower(xs[i]) == Lower(s) }

  ghost predicate NoRepeats(xs: seq<string>) {
    forall i, j :: 0 <= i < j < |xs| ==> Lower(xs[i]) != Lower(xs[j])
  }

  /** It keeps what was there in front, lists exactly what was asked for, and nothing twice. */
  lemma {:induction false} UniqueResult(kept: seq<string>, more: seq<string>)
    ensures kept <= Unique(kept, more)
    ensures forall x :: x in Unique(kept, more) ==>
      x in kept || (x != "" && exists i :: 0 <= i < |more| && x == TrimSpace(more[i]))
    ensures forall i :: 0 <= i < |more| && TrimSpace(more[i]) != "" ==> HasEntry(Unique(kept, more), TrimSpace(more[i]))
    ensures NoRepeats(kept) ==> NoRepeats(Unique(kept, more))
    decreases |more|
  {
    hide Lower, TrimSpace;
    if more != [] {
      var s := TrimSpace(more[0]);
      var next := if s == "" || HasEntry(kept, s) then kept else kept + [s];
      UniqueResult(next, more[1..]);
      var all := Unique(kept, more);
      forall x | x in all && x !in kept ensures x != "" && exists i :: 0 <= i < |more| && x == TrimSpace(more[i]) {
        if x !in next {
          var i :| 0 <= i < |more| - 1 && x == TrimSpace(more[1..][i]);
          assert x == TrimSpace(more[i + 1]);
        } else {
          assert x == TrimSpace(more[0]);
        }
      }
      forall i | 0 <= i < |more| && TrimSpace(more[i]) != "" ensures HasEntry(all, TrimSpace(more[i])) {
        if i > 0 {
          assert more[1..][i - 1] == more[i];
        } else {
          assert HasEntry(next, s) by { if !HasEntry(kept, s) { assert next[|kept|] == s; } }
          var k :| 0 <= k < |next| && Lower(next[k]) == Lower(s);
          assert all[k] == next[k];
        }
      }
    }
  }

  const ALWAYS_BYPASSED := ["localhost", "127.0.0.1", "::1"]

  /** The bypass list while the app's proxy is on: the user's entries, then the local ones. */
  function BypassOf(orig: Settings): seq<string> { Unique([], orig.bypass + ALWAYS_BYPASSED) }

  /** Local names bypass the proxy, besides whatever the user lets bypass it. */
  lemma BypassHas(orig: Settings)
    ensures HasEntry(BypassOf(orig), "localhost") && HasEntry(BypassOf(orig), "127.0.0.1") &&
      HasEntry(BypassOf(orig), "::1")
    ensures forall i :: 0 <= i < |orig.bypass| && TrimSpace(orig.bypass[i]) != "" ==>
      HasEntry(BypassOf(orig), TrimSpace(orig.bypass[i]))
    ensures NoRepeats(BypassOf(orig))
  {
    hide Lower, TrimSpace, Unique;
    var all, n := orig.bypass + ALWAYS_BYPASSED, |orig.bypass|;
    UniqueResult([], all);
    LocalNamesTrimmed();
    assert all[n] == "localhost" && all[n + 1] == "127.0.0.1" && all[n + 2] == "::1";
    forall i | 0 <= i < n && TrimSpace(orig.bypass[i]) != ""
      ensures HasEntry(BypassOf(orig), TrimSpace(orig.bypass[i]))
    {
      assert all[i] == orig.bypass[i];
    }
  }

  lemma LocalNamesTrimmed()
    ensures TrimSpace("localhost") == "localhost" && TrimSpace("127.0.0.1") == "127.0.0.1" && TrimSpace("::1") == "::1"
  {
    assert TrimLeft("localhost", IsSpace) == "localhost" && TrimRight("localhost", IsSpace) == "localhost";
    assert TrimLeft("127.0.0.1", IsSpace) == "127.0.0.1" && TrimRight("127.0.0.1", IsSpace) == "127.0.0.1";
    assert TrimLeft("::1", IsSpace) == "::1" && TrimRight("::1", IsSpace) == "::1";
  }

  function SetSteps(orig: Settings, port: int): seq<Cmd> {
    [SetAutoState(false), SetProxy(Web, LOOPBACK, port), SetProxy(Secure, LOOPBACK, port),
      SetProxy(Socks, LOOPBACK, port),
     SetBypass(BypassOf(orig))]
  }

  function RestoreEntry(k: Kind, now: Proxy, orig: Proxy, port: int): seq<Cmd> {
    if !Ours(now, port) then []
    else
      (if Usable(orig) then [SetProxy(k, orig.server, orig.port)] else []) +
      [SetState(k, orig.enabled && !IsLocal(orig, port))]
  }

  function RestoreRest(cur: Settings, orig: Settings, port: int): seq<Cmd> {
    if !AnyOurs(cur, port) then []
    else
      (if orig.autoURL != "" then [SetAutoURL(orig.autoURL)] else []) +
      [SetAutoState(orig.autoOn), SetBypass(orig.bypass)]
  }

  function RestoreSteps(cur: Settings, orig: Settings, port: int): seq<Cmd> {
    RestoreEntry(Web, cur.web, orig.web, port) + RestoreEntry(Secure, cur.secure, orig.secure, port) +
    RestoreEntry(Socks, cur.socks, orig.socks, port) + RestoreRest(cur, orig, port)
  }

  function Restored(cur: Settings, orig: Settings, port: int): Settings {
    RunAll(RestoreSteps(cur, orig, port), cur)
  }

  /** What a restore makes of one entry. */
  function RestoredEntry(now: Proxy, orig: Proxy, port: int): Proxy {
    if !Ours(now, port) then now
    else
      var at := if Usable(orig) then orig else now;
      Proxy(orig.enabled && !IsLocal(orig, port), at.server, at.port)
  }

  lemma RunOne(a: Cmd, s: Settings)
    ensures RunAll([a], s) == Run(a, s)
  {
    assert [a][1..] == [];
  }

  lemma RunTwo(a: Cmd, b: Cmd, s: Settings)
    ensures RunAll([a, b], s) == Run(b, Run(a, s))
  {
    assert [a, b][1..] == [b];
    RunOne(b, Run(a, s));
  }

  lemma RestoreEntryResult(k: Kind, s: Settings, now: Proxy, orig: Proxy, port: int)
    requires now == s.Get(k)
    ensures RunAll(RestoreEntry(k, now, orig, port), s) == s.With(k, RestoredEntry(now, orig, port))
  {
    if Ours(now, port) {
      var last := SetState(k, orig.enabled && !IsLocal(orig, port));
      if Usable(orig) {
        var first := SetProxy(k, orig.server, orig.port);
        assert RestoreEntry(k, now, orig, port) == [first, last];
        RunTwo(first, last, s);
      } else {
        assert RestoreEntry(k, now, orig, port) == [last];
        RunOne(last, s);
      }
    }
  }

  lemma RestoreRestResult(cur: Settings, orig: Settings, port: int, s: Settings)
    ensures RunAll(RestoreRest(cur, orig, port), s) ==
      if !AnyOurs(cur, port) then s
      else s.(autoURL := if orig.autoURL != "" then orig.autoURL
        else s.autoURL, autoOn := orig.autoOn, bypass := orig.bypass)
  {
    if AnyOurs(cur, port) {
      var tail := [SetAutoState(orig.autoOn), SetBypass(orig.bypass)];
      var head := if orig.autoURL != "" then [SetAutoURL(orig.autoURL)] else [];
      RunAllConcat(head, tail, s);
      if orig.autoURL != "" { RunOne(SetAutoURL(orig.autoURL), s); }
      RunTwo(SetAutoState(orig.autoOn), SetBypass(orig.bypass), RunAll(head, s));
    }
  }

  /** The settings a restore leaves, entry by entry. */
  lemma RestoreResult(cur: Settings, orig: Settings, port: int)
    ensures var r := Restored(cur, orig, port);
      && r.web == RestoredEntry(cur.web, orig.web, port)
      && r.secure == RestoredEntry(cur.secure, orig.secure, port)
      && r.socks == RestoredEntry(cur.socks, orig.socks, port)
      && (!AnyOurs(cur, port) ==> r == cur)
      && (AnyOurs(cur, port) ==>
            r.autoOn == orig.autoOn && r.bypass == orig.bypass
            && r.autoURL == if orig.autoURL != "" then orig.autoURL else cur.autoURL)
  {
    var a, b, c := RestoreEntry(Web, cur.web, orig.web, port), RestoreEntry(Secure, cur.secure, orig.secure, port),
      RestoreEntry(Socks, cur.socks, orig.socks, port);
    RunAllConcat(a + b + c, RestoreRest(cur, orig, port), cur);
    RunAllConcat(a + b, c, cur);
    RunAllConcat(a, b, cur);
    RestoreEntryResult(Web, cur, cur.web, orig.web, port);
    var s1 := RunAll(a, cur);
    RestoreEntryResult(Secure, s1, cur.secure, orig.secure, port);
    var s2 := RunAll(b, s1);
    RestoreEntryResult(Socks, s2, cur.socks, orig.socks, port);
    RestoreRestResult(cur, orig, port, RunAll(c, s2));
  }

  /** After a restore an entry still points at the app exactly when it did, and what was captured for it was stuck. */
  lemma RestoredEntryOursIff(now: Proxy, orig: Proxy, port: int)
    requires 0 < port <= 65535
    ensures Ours(RestoredEntry(now, orig, port), port) <==> Ours(now, port) && Stuck(orig)
    ensures !Ours(now, port) ==> RestoredEntry(now, orig, port) == now
  {
  }

  /**
    Journal recovery: entries the user changed are left alone, and nothing points at
    the app unless a stuck entry was captured.
   */
  lemma RecoveryClears(cur: Settings, orig: Settings, port: int)
    requires 0 < port <= 65535
    ensures var r := Restored(cur, orig, port);
      && (forall k: Kind :: !Ours(cur.Get(k), port) ==> r.Get(k) == cur.Get(k))
      && (AnyOurs(r, port) <==> exists k: Kind :: Ours(cur.Get(k), port) && Stuck(orig.Get(k)))
      && (!AnyOurs(cur, port) ==> r == cur)
  {
    hide IsLocal, Stuck, Restored, RestoredEntry;
    RestoreResult(cur, orig, port);
    RestoredEntryOursIff(cur.web, orig.web, port);
    RestoredEntryOursIff(cur.secure, orig.secure, port);
    RestoredEntryOursIff(cur.socks, orig.socks, port);
    var r := Restored(cur, orig, port);
    if Ours(r.web, port) { assert Ours(cur.Get(Web), port) && Stuck(orig.Get(Web)); }
    if Ours(r.secure, port) { assert Ours(cur.Get(Secure), port) && Stuck(orig.Get(Secure)); }
    if Ours(r.socks, port) { assert Ours(cur.Get(Socks), port) && Stuck(orig.Get(Socks)); }
  }

  // ------------------------------------------------------------------ a set that stops anywhere, and a restore

  /** The entries the first n steps of a set have pointed at the app. */
  predicate Reached(k: Kind, n: nat) {
    match k
    case Web => n >= 2
    case Secure => n >= 3
    case Socks => n >= 4
  }

  /** The settings after the first n steps of a set. */
  function AfterSet(s: Settings, orig: Settings, port: int, n: nat): Settings {
    var app := Proxy(true, LOOPBACK, port);
    Settings(
      if Reached(Web, n) then app else s.web,
      if Reached(Secure, n) then app else s.secure,
      if Reached(Socks, n) then app else s.socks,
      if n >= 1 then false else s.autoOn,
      s.autoURL,
      if n >= 5 then BypassOf(orig) else s.bypass)
  }

  lemma SetStart(s: Settings, orig: Settings, port: int)
    ensures AfterSet(s, orig, port, 0) == s && |SetSteps(orig, port)| == 5
  {
  }

  lemma SetStep(s: Settings, orig: Settings, port: int, n: nat)
    requires n < 5
    ensures AfterSet(s, orig, port, n + 1) == Run(SetSteps(orig, port)[n], AfterSet(s, orig, port, n))
  {
  }

  lemma {:induction false} SetResult(s: Settings, orig: Settings, port: int, n: nat)
    requires n <= 5
    ensures RunAll(SetSteps(orig, port)[..n], s) == AfterSet(s, orig, port, n)
  {
    var t := SetSteps(orig, port);
    if n > 0 {
      SetResult(s, orig, port, n - 1);
      assert t[..n] == t[..n - 1] + [t[n - 1]];
      RunAllConcat(t[..n - 1], [t[n - 1]], s);
      RunOne(t[n - 1], RunAll(t[..n - 1], s));
      SetStep(s, orig, port, n - 1);
    } else {
      assert t[..0] == [];
    }
  }

  /**
    Capture, the first n steps of a set (a failure or a crash ends it there), and
    a restore.  Automatic configuration and bypass list come back unless the set
    stopped right after switching automatic configuration off, with nothing
    pointing at the app; every entry then means for traffic what it meant before,
    exactly if none pointed at the app and none of those reached was stuck.
   */
  lemma SetPrefixUndoneIff(s: Settings, port: int, n: nat)
    requires 0 < port <= 65535 && n <= 5
    ensures var orig := Captured(s, port);
      var r := Restored(RunAll(SetSteps(orig, port)[..n], s), orig, port);
      && r.autoURL == s.autoURL && r.bypass == s.bypass
      && (r.autoOn == s.autoOn <==> n != 1 || !s.autoOn || AnyOurs(s, port))
      && ((forall k: Kind :: Effective(r.Get(k)) == Effective(s.Get(k))) <==>
            !AnyOurs(s, port) && forall k: Kind :: Reached(k, n) ==> !Stuck(s.Get(k)))
  {
    hide IsLocal, Stuck, Restored, BypassOf, SetSteps, Cleaned, RestoredEntry, Reached;
    var orig := Captured(s, port);
    var t := AfterSet(s, orig, port, n);
    SetResult(s, orig, port, n);
    RestoreResult(t, orig, port);
    PrefixIsOurs(s, port, n);
    var r := Restored(t, orig, port);
    EntryBackIff(s.web, port, Reached(Web, n));
    EntryBackIff(s.secure, port, Reached(Secure, n));
    EntryBackIff(s.socks, port, Reached(Socks, n));
    AllKinds(s, r);
    KindByKind(s, port, n);
  }

  /** Something points at the app after the prefix exactly if it did before or the prefix reached an entry. */
  lemma PrefixIsOurs(s: Settings, port: int, n: nat)
    ensures AnyOurs(AfterSet(s, Captured(s, port), port, n), port) <==> n >= 2 || AnyOurs(s, port)
  {
    LoopbackIsLocal(true, port);
    hide IsLocal, BypassOf;
  }

  lemma AllKinds(s: Settings, r: Settings)
    ensures (forall k: Kind :: Effective(r.Get(k)) == Effective(s.Get(k))) <==>
      Effective(r.web) == Effective(s.web) && Effective(r.secure) == Effective(s.secure) &&
        Effective(r.socks) == Effective(s.socks)
  {
    assert s.web == s.Get(Web) && s.secure == s.Get(Secure) && s.socks == s.Get(Socks);
    assert r.web == r.Get(Web) && r.secure == r.Get(Secure) && r.socks == r.Get(Socks);
  }

  lemma KindByKind(s: Settings, port: int, n: nat)
    ensures (forall k: Kind :: Reached(k, n) ==> !Stuck(s.Get(k))) <==>
      && (Reached(Web, n) ==> !Stuck(s.web))
      && (Reached(Secure, n) ==> !Stuck(s.secure))
      && (Reached(Socks, n) ==> !Stuck(s.socks))
  {
    hide Stuck, Reached;
    assert s.web == s.Get(Web) && s.secure == s.Get(Secure) && s.socks == s.Get(Socks);
  }

  /**
    One entry: reached or not, it comes back in effect exactly if it did not point
    at the app and, if reached, was not stuck.
   */
  lemma EntryBackIff(p: Proxy, port: int, reached: bool)
    requires 0 < port <= 65535
    ensures var now := if reached then Proxy(true, LOOPBACK, port) else p;
      Effective(RestoredEntry(now, Cleaned(p, port), port)) == Effective(p) <==>
        !Ours(p, port) && (reached ==> !Stuck(p))
  {
    LoopbackIsLocal(true, port);
    hide IsLocal;
  }

  /** An uninterrupted capture, set and restore. */
  lemma RoundTripIff(s: Settings, port: int)
    requires 0 < port <= 65535
    ensures var orig := Captured(s, port);
      var r := Restored(RunAll(SetSteps(orig, port), s), orig, port);
      && r.autoOn == s.autoOn && r.autoURL == s.autoURL && r.bypass == s.bypass
      && ((forall k: Kind :: Effective(r.Get(k)) == Effective(s.Get(k))) <==> NoneStuck(s) && !AnyOurs(s, port))
  {
    SetPrefixUndoneIff(s, port, 5);
    var t := SetSteps(Captured(s, port), port);
    assert t[..5] == t;
    assert s.web == s.Get(Web) && s.secure == s.Get(Secure) && s.socks == s.Get(Socks);
  }

  /** The settings after an uninterrupted capture, set and restore. */
  function AfterRound(s: Settings, port: int): Settings {
    var orig := Captured(s, port);
    Restored(RunAll(SetSteps(orig, port), s), orig, port)
  }

  lemma RoundOfEntry(s: Settings, k: Kind, port: int)
    ensures AfterRound(s, port).Get(k) == RestoredEntry(Proxy(true, LOOPBACK, port), Cleaned(s.Get(k), port), port)
  {
    var orig := Captured(s, port);
    SetResult(s, orig, port, 5);
    assert SetSteps(orig, port)[..5] == SetSteps(orig, port);
    RestoreResult(AfterSet(s, orig, port, 5), orig, port);
  }

  /** A failing case of RoundTripIff: an entry that is on without a usable address comes back pointing at the app. */
  lemma StuckEntryPointsAtTheApp(s: Settings, k: Kind, port: int)
    requires 0 < port <= 65535 && Stuck(s.Get(k)) && !IsLocal(s.Get(k), port)
    ensures Ours(AfterRound(s, port).Get(k), port)
  {
    RoundOfEntry(s, k, port);
    LoopbackIsLocal(true, port);
    RestoredEntryOursIff(Proxy(true, LOOPBACK, port), s.Get(k), port);
  }

  /** A failing case of RoundTripIff: an entry that pointed at the app comes back switched off. */
  lemma OwnEntryIsSwitchedOff(s: Settings, k: Kind, port: int)
    requires 0 < port <= 65535 && Ours(s.Get(k), port)
    ensures !AfterRound(s, port).Get(k).enabled
  {
    RoundOfEntry(s, k, port);
    LoopbackIsLocal(true, port);
  }

  /**
    A failing case of SetPrefixUndoneIff: automatic configuration stays off if the
    set stopped right after that step.
   */
  lemma AutoStaysOff(s: Settings, port: int)
    requires 0 < port <= 65535 && s.autoOn && !AnyOurs(s, port)
    ensures var orig := Captured(s, port); !Restored(RunAll(SetSteps(orig, port)[..1], s), orig, port).autoOn
  {
    SetPrefixUndoneIff(s, port, 1);
  }
}
