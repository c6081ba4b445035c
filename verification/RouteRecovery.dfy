/**
  What recovery amounts to when lines fail without anyone noticing: almost every
  setup line and every teardown line ends in `|| true`, so a batch that reports
  success may have skipped any of them.
 */
module RouteRecovery {
  import opened Options
  import opened LinuxRoutes

  // ------------------------------------------------------------------ runs with skipped lines

  /** The lines that took effect. */
  ghost function Done(cmds: seq<Cmd>, ok: seq<bool>): set<Cmd>
    requires |ok| <= |cmds|
    decreases |ok|
  {
    if ok == [] then {} else (if ok[0] then {cmds[0]} else {}) + Done(cmds[1..], ok[1..])
  }

  lemma {:induction false} DoneExactly(cmds: seq<Cmd>, ok: seq<bool>, c: Cmd)
    requires |ok| <= |cmds|
    ensures c in Done(cmds, ok) <==> exists u :: 0 <= u < |ok| && ok[u] && cmds[u] == c
    decreases |ok|
  {
    if ok != [] {
      DoneExactly(cmds[1..], ok[1..], c);
      if c in Done(cmds[1..], ok[1..]) {
        var u :| 0 <= u < |ok| - 1 && ok[1..][u] && cmds[1..][u] == c;
        assert ok[u + 1] && cmds[u + 1] == c;
      }
      if u :| 0 <= u < |ok| && ok[u] && cmds[u] == c && u != 0 {
        assert ok[1..][u - 1] && cmds[1..][u - 1] == c;
      }
    }
  }

  ghost function Every(n: nat): (ok: seq<bool>)
    ensures |ok| == n
  {
    if n == 0 then [] else [true] + Every(n - 1)
  }

  /** Running everything is running with every line taking effect. */
  lemma {:induction false} RunAllIsRunSome(cmds: seq<Cmd>, s: System)
    ensures RunAll(cmds, s) == RunSome(cmds, Every(|cmds|), s)
    ensures forall c :: c in Done(cmds, Every(|cmds|)) <==> c in cmds
  {
    if cmds != [] {
      RunAllIsRunSome(cmds[1..], Effect(cmds[0], s));
      assert Every(|cmds|)[1..] == Every(|cmds| - 1);
      assert forall c :: c in cmds <==> c == cmds[0] || c in cmds[1..];
    }
  }

  lemma RunNone(cmds: seq<Cmd>, s: System)
    ensures RunSome(cmds, [], s) == s
  {
  }

  /** One more line. */
  lemma {:induction false} RunSomeSnoc(cmds: seq<Cmd>, ok: seq<bool>, works: bool, s: System)
    requires |ok| < |cmds|
    ensures RunSome(cmds, ok + [works], s) ==
      if works then Effect(cmds[|ok|], RunSome(cmds, ok, s)) else RunSome(cmds, ok, s)
    decreases |ok|
  {
    if ok == [] {
      assert ([] + [works])[1..] == [];
    } else {
      assert (ok + [works])[1..] == ok[1..] + [works];
      RunSomeSnoc(cmds[1..], ok[1..], works, if ok[0] then Effect(cmds[0], s) else s);
    }
  }

  // ------------------------------------------------------------------ what a run of teardown lines removes

  predicate Undoes(c: Cmd) {
    c.DelRule? || c.DelRoute? || c.DeleteFw? || c.RevertLink? || c.CopyBackupBack? || c.RemoveBackup? || c.FlushCaches?
  }

  ghost predicate AllUndo(cmds: seq<Cmd>) { forall i :: 0 <= i < |cmds| ==> Undoes(cmds[i]) }

  lemma {:induction false} RulesLeft(cmds: seq<Cmd>, ok: seq<bool>, s: System, r: Rule)
    requires |ok| <= |cmds| && AllUndo(cmds)
    ensures r in RunSome(cmds, ok, s).rules <==> r in s.rules && DelRule(r) !in Done(cmds, ok)
    decreases |ok|
  {
    if ok != [] { RulesLeft(cmds[1..], ok[1..], if ok[0] then Effect(cmds[0], s) else s, r); }
  }

  lemma {:induction false} RoutesLeft(cmds: seq<Cmd>, ok: seq<bool>, s: System, r: Route)
    requires |ok| <= |cmds| && AllUndo(cmds)
    ensures r in RunSome(cmds, ok, s).routes <==> r in s.routes && DelRoute(r) !in Done(cmds, ok)
    decreases |ok|
  {
    if ok != [] { RoutesLeft(cmds[1..], ok[1..], if ok[0] then Effect(cmds[0], s) else s, r); }
  }

  lemma {:induction false} LinksLeft(cmds: seq<Cmd>, ok: seq<bool>, s: System, d: string)
    requires |ok| <= |cmds| && AllUndo(cmds)
    ensures d in RunSome(cmds, ok, s).links <==> d in s.links && RevertLink(d) !in Done(cmds, ok)
    ensures d in RunSome(cmds, ok, s).links ==> RunSome(cmds, ok, s).links[d] == s.links[d]
    decreases |ok|
  {
    if ok != [] { LinksLeft(cmds[1..], ok[1..], if ok[0] then Effect(cmds[0], s) else s, d); }
  }

  /** The backup is removed only after it was copied back. */
  ghost predicate CopyFirst(cmds: seq<Cmd>) {
    forall t, u :: 0 <= t < u < |cmds| && cmds[t].RemoveBackup? ==> !cmds[u].CopyBackupBack?
  }

  lemma {:induction false} ResolvLeft(cmds: seq<Cmd>, ok: seq<bool>, s: System)
    requires |ok| <= |cmds| && AllUndo(cmds) && CopyFirst(cmds)
    ensures RunSome(cmds, ok, s).backup == if RemoveBackup in Done(cmds, ok) then None else s.backup
    ensures RunSome(cmds, ok, s).resolvConf ==
      if CopyBackupBack in Done(cmds, ok) && s.backup.Some? then s.backup else s.resolvConf
    decreases |ok|
  {
    if ok != [] {
      ResolvLeft(cmds[1..], ok[1..], if ok[0] then Effect(cmds[0], s) else s);
      if ok[0] && cmds[0].RemoveBackup? { NoMoreCopies(cmds[1..], ok[1..]); }
    }
  }

  lemma {:induction false} NoMoreCopies(cmds: seq<Cmd>, ok: seq<bool>)
    requires |ok| <= |cmds| && forall i :: 0 <= i < |cmds| ==> !cmds[i].CopyBackupBack?
    ensures CopyBackupBack !in Done(cmds, ok)
    decreases |ok|
  {
    if ok != [] { NoMoreCopies(cmds[1..], ok[1..]); }
  }

  /** No firewall rule is deleted by two lines. */
  ghost predicate DeletesOnce(cmds: seq<Cmd>) {
    forall t, u :: 0 <= t < u < |cmds| && cmds[t].DeleteFw? ==> cmds[u] != cmds[t]
  }

  /** A line whose rule nobody deletes leaves its count alone. */
  lemma {:induction false} FwCountLeft(cmds: seq<Cmd>, ok: seq<bool>, s: System, ch: Chain, r: FwRule)
    requires |ok| <= |cmds| && AllUndo(cmds) && DeletesOnce(cmds)
    ensures multiset(RunSome(cmds, ok, s).Fw(ch))[r] ==
      if DeleteFw(ch, r) in Done(cmds, ok) && multiset(s.Fw(ch))[r] > 0
      then multiset(s.Fw(ch))[r] - 1 else multiset(s.Fw(ch))[r]
    decreases |ok|
  {
    if ok != [] {
      var s' := if ok[0] then Effect(cmds[0], s) else s;
      FwCountLeft(cmds[1..], ok[1..], s', ch, r);
      FwCountAfter(cmds[0], s, ch, r);
      if cmds[0] == DeleteFw(ch, r) { DoneIsListed(cmds[1..], ok[1..], cmds[0]); }
    }
  }

  lemma FwCountAfter(c: Cmd, s: System, ch: Chain, r: FwRule)
    requires Undoes(c)
    ensures multiset(Effect(c, s).Fw(ch))[r] ==
      if c == DeleteFw(ch, r) && multiset(s.Fw(ch))[r] > 0 then multiset(s.Fw(ch))[r] - 1 else multiset(s.Fw(ch))[r]
  {
    ChainAfter(c, s, ch);
    hide Effect, RemoveFirst;
    if c.DeleteFw? && c.chain == ch { RemoveFirstCounts(s.Fw(ch), c.fw); }
  }

  lemma ChainAfter(c: Cmd, s: System, ch: Chain)
    requires Undoes(c)
    ensures Effect(c, s).Fw(ch) == if c.DeleteFw? && c.chain == ch then RemoveFirst(s.Fw(ch), c.fw) else s.Fw(ch)
  {
    hide RemoveFirst;
  }

  lemma {:induction false} DoneIsListed(cmds: seq<Cmd>, ok: seq<bool>, c: Cmd)
    requires |ok| <= |cmds| && forall i :: 0 <= i < |cmds| ==> cmds[i] != c
    ensures c !in Done(cmds, ok)
    decreases |ok|
  {
    if ok != [] { DoneIsListed(cmds[1..], ok[1..], c); }
  }

  /** Leaving out deletions of absent rules makes no difference to a chain. */
  lemma {:induction false} FwSameIfAbsent(cmds: seq<Cmd>, ok: seq<bool>, s: System, ch: Chain)
    requires |ok| == |cmds| && AllUndo(cmds) && DeletesOnce(cmds)
    requires forall t :: 0 <= t < |cmds| && !ok[t] && cmds[t].DeleteFw? && cmds[t].chain == ch ==>
      cmds[t].fw !in s.Fw(ch)
    ensures RunSome(cmds, ok, s).Fw(ch) == RunAll(cmds, s).Fw(ch)
    decreases |ok|
  {
    if ok != [] {
      var s1 := if ok[0] then Effect(cmds[0], s) else s;
      var s2 := Effect(cmds[0], s);
      if cmds[0].DeleteFw? && cmds[0].chain == ch {
        RemoveFirstShrinks(s.Fw(ch), cmds[0].fw);
        if !ok[0] { RemoveFirstAbsent(s.Fw(ch), cmds[0].fw); }
      }
      assert s1.Fw(ch) == s2.Fw(ch);
      forall t | 0 <= t < |cmds| - 1 && !ok[1..][t] && cmds[1..][t].DeleteFw? && cmds[1..][t].chain == ch
        ensures cmds[1..][t].fw !in s1.Fw(ch)
      {
        assert !ok[t + 1] && cmds[t + 1] == cmds[1..][t];
      }
      FwSameIfAbsent(cmds[1..], ok[1..], s1, ch);
      OnlyTheChainMatters(cmds[1..], s1, s2, ch);
    }
  }

  lemma {:induction false} RemoveFirstShrinks(rs: seq<FwRule>, r: FwRule)
    ensures forall x :: x in RemoveFirst(rs, r) ==> x in rs
  {
    if rs != [] { RemoveFirstShrinks(rs[1..], r); }
  }

  lemma {:induction false} OnlyTheChainMatters(cmds: seq<Cmd>, s: System, s': System, ch: Chain)
    requires AllUndo(cmds) && s.Fw(ch) == s'.Fw(ch)
    ensures RunAll(cmds, s).Fw(ch) == RunAll(cmds, s').Fw(ch)
  {
    if cmds != [] {
      assert Effect(cmds[0], s).Fw(ch) == Effect(cmds[0], s').Fw(ch);
      OnlyTheChainMatters(cmds[1..], Effect(cmds[0], s), Effect(cmds[0], s'), ch);
    }
  }

  // ------------------------------------------------------------------ when skipped lines matter

  /** Every line that would have had an effect took it. */
  ghost predicate NothingMissed(cmds: seq<Cmd>, ok: seq<bool>, s: System)
    requires |ok| == |cmds|
  {
    forall t :: 0 <= t < |cmds| && !ok[t] ==>
      Effect(cmds[t], s) == s || exists u :: 0 <= u < |cmds| && ok[u] && cmds[u] == cmds[t]
  }

  lemma MissedByDone(cmds: seq<Cmd>, ok: seq<bool>, s: System)
    requires |ok| == |cmds|
    ensures NothingMissed(cmds, ok, s) <==> forall t :: 0 <= t < |cmds| && cmds[t] !in Done(cmds, ok) ==>
      Effect(cmds[t], s) == s
  {
    forall t | 0 <= t < |cmds|
      ensures cmds[t] in Done(cmds, ok) <==> exists u :: 0 <= u < |cmds| && ok[u] && cmds[u] == cmds[t]
    {
      DoneExactly(cmds, ok, cmds[t]);
    }
  }

  /** A teardown line that has nothing to do, kind by kind. */
  predicate NothingToDo(c: Cmd, s: System)
    requires Undoes(c)
  {
    match c
    case DelRule(r) => r !in s.rules
    case DelRoute(r) => r !in s.routes
    case DeleteFw(ch, r) => r !in s.Fw(ch)
    case RevertLink(d) => d !in s.links
    case CopyBackupBack => s.backup.Some? ==> s.resolvConf == s.backup
    case RemoveBackup => s.backup.None?
    case _ => true
  }

  lemma NothingToDoIff(c: Cmd, s: System)
    requires Undoes(c)
    ensures NothingToDo(c, s) <==> Effect(c, s) == s
  {
    match c {
      case DelRule(r) => if r !in s.rules { assert s.rules - {r} == s.rules; }
      case DelRoute(r) => if r !in s.routes { assert s.routes - {r} == s.routes; }
      case RevertLink(d) => if d !in s.links { assert s.links - {d} == s.links; }
      case DeleteFw(ch, r) => NothingToDeleteIff(ch, r, s);
      case _ =>
    }
  }

  lemma NothingToDeleteIff(ch: Chain, r: FwRule, s: System)
    ensures r !in s.Fw(ch) <==> Effect(DeleteFw(ch, r), s) == s
  {
    assert Effect(DeleteFw(ch, r), s).Fw(ch) == RemoveFirst(s.Fw(ch), r);
    if r in s.Fw(ch) {
      RemoveFirstCounts(s.Fw(ch), r);
      assert r in multiset(s.Fw(ch));
      assert multiset(RemoveFirst(s.Fw(ch), r))[r] != multiset(s.Fw(ch))[r];
    } else {
      RemoveFirstAbsent(s.Fw(ch), r);
    }
  }

  ghost predicate Teardownish(cmds: seq<Cmd>) { AllUndo(cmds) && CopyFirst(cmds) && DeletesOnce(cmds) }

  /** What one line does not touch, in a run that skips it and in one that skips nothing. */
  lemma SkippedLineShows(cmds: seq<Cmd>, ok: seq<bool>, s: System, t: nat)
    requires |ok| == |cmds| && Teardownish(cmds) && t < |cmds| && cmds[t] !in Done(cmds, ok)
    requires RunSome(cmds, ok, s) == RunAll(cmds, s)
    ensures Effect(cmds[t], s) == s
  {
    var every := Every(|cmds|);
    RunAllIsRunSome(cmds, s);
    NothingToDoIff(cmds[t], s);
    assert cmds[t] in Done(cmds, every);
    match cmds[t] {
      case DelRule(r) =>
        RulesLeft(cmds, ok, s, r);
        RulesLeft(cmds, every, s, r);
      case DelRoute(r) =>
        RoutesLeft(cmds, ok, s, r);
        RoutesLeft(cmds, every, s, r);
      case DeleteFw(ch, r) =>
        FwCountLeft(cmds, ok, s, ch, r);
        FwCountLeft(cmds, every, s, ch, r);
      case RevertLink(d) =>
        LinksLeft(cmds, ok, s, d);
        LinksLeft(cmds, every, s, d);
      case _ =>
        ResolvLeft(cmds, ok, s);
        ResolvLeft(cmds, every, s);
    }
  }

  lemma HarmlessSkips(cmds: seq<Cmd>, ok: seq<bool>, s: System)
    requires |ok| == |cmds| && Teardownish(cmds)
    requires forall t :: 0 <= t < |cmds| && cmds[t] !in Done(cmds, ok) ==> Effect(cmds[t], s) == s
    ensures RunSome(cmds, ok, s) == RunAll(cmds, s)
  {
    hide Effect;
    var every := Every(|cmds|);
    RunAllIsRunSome(cmds, s);
    var a, b := RunSome(cmds, ok, s), RunSome(cmds, every, s);
    forall c | c in cmds && c !in Done(cmds, ok) ensures Undoes(c) && Effect(c, s) == s { }
    forall r ensures r in a.rules <==> r in b.rules {
      RulesLeft(cmds, ok, s, r);
      RulesLeft(cmds, every, s, r);
      HarmlessSkip(cmds, ok, s, DelRule(r));
    }
    forall r ensures r in a.routes <==> r in b.routes {
      RoutesLeft(cmds, ok, s, r);
      RoutesLeft(cmds, every, s, r);
      HarmlessSkip(cmds, ok, s, DelRoute(r));
    }
    forall d ensures (d in a.links <==> d in b.links) && (d in a.links ==> a.links[d] == b.links[d]) {
      LinksLeft(cmds, ok, s, d);
      LinksLeft(cmds, every, s, d);
      HarmlessSkip(cmds, ok, s, RevertLink(d));
    }
    assert a.links == b.links;
    ResolvLeft(cmds, ok, s);
    ResolvLeft(cmds, every, s);
    HarmlessSkip(cmds, ok, s, CopyBackupBack);
    HarmlessSkip(cmds, ok, s, RemoveBackup);
    forall ch ensures a.Fw(ch) == b.Fw(ch) { HarmlessChain(cmds, ok, s, ch); }
    assert a.Fw(Output4) == b.Fw(Output4) && a.Fw(Output6) == b.Fw(Output6) && a.Fw(NatOutput4) == b.Fw(NatOutput4);
  }

  lemma HarmlessSkip(cmds: seq<Cmd>, ok: seq<bool>, s: System, c: Cmd)
    requires |ok| == |cmds| && Undoes(c)
    requires forall t :: 0 <= t < |cmds| && cmds[t] !in Done(cmds, ok) ==> Effect(cmds[t], s) == s
    ensures c in cmds && c !in Done(cmds, ok) ==> Effect(c, s) == s
    ensures NothingToDo(c, s) <==> Effect(c, s) == s
    ensures c in Done(cmds, ok) ==> c in cmds
  {
    NothingToDoIff(c, s);
    DoneExactly(cmds, ok, c);
  }

  lemma HarmlessChain(cmds: seq<Cmd>, ok: seq<bool>, s: System, ch: Chain)
    requires |ok| == |cmds| && Teardownish(cmds)
    requires forall t :: 0 <= t < |cmds| && cmds[t] !in Done(cmds, ok) ==> Effect(cmds[t], s) == s
    ensures RunSome(cmds, ok, s).Fw(ch) == RunAll(cmds, s).Fw(ch)
  {
    forall t | 0 <= t < |cmds| && !ok[t] && cmds[t].DeleteFw? && cmds[t].chain == ch ensures cmds[t].fw !in s.Fw(ch) {
      DoneExactly(cmds, ok, cmds[t]);
      NothingToDoIff(cmds[t], s);
    }
    FwSameIfAbsent(cmds, ok, s, ch);
  }

  /** Every line of a teardown is masked, so a run that reports success may have skipped any of them. */
  lemma TeardownIsMasked(ctx: RouteContext, tun: Tun)
    ensures forall c :: c in TeardownBatch(ctx, tun) ==> Masked(c)
  {
    TeardownIsCovered(ctx, tun);
  }

  lemma TeardownIsTeardownish(ctx: RouteContext, tun: Tun)
    ensures Teardownish(TeardownBatch(ctx, tun))
  {
    hide TeardownBatch, DelAddressLines;
    var cmds := TeardownBatch(ctx, tun);
    forall t | 0 <= t < |cmds| ensures Undoes(cmds[t]) {
      TeardownKind(ctx, tun, t);
    }
    forall t, u | 0 <= t < u < |cmds| && cmds[t].RemoveBackup? ensures !cmds[u].CopyBackupBack? {
      TeardownKind(ctx, tun, t);
      TeardownKind(ctx, tun, u);
    }
    forall t, u | 0 <= t < u < |cmds| && cmds[t].DeleteFw? ensures cmds[u] != cmds[t] {
      TeardownKind(ctx, tun, t);
      TeardownKind(ctx, tun, u);
    }
  }

  /** Where the lines that matter stand. */
  lemma TeardownKind(ctx: RouteContext, tun: Tun, t: nat)
    requires t < |TeardownBatch(ctx, tun)|
    ensures var a := |DelAddressLines(ctx)|;
      var q := a + |DelQuicLines(tun)|;
      var d := q + |UndoDnsLines(ctx, tun)|;
      var c := TeardownBatch(ctx, tun)[t];
      && Undoes(c)
      && (c.CopyBackupBack? ==> t == q) && (c.RemoveBackup? ==> t == q + 1)
      && (c.DeleteFw? ==>
            || (t == a && c.chain == Output4)
            || (t == a + 1 && c.chain == Output6)
            || (t == d && c == DeleteFw(NatOutput4, RedirectDns(Udp, ctx.redirectPort)))
            || (t == d + 1 && c == DeleteFw(NatOutput4, RedirectDns(Tcp, ctx.redirectPort))))
  {
    hide TeardownBatch, DelAddressLines;
    TeardownAt(ctx, tun, t);
    if t < |DelAddressLines(ctx)| { AddressLineAt(ctx, tun, t); }
  }

  /**
    A teardown that skips some lines does what a complete one does exactly when
    every skipped line had nothing to do, or was done by another line that is the
    same; from any system.
   */
  lemma SkippingMattersIff(ctx: RouteContext, tun: Tun, ok: seq<bool>, s: System)
    requires |ok| == |TeardownBatch(ctx, tun)|
    ensures var cmds := TeardownBatch(ctx, tun);
      RunSome(cmds, ok, s) == RunAll(cmds, s) <==> NothingMissed(cmds, ok, s)
  {
    var cmds := TeardownBatch(ctx, tun);
    TeardownIsTeardownish(ctx, tun);
    MissedByDone(cmds, ok, s);
    if RunSome(cmds, ok, s) == RunAll(cmds, s) {
      forall t | 0 <= t < |cmds| && cmds[t] !in Done(cmds, ok) ensures Effect(cmds[t], s) == s {
        SkippedLineShows(cmds, ok, s, t);
      }
    } else if forall t :: 0 <= t < |cmds| && cmds[t] !in Done(cmds, ok) ==> Effect(cmds[t], s) == s {
      HarmlessSkips(cmds, ok, s);
    }
  }

  /** So from wherever a complete teardown leads home, one with skipped lines does exactly if nothing was missed. */
  lemma HomeIffNothingMissed(ctx: RouteContext, tun: Tun, ok: seq<bool>, home: System, s: System)
    requires |ok| == |TeardownBatch(ctx, tun)| && RunAll(TeardownBatch(ctx, tun), s) == home
    ensures RunSome(TeardownBatch(ctx, tun), ok, s) == home <==> NothingMissed(TeardownBatch(ctx, tun), ok, s)
  {
    SkippingMattersIff(ctx, tun, ok, s);
  }

  /**
    Setup, cut anywhere with any of its lines failing, and then a teardown that
    reports success: on a clean machine with no lost backup, home comes back
    exactly if no teardown line was missed; and if none was, exactly on a clean
    machine with no lost backup.
   */
  lemma SetupThenTeardownIff(plan: Plan, env: Env, okSetup: seq<bool>, okTeardown: seq<bool>, home: System)
    requires SetupBatch(plan, env).Batch? && |okSetup| <= |SetupBatch(plan, env).cmds|
    requires |okTeardown| == |TeardownBatch(SetupBatch(plan, env).ctx, plan.tun)|
    ensures var b := SetupBatch(plan, env);
      var s := RunSome(b.cmds, okSetup, home);
      var cmds := TeardownBatch(b.ctx, plan.tun);
      var clean := Clean(b.ctx, plan.tun, home) && (b.ctx.dnsMode == ResolvConfFile ==> !BackupLost(home, s));
      && (clean ==> (RunSome(cmds, okTeardown, s) == home <==> NothingMissed(cmds, okTeardown, s)))
      && (NothingMissed(cmds, okTeardown, s) ==> (RunSome(cmds, okTeardown, s) == home <==> clean))
  {
    hide SetupBatch, TeardownBatch, RunSome, RunAll, NothingMissed, Clean;
    var b := SetupBatch(plan, env);
    TeardownUndoesAnySetupPrefix(plan, env, okSetup, home);
    SkippingMattersIff(b.ctx, plan.tun, okTeardown, RunSome(b.cmds, okSetup, home));
  }

  /** The failing case for a route: the tunnel's rule stays if just its deletion is skipped. */
  lemma SkippedRuleStays(ctx: RouteContext, tun: Tun, ok: seq<bool>, s: System)
    requires |ok| == |TeardownBatch(ctx, tun)| && TunRule(V4, tun) in s.rules
    requires forall t :: 0 <= t < |ok| ==> (ok[t] <==> TeardownBatch(ctx, tun)[t] != DelRule(TunRule(V4, tun)))
    ensures TunRule(V4, tun) in RunSome(TeardownBatch(ctx, tun), ok, s).rules
  {
    TeardownIsTeardownish(ctx, tun);
    DoneExactly(TeardownBatch(ctx, tun), ok, DelRule(TunRule(V4, tun)));
    RulesLeft(TeardownBatch(ctx, tun), ok, s, TunRule(V4, tun));
  }

  /** The failing case for the resolver: if just copying back is skipped, the backup is gone and the file as it was. */
  lemma SkippedCopyLosesTheBackup(ctx: RouteContext, tun: Tun, ok: seq<bool>, s: System)
    requires |ok| == |TeardownBatch(ctx, tun)| && ctx.dnsMode == ResolvConfFile
    requires forall t :: 0 <= t < |ok| ==> (ok[t] <==> !TeardownBatch(ctx, tun)[t].CopyBackupBack?)
    ensures var s' := RunSome(TeardownBatch(ctx, tun), ok, s); s'.backup.None? && s'.resolvConf == s.resolvConf
  {
    TeardownIsTeardownish(ctx, tun);
    var cmds := TeardownBatch(ctx, tun);
    DoneExactly(cmds, ok, CopyBackupBack);
    DoneExactly(cmds, ok, RemoveBackup);
    var t := |DelAddressLines(ctx)| + |DelQuicLines(tun)| + 1;
    TeardownAt(ctx, tun, t);
    assert cmds[t] == RemoveBackup && ok[t];
    ResolvLeft(cmds, ok, s);
  }

  // ------------------------------------------------------------------ where teardown leads

  /** A machine is clean for a record exactly if tearing down would change nothing. */
  lemma CleanIff(ctx: RouteContext, tun: Tun, s: System)
    ensures Clean(ctx, tun, s) <==> RunAll(TeardownBatch(ctx, tun), s) == s
  {
    TeardownResult(ctx, tun, s);
    var e := AfterTeardown(ctx, tun, s);
    assert s.rules - TargetRules(ctx, tun) == s.rules <==> s.rules !! TargetRules(ctx, tun);
    assert s.routes - TargetRoutes(tun) == s.routes <==> s.routes !! TargetRoutes(tun);
    forall c
      ensures RemoveEach(s.Fw(c), TargetFw(ctx, tun, c)) == s.Fw(c) <==>
        forall r :: r in TargetFw(ctx, tun, c) ==> r !in s.Fw(c)
    {
      StartsBetween(ctx, tun, s);
      TargetsDistinct(ctx, tun, c);
      ChainRestored(s.Fw(c), TargetFw(ctx, tun, c), s.Fw(c));
    }
    forall c ensures e.Fw(c) == RemoveEach(s.Fw(c), TargetFw(ctx, tun, c)) { }
    assert (e.Fw(Output4) == s.Fw(Output4) && e.Fw(Output6) == s.Fw(Output6) && e.Fw(NatOutput4) == s.Fw(NatOutput4))
      <==> forall c, r :: r in TargetFw(ctx, tun, c) ==> r !in s.Fw(c);
    LinksRestored(s.links, s.links, tun.interfaceName);
  }

  /** What an effective setup line can lose: a backup that was there already, or a resolver file that has none. */
  predicate SetupLineLoses(c: Cmd, s: System) {
    match c
    case BackUpResolvConf => s.resolvConf.Some? && s.backup.Some? && s.backup != s.resolvConf
    case OverwriteResolvConf(a) => s.backup.None? && s.resolvConf != Some(ResolvFor(a))
    case _ => false
  }

  /** Two machines that differ in one firewall chain only. */
  ghost predicate SameBut(ch: Chain, s: System, t: System) {
    && t == System(s.rules, s.routes, t.output4, t.output6, t.natOutput4, s.links, s.resolvConf, s.backup)
    && forall x :: x != ch ==> t.Fw(x) == s.Fw(x)
  }

  lemma SameAfterIff(ctx: RouteContext, tun: Tun, s: System, t: System, ch: Chain)
    requires SameBut(ch, s, t)
    ensures AfterTeardown(ctx, tun, t) == AfterTeardown(ctx, tun, s) <==>
      RemoveEach(t.Fw(ch), TargetFw(ctx, tun, ch)) == RemoveEach(s.Fw(ch), TargetFw(ctx, tun, ch))
  {
    hide TargetRules, TargetRoutes, TargetFw, RemoveEach;
    assert ch != Output4 ==> t.Fw(Output4) == s.Fw(Output4);
    assert ch != Output6 ==> t.Fw(Output6) == s.Fw(Output6);
    assert ch != NatOutput4 ==> t.Fw(NatOutput4) == s.Fw(NatOutput4);
  }

  lemma InsertionStays(ctx: RouteContext, tun: Tun, s: System, ch: Chain, r: FwRule)
    requires r in TargetFw(ctx, tun, ch)
    ensures AfterTeardown(ctx, tun, Effect(EnsureFw(ch, r), s)) == AfterTeardown(ctx, tun, s)
  {
    hide AfterTeardown, TargetFw, RemoveEach;
    if r !in s.Fw(ch) {
      SameAfterIff(ctx, tun, s, Effect(EnsureFw(ch, r), s), ch);
      RemoveEachOfInserted(s.Fw(ch), r, TargetFw(ctx, tun, ch));
    }
  }

  /** A setup line never changes where a complete teardown leads, except when it loses something. */
  lemma SetupLineMovesIff(ctx: RouteContext, tun: Tun, s: System, c: Cmd)
    requires SetupLine(ctx, tun, c)
    ensures RunAll(TeardownBatch(ctx, tun), Effect(c, s)) == RunAll(TeardownBatch(ctx, tun), s) <==>
      !SetupLineLoses(c, s)
  {
    hide TeardownBatch, RunAll, TargetRules, TargetRoutes, TargetFw, RemoveEach;
    TeardownResult(ctx, tun, s);
    TeardownResult(ctx, tun, Effect(c, s));
    match c {
      case EnsureFw(ch, r) => InsertionStays(ctx, tun, s, ch, r);
      case AddRule(r) =>
        assert (s.rules + {r}) - TargetRules(ctx, tun) == s.rules - TargetRules(ctx, tun);
      case AddRoute(r) =>
        assert (s.routes + {r}) - TargetRoutes(tun) == s.routes - TargetRoutes(tun);
      case SetLinkServer(d, a) =>
        assert s.links[d := LinkOf(s, d).(server := a)] - {d} == s.links - {d};
      case SetLinkCatchAll(d) =>
        assert s.links[d := LinkOf(s, d).(catchAll := true)] - {d} == s.links - {d};
      case _ =>
    }
  }

  lemma {:induction false} RemoveEachOfInserted(rs: seq<FwRule>, r: FwRule, targets: seq<FwRule>)
    requires r !in rs && r in targets
    ensures RemoveEach([r] + rs, targets) == RemoveEach(rs, targets)
    decreases |targets|
  {
    assert targets == [targets[0]] + targets[1..];
    assert ([r] + rs)[1..] == rs;
    if targets[0] == r {
      RemoveFirstAbsent(rs, r);
    } else {
      RemoveFirstShrinks(rs, targets[0]);
      RemoveEachOfInserted(RemoveFirst(rs, targets[0]), r, targets[1..]);
    }
  }

  /** What an effective teardown line can lose: a backup not copied back, or one of several equal firewall rules. */
  predicate TeardownLineLoses(c: Cmd, s: System) {
    match c
    case RemoveBackup => s.backup.Some? && s.backup != s.resolvConf
    case DeleteFw(ch, r) => multiset(s.Fw(ch))[r] > 1
    case _ => false
  }

  lemma DeletionMovesIff(ctx: RouteContext, tun: Tun, s: System, ch: Chain, r: FwRule)
    requires r in TargetFw(ctx, tun, ch)
    ensures AfterTeardown(ctx, tun, Effect(DeleteFw(ch, r), s)) == AfterTeardown(ctx, tun, s) <==>
      multiset(s.Fw(ch))[r] <= 1
  {
    TargetsDistinct(ctx, tun, ch);
    hide AfterTeardown, TargetFw, RemoveEach, RemoveFirst;
    SameAfterIff(ctx, tun, s, Effect(DeleteFw(ch, r), s), ch);
    RemoveEachOfDeleted(s.Fw(ch), r, TargetFw(ctx, tun, ch));
  }

  lemma TeardownLineMovesIff(ctx: RouteContext, tun: Tun, s: System, c: Cmd)
    requires TeardownLine(ctx, tun, c)
    ensures RunAll(TeardownBatch(ctx, tun), Effect(c, s)) == RunAll(TeardownBatch(ctx, tun), s) <==>
      !TeardownLineLoses(c, s)
  {
    hide TeardownBatch, RunAll, TargetRules, TargetRoutes, TargetFw, RemoveEach, RemoveFirst;
    TeardownResult(ctx, tun, s);
    TeardownResult(ctx, tun, Effect(c, s));
    match c {
      case DeleteFw(ch, r) => DeletionMovesIff(ctx, tun, s, ch, r);
      case DelRule(r) =>
        assert (s.rules - {r}) - TargetRules(ctx, tun) == s.rules - TargetRules(ctx, tun);
      case DelRoute(r) =>
        assert (s.routes - {r}) - TargetRoutes(tun) == s.routes - TargetRoutes(tun);
      case RevertLink(d) =>
        assert s.links - {d} - {d} == s.links - {d};
      case _ =>
    }
  }

  /** Deleting a target twice differs from deleting it once exactly if it is there more than once. */
  lemma RemoveEachOfDeleted(rs: seq<FwRule>, r: FwRule, targets: seq<FwRule>)
    requires r in targets && Distinct(targets)
    ensures RemoveEach(RemoveFirst(rs, r), targets) == RemoveEach(rs, targets) <==> multiset(rs)[r] <= 1
  {
    RemoveFirstCounts(rs, r);
    RemoveEachCounts(rs, targets);
    RemoveEachCounts(RemoveFirst(rs, r), targets);
    CountOfDistinct(targets, r);
    if multiset(rs)[r] <= 1 {
      RemoveEachWithout(rs, r, targets);
    } else {
      assert multiset(RemoveEach(RemoveFirst(rs, r), targets))[r] != multiset(RemoveEach(rs, targets))[r];
    }
  }

  lemma {:induction false} RemoveEachWithout(rs: seq<FwRule>, r: FwRule, targets: seq<FwRule>)
    requires r in targets && multiset(rs)[r] <= 1
    ensures RemoveEach(RemoveFirst(rs, r), targets) == RemoveEach(rs, targets)
    decreases |targets|
  {
    assert targets == [targets[0]] + targets[1..];
    RemoveFirstCounts(rs, r);
    RemoveFirstCounts(rs, targets[0]);
    if targets[0] == r {
      assert r !in multiset(RemoveFirst(rs, r));
      RemoveFirstAbsent(RemoveFirst(rs, r), r);
    } else {
      RemoveFirstCommutes(rs, r, targets[0]);
      RemoveEachWithout(RemoveFirst(rs, targets[0]), r, targets[1..]);
    }
  }

  lemma {:induction false} RemoveFirstCommutes(rs: seq<FwRule>, a: FwRule, b: FwRule)
    ensures RemoveFirst(RemoveFirst(rs, a), b) == RemoveFirst(RemoveFirst(rs, b), a)
  {
    if rs != [] {
      RemoveFirstCommutes(rs[1..], a, b);
      assert forall xs: seq<FwRule> :: ([rs[0]] + xs)[1..] == xs;
    }
  }

  // ------------------------------------------------------------------ a run that was cut, and then a complete one

  /** What a run of a teardown lost on the way. */
  ghost predicate RunLost(ctx: RouteContext, tun: Tun, ok: seq<bool>, s: System)
    requires |ok| <= |TeardownBatch(ctx, tun)|
  {
    var done := Done(TeardownBatch(ctx, tun), ok);
    || (RemoveBackup in done && CopyBackupBack !in done && s.backup.Some? && s.backup != s.resolvConf)
    || exists ch, r :: DeleteFw(ch, r) in done && multiset(s.Fw(ch))[r] > 1
  }

  /**
    After a teardown that was cut anywhere and skipped any lines, a complete one
    leads where it would have led in the first place, exactly unless the backup
    was removed without having been copied back, or one of several equal firewall
    rules was deleted.
   */
  lemma RetryLeadsThereIff(ctx: RouteContext, tun: Tun, ok: seq<bool>, s: System)
    requires |ok| <= |TeardownBatch(ctx, tun)|
    ensures var cmds := TeardownBatch(ctx, tun);
      RunAll(cmds, RunSome(cmds, ok, s)) == RunAll(cmds, s) <==> !RunLost(ctx, tun, ok, s)
  {
    if RunLost(ctx, tun, ok, s) {
      LossShows(ctx, tun, ok, s);
    } else {
      NoLossStays(ctx, tun, ok, s);
    }
  }

  lemma LossShows(ctx: RouteContext, tun: Tun, ok: seq<bool>, s: System)
    requires |ok| <= |TeardownBatch(ctx, tun)| && RunLost(ctx, tun, ok, s)
    ensures RunAll(TeardownBatch(ctx, tun), RunSome(TeardownBatch(ctx, tun), ok, s)) !=
      RunAll(TeardownBatch(ctx, tun), s)
  {
    var cmds := TeardownBatch(ctx, tun);
    TeardownIsTeardownish(ctx, tun);
    hide TeardownBatch, Effect;
    var t := RunSome(cmds, ok, s);
    RunAllIsRunSome(cmds, s);
    RunAllIsRunSome(cmds, t);
    if ch, r :| DeleteFw(ch, r) in Done(cmds, ok) && multiset(s.Fw(ch))[r] > 1 {
      DoneExactly(cmds, ok, DeleteFw(ch, r));
      FwCountLeft(cmds, ok, s, ch, r);
      FwCountLeft(cmds, Every(|cmds|), s, ch, r);
      FwCountLeft(cmds, Every(|cmds|), t, ch, r);
    } else {
      DoneExactly(cmds, ok, RemoveBackup);
      ResolvLeft(cmds, ok, s);
      ResolvLeft(cmds, Every(|cmds|), s);
      ResolvLeft(cmds, Every(|cmds|), t);
      CopyIsListed(ctx, tun);
    }
  }

  lemma CopyIsListed(ctx: RouteContext, tun: Tun)
    ensures RemoveBackup in TeardownBatch(ctx, tun) ==> CopyBackupBack in TeardownBatch(ctx, tun)
  {
    TeardownIsCovered(ctx, tun);
    var cmds := TeardownBatch(ctx, tun);
    if i :| 0 <= i < |cmds| && cmds[i] == RemoveBackup { assert cmds[i - 1] in cmds; }
  }

  lemma LostStaysLost(ctx: RouteContext, tun: Tun, ok: seq<bool>, works: bool, s: System)
    requires |ok| < |TeardownBatch(ctx, tun)|
    ensures RunLost(ctx, tun, ok, s) ==> RunLost(ctx, tun, ok + [works], s)
  {
    var cmds := TeardownBatch(ctx, tun);
    TeardownIsTeardownish(ctx, tun);
    hide TeardownBatch, Done;
    DoneSnoc(cmds, ok, works);
    DoneExactly(cmds, ok, RemoveBackup);
    if cmds[|ok|].CopyBackupBack? {
      assert RemoveBackup !in Done(cmds, ok);
    }
  }

  lemma {:induction false} NoLossStays(ctx: RouteContext, tun: Tun, ok: seq<bool>, s: System)
    requires |ok| <= |TeardownBatch(ctx, tun)| && !RunLost(ctx, tun, ok, s)
    ensures RunAll(TeardownBatch(ctx, tun), RunSome(TeardownBatch(ctx, tun), ok, s)) ==
      RunAll(TeardownBatch(ctx, tun), s)
    decreases |ok|
  {
    var cmds := TeardownBatch(ctx, tun);
    TeardownIsTeardownish(ctx, tun);
    TeardownIsCovered(ctx, tun);
    hide TeardownBatch, Effect, RunAll, RunSome, Done;
    if ok == [] {
      RunNone(cmds, s);
    } else {
      var n := |ok| - 1;
      var before, works := ok[..n], ok[n];
      assert ok == before + [works];
      DoneSnoc(cmds, before, works);
      LostStaysLost(ctx, tun, before, works, s);
      NoLossStays(ctx, tun, before, s);
      RunSomeSnoc(cmds, before, works, s);
      if works {
        NextLineLosesNothing(ctx, tun, before, s);
        TeardownLineMovesIff(ctx, tun, RunSome(cmds, before, s), cmds[n]);
      }
    }
  }

  lemma {:induction false} DoneSnoc(cmds: seq<Cmd>, ok: seq<bool>, works: bool)
    requires |ok| < |cmds|
    ensures Done(cmds, ok + [works]) == Done(cmds, ok) + if works then {cmds[|ok|]} else {}
    decreases |ok|
  {
    if ok == [] {
      assert ([] + [works])[1..] == [];
    } else {
      assert (ok + [works])[1..] == ok[1..] + [works];
      DoneSnoc(cmds[1..], ok[1..], works);
    }
  }

  lemma NextLineLosesNothing(ctx: RouteContext, tun: Tun, ok: seq<bool>, s: System)
    requires |ok| < |TeardownBatch(ctx, tun)| && !RunLost(ctx, tun, ok + [true], s)
    ensures !TeardownLineLoses(TeardownBatch(ctx, tun)[|ok|], RunSome(TeardownBatch(ctx, tun), ok, s))
  {
    var cmds := TeardownBatch(ctx, tun);
    TeardownIsTeardownish(ctx, tun);
    hide TeardownBatch, Effect, RunSome, Done;
    DoneSnoc(cmds, ok, true);
    ResolvLeft(cmds, ok, s);
    match cmds[|ok|] {
      case DeleteFw(ch, r) => FwCountLeft(cmds, ok, s, ch, r);
      case _ =>
    }
  }
}
