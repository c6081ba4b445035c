/**
  Teardowns that are retried, and what the lines of a setup and of a teardown
  have to do for nothing to be lost: the facts behind the helper's safety over
  whole lives.
 */
module RouteRetries {
  import opened Options
  import opened LinuxRoutes
  import opened RouteRecovery

  // ------------------------------------------------------------------ several runs in a row

  /** Each run is a prefix of the batch with a flag per line. */
  ghost predicate AreRuns(cmds: seq<Cmd>, runs: seq<seq<bool>>) { forall i :: 0 <= i < |runs| ==> |runs[i]| <= |cmds| }

  /** The system after one run after the other. */
  ghost function AfterRuns(cmds: seq<Cmd>, runs: seq<seq<bool>>, s: System): System
    requires AreRuns(cmds, runs)
  {
    if runs == [] then s else RunSome(cmds, runs[|runs| - 1], AfterRuns(cmds, runs[..|runs| - 1], s))
  }

  lemma AfterOneMore(cmds: seq<Cmd>, runs: seq<seq<bool>>, ok: seq<bool>, s: System)
    requires AreRuns(cmds, runs) && |ok| <= |cmds|
    ensures AreRuns(cmds, runs + [ok]) && AfterRuns(cmds, runs + [ok], s) == RunSome(cmds, ok, AfterRuns(cmds, runs, s))
  {
    assert (runs + [ok])[..|runs|] == runs;
  }

  /** Some run lost what a later one would have needed. */
  ghost predicate RunsLost(ctx: RouteContext, tun: Tun, runs: seq<seq<bool>>, s: System)
    requires AreRuns(TeardownBatch(ctx, tun), runs)
  {
    if runs == [] then false
    else
      var cut := runs[..|runs| - 1];
      RunsLost(ctx, tun, cut, s) ||
      RunLost(ctx, tun, runs[|runs| - 1], AfterRuns(TeardownBatch(ctx, tun), cut, s))
  }

  /** What only ever shrinks from run to run. */
  ghost predicate Shrunk(s: System, t: System) {
    && (t.backup == s.backup || t.backup.None?)
    && forall ch, r :: multiset(t.Fw(ch))[r] <= multiset(s.Fw(ch))[r]
  }

  lemma RunShrinks(ctx: RouteContext, tun: Tun, ok: seq<bool>, s: System)
    requires |ok| <= |TeardownBatch(ctx, tun)|
    ensures Shrunk(s, RunSome(TeardownBatch(ctx, tun), ok, s))
  {
    TeardownIsTeardownish(ctx, tun);
    hide TeardownBatch, RunSome;
    var cmds := TeardownBatch(ctx, tun);
    ResolvLeft(cmds, ok, s);
    forall ch, r ensures multiset(RunSome(cmds, ok, s).Fw(ch))[r] <= multiset(s.Fw(ch))[r] {
      FwCountLeft(cmds, ok, s, ch, r);
    }
  }

  lemma {:induction false} RunsShrink(ctx: RouteContext, tun: Tun, runs: seq<seq<bool>>, s: System)
    requires AreRuns(TeardownBatch(ctx, tun), runs)
    ensures Shrunk(s, AfterRuns(TeardownBatch(ctx, tun), runs, s))
  {
    if runs != [] {
      var cut := runs[..|runs| - 1];
      RunsShrink(ctx, tun, cut, s);
      RunShrinks(ctx, tun, runs[|runs| - 1], AfterRuns(TeardownBatch(ctx, tun), cut, s));
    }
  }

  /** Between s and t something was lost that no teardown brings back. */
  ghost predicate Gone(ctx: RouteContext, tun: Tun, s: System, t: System) {
    || (ctx.dnsMode == ResolvConfFile && s.backup.Some? && t.backup.None? && t.resolvConf != s.backup)
    || exists ch, r :: r in TargetFw(ctx, tun, ch) && OneGone(s.Fw(ch), t.Fw(ch), r)
  }

  /** A rule that was there several times is there less often. */
  ghost predicate OneGone(before: seq<FwRule>, after: seq<FwRule>, r: FwRule) {
    1 < multiset(before)[r] && multiset(after)[r] < multiset(before)[r]
  }

  /** A complete teardown then leads elsewhere. */
  lemma GoneShows(ctx: RouteContext, tun: Tun, s: System, t: System)
    requires Gone(ctx, tun, s, t)
    ensures RunAll(TeardownBatch(ctx, tun), t) != RunAll(TeardownBatch(ctx, tun), s)
  {
    hide TeardownBatch, RunAll, RemoveEach, TargetFw, TargetRules, TargetRoutes;
    TeardownResult(ctx, tun, s);
    TeardownResult(ctx, tun, t);
    if ch, r :| r in TargetFw(ctx, tun, ch) && OneGone(s.Fw(ch), t.Fw(ch), r) {
      var a, b := AfterTeardown(ctx, tun, s), AfterTeardown(ctx, tun, t);
      assert a.Fw(ch) == RemoveEach(s.Fw(ch), TargetFw(ctx, tun, ch));
      assert b.Fw(ch) == RemoveEach(t.Fw(ch), TargetFw(ctx, tun, ch));
      RemoveEachCounts(s.Fw(ch), TargetFw(ctx, tun, ch));
      RemoveEachCounts(t.Fw(ch), TargetFw(ctx, tun, ch));
      TargetsDistinct(ctx, tun, ch);
      CountOfDistinct(TargetFw(ctx, tun, ch), r);
      assert multiset(a.Fw(ch))[r] != multiset(b.Fw(ch))[r];
    }
  }

  lemma GoneStays(ctx: RouteContext, tun: Tun, ok: seq<bool>, s: System, t: System)
    requires |ok| <= |TeardownBatch(ctx, tun)| && Gone(ctx, tun, s, t)
    ensures Gone(ctx, tun, s, RunSome(TeardownBatch(ctx, tun), ok, t))
  {
    TeardownIsTeardownish(ctx, tun);
    RunShrinks(ctx, tun, ok, t);
    hide TeardownBatch, RunSome, TargetFw;
    ResolvLeft(TeardownBatch(ctx, tun), ok, t);
  }

  lemma LostIsGone(ctx: RouteContext, tun: Tun, ok: seq<bool>, s: System, t: System)
    requires |ok| <= |TeardownBatch(ctx, tun)| && Shrunk(s, t) && RunLost(ctx, tun, ok, t)
    ensures Gone(ctx, tun, s, RunSome(TeardownBatch(ctx, tun), ok, t))
  {
    TeardownIsTeardownish(ctx, tun);
    TeardownIsCovered(ctx, tun);
    hide TeardownBatch, RunSome, TargetFw;
    var cmds := TeardownBatch(ctx, tun);
    ResolvLeft(cmds, ok, t);
    if ch, r :| DeleteFw(ch, r) in Done(cmds, ok) && multiset(t.Fw(ch))[r] > 1 {
      DoneExactly(cmds, ok, DeleteFw(ch, r));
      FwCountLeft(cmds, ok, t, ch, r);
      assert r in TargetFw(ctx, tun, ch);
    } else {
      DoneExactly(cmds, ok, RemoveBackup);
    }
  }

  lemma {:induction false} LostStaysGone(ctx: RouteContext, tun: Tun, runs: seq<seq<bool>>, s: System)
    requires AreRuns(TeardownBatch(ctx, tun), runs) && RunsLost(ctx, tun, runs, s)
    ensures Gone(ctx, tun, s, AfterRuns(TeardownBatch(ctx, tun), runs, s))
  {
    var cut, ok := runs[..|runs| - 1], runs[|runs| - 1];
    var t := AfterRuns(TeardownBatch(ctx, tun), cut, s);
    if RunsLost(ctx, tun, cut, s) {
      LostStaysGone(ctx, tun, cut, s);
      GoneStays(ctx, tun, ok, s, t);
    } else {
      RunsShrink(ctx, tun, cut, s);
      LostIsGone(ctx, tun, ok, s, t);
    }
  }

  lemma {:induction false} NoneLostNoneMoved(ctx: RouteContext, tun: Tun, runs: seq<seq<bool>>, s: System)
    requires AreRuns(TeardownBatch(ctx, tun), runs) && !RunsLost(ctx, tun, runs, s)
    ensures RunAll(TeardownBatch(ctx, tun), AfterRuns(TeardownBatch(ctx, tun), runs, s)) ==
      RunAll(TeardownBatch(ctx, tun), s)
  {
    if runs != [] {
      var cut, ok := runs[..|runs| - 1], runs[|runs| - 1];
      NoneLostNoneMoved(ctx, tun, cut, s);
      RetryLeadsThereIff(ctx, tun, ok, AfterRuns(TeardownBatch(ctx, tun), cut, s));
    }
  }

  /**
    After any number of runs, each cut anywhere and skipping any lines, a complete
    one leads there iff none lost anything.
   */
  lemma RunsLeadThereIff(ctx: RouteContext, tun: Tun, runs: seq<seq<bool>>, s: System)
    requires AreRuns(TeardownBatch(ctx, tun), runs)
    ensures RunAll(TeardownBatch(ctx, tun), AfterRuns(TeardownBatch(ctx, tun), runs, s)) ==
      RunAll(TeardownBatch(ctx, tun), s)
      <==> !RunsLost(ctx, tun, runs, s)
  {
    if RunsLost(ctx, tun, runs, s) {
      LostStaysGone(ctx, tun, runs, s);
      GoneShows(ctx, tun, s, AfterRuns(TeardownBatch(ctx, tun), runs, s));
    } else {
      NoneLostNoneMoved(ctx, tun, runs, s);
    }
  }

  /**
    A teardown that reports success after some cut runs: the last one was not
    cut.  If the cut ones lost nothing, all is undone exactly if the last one
    missed nothing; and if that missed nothing, exactly if they lost nothing.
   */
  ghost predicate TornDown(ctx: RouteContext, tun: Tun, runs: seq<seq<bool>>, before: System, after: System) {
    var cmds := TeardownBatch(ctx, tun);
    && AreRuns(cmds, runs) && runs != [] && |runs[|runs| - 1]| == |cmds| && after == AfterRuns(cmds, runs, before)
    && var cut, last := runs[..|runs| - 1], runs[|runs| - 1];
       var at := AfterRuns(cmds, cut, before);
       && (!RunsLost(ctx, tun, cut, before) ==> (after == RunAll(cmds, before) <==> NothingMissed(cmds, last, at)))
       && (NothingMissed(cmds, last, at) ==> (after == RunAll(cmds, before) <==> !RunsLost(ctx, tun, cut, before)))
  }

  /** What one teardown run that reports success has done: everything, exactly if it missed nothing. */
  ghost predicate RanTeardown(ctx: RouteContext, tun: Tun, ok: seq<bool>, before: System, after: System) {
    var cmds := TeardownBatch(ctx, tun);
    && |ok| == |cmds| && after == RunSome(cmds, ok, before)
    && (after == RunAll(cmds, before) <==> NothingMissed(cmds, ok, before))
  }

  /** Some runs, of which the last may or may not have been cut. */
  ghost predicate TriedTeardown(ctx: RouteContext, tun: Tun, runs: seq<seq<bool>>, before: System, after: System) {
    AreRuns(TeardownBatch(ctx, tun), runs) && after == AfterRuns(TeardownBatch(ctx, tun), runs, before)
  }

  lemma NoRuns(ctx: RouteContext, tun: Tun, s: System)
    ensures TriedTeardown(ctx, tun, [], s, s)
  {
  }

  lemma RunsTearDown(ctx: RouteContext, tun: Tun, cut: seq<seq<bool>>, last: seq<bool>, s: System)
    requires AreRuns(TeardownBatch(ctx, tun), cut) && |last| == |TeardownBatch(ctx, tun)|
    ensures AreRuns(TeardownBatch(ctx, tun), cut + [last])
    ensures TornDown(ctx, tun, cut + [last], s, AfterRuns(TeardownBatch(ctx, tun), cut + [last], s))
  {
    hide TeardownBatch, RunSome, RunAll, RunsLost, NothingMissed;
    var cmds, runs := TeardownBatch(ctx, tun), cut + [last];
    AfterOneMore(cmds, cut, last, s);
    assert runs[..|runs| - 1] == cut;
    RunsLeadThereIff(ctx, tun, cut, s);
    SkippingMattersIff(ctx, tun, last, AfterRuns(cmds, cut, s));
  }

  // ------------------------------------------------------------------ lines with nothing left to do

  /** A line that has nothing to do has nothing to do after any other teardown line either. */
  lemma StaysIdle(c: Cmd, d: Cmd, s: System)
    requires Undoes(c) && Undoes(d) && NothingToDo(c, s)
    ensures NothingToDo(c, Effect(d, s))
  {
    if d.DeleteFw? {
      RemoveFirstShrinks(s.Fw(d.chain), d.fw);
      assert Effect(d, s).Fw(d.chain) == RemoveFirst(s.Fw(d.chain), d.fw);
      assert forall x :: x != d.chain ==> Effect(d, s).Fw(x) == s.Fw(x);
    } else {
      assert forall x :: Effect(d, s).Fw(x) == s.Fw(x);
    }
  }

  /** A line that took effect has nothing left to do, unless it deleted one of several equal firewall rules. */
  lemma IdleOnceDone(c: Cmd, s: System)
    requires Undoes(c) && !TeardownLineLoses(c, s)
    ensures NothingToDo(c, Effect(c, s))
  {
    if c.DeleteFw? {
      RemoveFirstCounts(s.Fw(c.chain), c.fw);
      assert Effect(c, s).Fw(c.chain) == RemoveFirst(s.Fw(c.chain), c.fw);
      assert multiset(RemoveFirst(s.Fw(c.chain), c.fw))[c.fw] == 0;
      assert c.fw !in multiset(RemoveFirst(s.Fw(c.chain), c.fw));
    }
  }

  ghost predicate Idle(cmds: seq<Cmd>, n: nat, s: System)
    requires n <= |cmds| && AllUndo(cmds)
  {
    forall u :: 0 <= u < n ==> NothingToDo(cmds[u], s)
  }

  lemma IdleNone(cmds: seq<Cmd>, s: System)
    ensures AllUndo(cmds) ==> Idle(cmds, 0, s)
  {
  }

  lemma TeardownUndoes(ctx: RouteContext, tun: Tun)
    ensures AllUndo(TeardownBatch(ctx, tun))
    ensures forall c :: c in TeardownBatch(ctx, tun) ==> Undoes(c) && Masked(c)
  {
    TeardownIsTeardownish(ctx, tun);
    TeardownIsMasked(ctx, tun);
  }

  lemma UndoingSavesBackups(c: Cmd, s: System)
    requires Undoes(c)
    ensures !SetupLineLoses(c, s)
  {
  }

  lemma IdleAfterLine(cmds: seq<Cmd>, n: nat, s: System)
    requires n < |cmds| && AllUndo(cmds) && Idle(cmds, n, s) && !TeardownLineLoses(cmds[n], s)
    ensures Idle(cmds, n + 1, Effect(cmds[n], s))
  {
    IdleOnceDone(cmds[n], s);
    forall u | 0 <= u < n ensures NothingToDo(cmds[u], Effect(cmds[n], s)) {
      StaysIdle(cmds[u], cmds[n], s);
    }
  }

  lemma IdleAfterSkip(cmds: seq<Cmd>, n: nat, s: System)
    requires n < |cmds| && AllUndo(cmds) && Idle(cmds, n, s) && Effect(cmds[n], s) == s
    ensures Idle(cmds, n + 1, s)
  {
    NothingToDoIff(cmds[n], s);
  }

  lemma {:induction false} IdleRun(cmds: seq<Cmd>, s: System)
    requires AllUndo(cmds) && Idle(cmds, |cmds|, s)
    ensures RunAll(cmds, s) == s
  {
    if cmds != [] {
      NothingToDoIff(cmds[0], s);
      assert forall u :: 0 <= u < |cmds| - 1 ==> cmds[1..][u] == cmds[u + 1];
      IdleRun(cmds[1..], s);
    }
  }

  /** Once no line has anything left to do, the machine is clean. */
  lemma IdleIsClean(ctx: RouteContext, tun: Tun, s: System)
    requires AllUndo(TeardownBatch(ctx, tun)) && Idle(TeardownBatch(ctx, tun), |TeardownBatch(ctx, tun)|, s)
    ensures Clean(ctx, tun, s)
  {
    IdleRun(TeardownBatch(ctx, tun), s);
    CleanIff(ctx, tun, s);
  }

  /** So the line that removes the backup loses nothing while every line before it has nothing left to do. */
  lemma NextLineIsSafe(ctx: RouteContext, tun: Tun, n: nat, s: System)
    requires n < |TeardownBatch(ctx, tun)| && AllUndo(TeardownBatch(ctx, tun))
    requires Idle(TeardownBatch(ctx, tun), n, s) && Once(ctx, tun, s)
    ensures !TeardownLineLoses(TeardownBatch(ctx, tun)[n], s)
  {
    hide TeardownBatch, TargetFw;
    var cmds := TeardownBatch(ctx, tun);
    TeardownLineAt(ctx, tun, n);
    if cmds[n].RemoveBackup? {
      assert cmds[n - 1].CopyBackupBack? && NothingToDo(cmds[n - 1], s);
    }
  }

  lemma {:induction false} IdleLinesChangeNothing(cmds: seq<Cmd>, ok: seq<bool>, s: System)
    requires |ok| <= |cmds| && AllUndo(cmds) && forall u :: 0 <= u < |ok| && ok[u] ==> NothingToDo(cmds[u], s)
    ensures RunSome(cmds, ok, s) == s
    decreases |ok|
  {
    if ok != [] {
      if ok[0] { NothingToDoIff(cmds[0], s); }
      forall u | 0 <= u < |ok| - 1 && ok[1..][u] ensures NothingToDo(cmds[1..][u], s) {
        assert ok[u + 1] && cmds[1..][u] == cmds[u + 1];
      }
      IdleLinesChangeNothing(cmds[1..], ok[1..], s);
    }
  }

  /** What a complete teardown leaves a line to do: nothing, but for firewall rules that were there several times. */
  lemma IdleAfterAllIff(ctx: RouteContext, tun: Tun, s: System, c: Cmd)
    requires TeardownLine(ctx, tun, c)
    ensures Undoes(c)
    ensures NothingToDo(c, RunAll(TeardownBatch(ctx, tun), s)) <==>
      (c.DeleteFw? ==> multiset(s.Fw(c.chain))[c.fw] <= 1)
  {
    hide TeardownBatch, RunAll, RemoveEach;
    TeardownResult(ctx, tun, s);
    var t := AfterTeardown(ctx, tun, s);
    if c.DeleteFw? {
      var targets := TargetFw(ctx, tun, c.chain);
      assert t.Fw(c.chain) == RemoveEach(s.Fw(c.chain), targets);
      RemoveEachCounts(s.Fw(c.chain), targets);
      TargetsDistinct(ctx, tun, c.chain);
      CountOfDistinct(targets, c.fw);
      assert c.fw in t.Fw(c.chain) <==> c.fw in multiset(t.Fw(c.chain));
    }
  }

  /**
    After a teardown that missed nothing, another run, cut anywhere and skipping
    any lines, changes nothing exactly if it deletes no firewall rule that was there
    several times.
   */
  lemma SecondRunChangesNothingIff(ctx: RouteContext, tun: Tun, first: seq<bool>, second: seq<bool>, s: System)
    requires |first| == |TeardownBatch(ctx, tun)| && NothingMissed(TeardownBatch(ctx, tun), first, s)
    requires |second| <= |TeardownBatch(ctx, tun)|
    ensures var cmds := TeardownBatch(ctx, tun);
      var t := RunSome(cmds, first, s);
      RunSome(cmds, second, t) == t <==>
        forall ch, r :: DeleteFw(ch, r) in Done(cmds, second) ==> multiset(s.Fw(ch))[r] <= 1
  {
    TeardownIsTeardownish(ctx, tun);
    hide TeardownBatch, RunSome, RunAll, NothingMissed, TeardownLine, NothingToDo;
    var cmds := TeardownBatch(ctx, tun);
    SkippingMattersIff(ctx, tun, first, s);
    var t := RunAll(cmds, s);
    if forall ch, r :: DeleteFw(ch, r) in Done(cmds, second) ==> multiset(s.Fw(ch))[r] <= 1 {
      forall u | 0 <= u < |second| && second[u] ensures NothingToDo(cmds[u], t) {
        TeardownLineAt(ctx, tun, u);
        IdleAfterAllIff(ctx, tun, s, cmds[u]);
        DoneExactly(cmds, second, cmds[u]);
      }
      IdleLinesChangeNothing(cmds, second, t);
    } else {
      var ch, r :| DeleteFw(ch, r) in Done(cmds, second) && multiset(s.Fw(ch))[r] > 1;
      DeletedAgain(ctx, tun, second, s, ch, r);
    }
  }

  lemma DeletedAgain(ctx: RouteContext, tun: Tun, ok: seq<bool>, s: System, ch: Chain, r: FwRule)
    requires |ok| <= |TeardownBatch(ctx, tun)| && DeleteFw(ch, r) in Done(TeardownBatch(ctx, tun), ok)
    requires multiset(s.Fw(ch))[r] > 1
    ensures RunSome(TeardownBatch(ctx, tun), ok, RunAll(TeardownBatch(ctx, tun), s)) !=
      RunAll(TeardownBatch(ctx, tun), s)
  {
    TeardownIsTeardownish(ctx, tun);
    hide TeardownBatch, RunSome, RunAll;
    var cmds := TeardownBatch(ctx, tun);
    RunAllIsRunSome(cmds, s);
    FwCountLeft(cmds, Every(|cmds|), s, ch, r);
    FwCountLeft(cmds, ok, RunAll(cmds, s), ch, r);
  }

  // ------------------------------------------------------------------ firewall rules at most once

  /** No firewall rule of the record is there twice. */
  ghost predicate Once(ctx: RouteContext, tun: Tun, s: System) {
    forall ch, r :: r in TargetFw(ctx, tun, ch) ==> multiset(s.Fw(ch))[r] <= 1
  }

  lemma CleanIsOnce(ctx: RouteContext, tun: Tun, s: System)
    requires Clean(ctx, tun, s)
    ensures Once(ctx, tun, s)
  {
    forall ch, r | r in TargetFw(ctx, tun, ch) ensures multiset(s.Fw(ch))[r] <= 1 {
      assert r !in s.Fw(ch);
      assert r !in multiset(s.Fw(ch));
    }
  }

  lemma EnsureCounts(x: Chain, q: FwRule, s: System, ch: Chain, r: FwRule)
    requires multiset(s.Fw(ch))[r] <= 1
    ensures multiset(Effect(EnsureFw(x, q), s).Fw(ch))[r] <= 1
  {
    var t := Effect(EnsureFw(x, q), s);
    if x == ch && q !in s.Fw(ch) {
      assert t.Fw(ch) == [q] + s.Fw(ch);
      assert q !in multiset(s.Fw(ch));
    } else {
      assert t.Fw(ch) == s.Fw(ch);
    }
  }

  lemma OnceStays(ctx: RouteContext, tun: Tun, s: System, c: Cmd)
    requires Once(ctx, tun, s) && (SetupLine(ctx, tun, c) || TeardownLine(ctx, tun, c))
    ensures Once(ctx, tun, Effect(c, s))
  {
    hide TargetFw, TargetRules, TargetRoutes;
    var t := Effect(c, s);
    forall ch, r | r in TargetFw(ctx, tun, ch) ensures multiset(t.Fw(ch))[r] <= 1 {
      match c {
        case EnsureFw(x, q) => EnsureCounts(x, q, s, ch, r);
        case DeleteFw(x, q) => FwCountAfter(c, s, ch, r);
        case _ => assert t.Fw(ch) == s.Fw(ch);
      }
    }
  }

  // ------------------------------------------------------------------ the resolver file in a setup

  /** Where the record can be undone from: nothing it removes is there, and the file it overwrites exists. */
  ghost predicate Fits(ctx: RouteContext, tun: Tun, s: System) {
    Clean(ctx, tun, s) && (ctx.dnsMode == ResolvConfFile ==> s.resolvConf.Some?)
  }

  /** The backup comes right before the overwriting, and nothing has touched either file before it. */
  lemma SetupDnsOrder(plan: Plan, env: Env)
    requires SetupBatch(plan, env).Batch?
    ensures var cmds := SetupBatch(plan, env).cmds;
      forall t :: 0 <= t < |cmds| ==>
        && (cmds[t].OverwriteResolvConf? ==> t > 0 && cmds[t - 1].BackUpResolvConf?)
        && (cmds[t].BackUpResolvConf? ==> forall u :: 0 <= u < t ==> !TouchesResolv(cmds[u]))
  {
    var b := SetupBatch(plan, env);
    var a, d, z := AddressLines(plan, env) + FirewallLines(plan, env), DnsLines(plan, b.ctx.dnsMode),
      TunLines(plan.tun);
    var cmds := a + d + z;
    assert b.cmds == cmds;
    forall u | 0 <= u < |a| ensures !TouchesResolv(cmds[u]) { assert cmds[u] == a[u]; }
    forall t | 0 <= t < |cmds|
      ensures cmds[t].OverwriteResolvConf? ==> t > 0 && cmds[t - 1].BackUpResolvConf?
      ensures cmds[t].BackUpResolvConf? ==> t == |a|
    {
      if |a| <= t < |a| + |d| {
        assert cmds[t] == d[t - |a|];
        if t > |a| { assert cmds[t - 1] == d[t - 1 - |a|]; }
      } else if |a| + |d| <= t {
        assert cmds[t] == z[t - |a| - |d|];
      }
    }
  }

  /**
    How the first n lines of a setup leave the resolver file and its backup, as long
    as no needed backup was skipped.
   */
  ghost predicate ResolvSafe(mode: DnsMode, cmds: seq<Cmd>, n: nat, s: System)
    requires n <= |cmds|
  {
    mode == ResolvConfFile ==>
      && ((forall u :: 0 <= u < n ==> !TouchesResolv(cmds[u])) ==> s.backup.None? && s.resolvConf.Some?)
      && (n > 0 && cmds[n - 1].BackUpResolvConf? ==> s.backup.Some?)
  }

  lemma NextSetupLineIsSafe(plan: Plan, env: Env, n: nat, s: System)
    requires SetupBatch(plan, env).Batch? && n < |SetupBatch(plan, env).cmds|
    requires ResolvSafe(SetupBatch(plan, env).ctx.dnsMode, SetupBatch(plan, env).cmds, n, s)
    ensures var b := SetupBatch(plan, env);
      var c := b.cmds[n];
      && !SetupLineLoses(c, s) && !TeardownLineLoses(c, s)
      && ResolvSafe(b.ctx.dnsMode, b.cmds, n + 1, Effect(c, s))
      && (c.BackUpResolvConf? ==> Effect(c, s) != s)
      && (!c.BackUpResolvConf? ==> ResolvSafe(b.ctx.dnsMode, b.cmds, n + 1, s))
  {
    hide SetupBatch;
    var b := SetupBatch(plan, env);
    var c := b.cmds[n];
    SetupLineAt(plan, env, n);
    if TouchesResolv(c) {
      NextResolvLine(b.ctx.dnsMode, b.cmds, n, s);
    } else {
      assert Effect(c, s).backup == s.backup && Effect(c, s).resolvConf == s.resolvConf;
    }
  }

  lemma SetupLineAt(plan: Plan, env: Env, n: nat)
    requires SetupBatch(plan, env).Batch? && n < |SetupBatch(plan, env).cmds|
    ensures var b := SetupBatch(plan, env);
      && SetupLine(b.ctx, plan.tun, b.cmds[n])
      && (b.cmds[n].OverwriteResolvConf? ==> n > 0 && b.cmds[n - 1].BackUpResolvConf?)
      && (b.cmds[n].BackUpResolvConf? ==> forall u :: 0 <= u < n ==> !TouchesResolv(b.cmds[u]))
  {
    SetupDnsOrder(plan, env);
    SetupIsCovered(plan, env);
  }

  lemma NextResolvLine(mode: DnsMode, cmds: seq<Cmd>, n: nat, s: System)
    requires n < |cmds| && mode == ResolvConfFile && ResolvSafe(mode, cmds, n, s)
    requires cmds[n].BackUpResolvConf? || cmds[n].OverwriteResolvConf?
    requires cmds[n].OverwriteResolvConf? ==> n > 0 && cmds[n - 1].BackUpResolvConf?
    requires cmds[n].BackUpResolvConf? ==> forall u :: 0 <= u < n ==> !TouchesResolv(cmds[u])
    ensures !SetupLineLoses(cmds[n], s) && !TeardownLineLoses(cmds[n], s)
    ensures ResolvSafe(mode, cmds, n + 1, Effect(cmds[n], s))
    ensures cmds[n].BackUpResolvConf? ==> Effect(cmds[n], s) != s
    ensures !cmds[n].BackUpResolvConf? ==> ResolvSafe(mode, cmds, n + 1, s)
  {
    assert TouchesResolv(cmds[n]);
  }

  lemma FitsIsResolvSafe(ctx: RouteContext, tun: Tun, cmds: seq<Cmd>, s: System)
    requires Fits(ctx, tun, s)
    ensures ResolvSafe(ctx.dnsMode, cmds, 0, s)
  {
  }
}
