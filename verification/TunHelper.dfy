/**
  The privileged tunnel helper on Linux: its session, its crash journal, and
  the order in which it touches the machine.  Every change of the machine or of
  the journal is one step of `World`, so that the trail of a world lists every
  state a crash could expose.  Masked lines may fail without anyone noticing, in
  setup and in teardown, and the machine may already hold what a plan adds; the
  trail says exactly which steps then cost something.
 */
module TunHelper {
  import opened Options
  import opened LinuxRoutes
  import opened RouteRecovery
  import opened RouteRetries
  import opened RoutePolicy

  /** tun-state.json. */
  datatype Journal = Journal(helperPid: nat, hevRunning: bool, tun: Tun, routes: Option<RouteContext>)

  /** What a journal says about installed routes. */
  datatype Record = Record(ctx: RouteContext, tun: Tun)

  datatype Act =
    | Began
    | RanLine(line: Cmd)
    | SkippedLine(line: Cmd)   // it failed, and the batch went on
    | JournalSaved
    | JournalRemoved
    | HevStarted
    | HevStopped
    | HevDied
    | HelperDied

  /** What a crash right after an act leaves. */
  datatype Snapshot = Snapshot(act: Act, os: System, journal: Option<Journal>)
  {
    function Records(): Option<Record> {
      if journal.Some? && journal.value.routes.Some?
      then Some(Record(journal.value.routes.value, journal.value.tun))
      else None
    }

    /** Where replaying the journal to its end leads. */
    function Destination(): System {
      match Records()
      case None => os
      case Some(r) => RunAll(TeardownBatch(r.ctx, r.tun), os)
    }
  }

  /** Write-ahead: a line runs only while the journal on disk has the record it is about. */
  ghost predicate Recorded(s: Snapshot, c: Cmd) {
    s.Records().Some? && var r := s.Records().value; SetupLine(r.ctx, r.tun, c) || TeardownLine(r.ctx, r.tun, c)
  }

  /** One step of the world. */
  ghost predicate Linked(a: Snapshot, b: Snapshot) {
    match b.act
    case Began => false
    case RanLine(c) => Recorded(a, c) && b.os == Effect(c, a.os) && b.journal == a.journal
    case SkippedLine(c) => Recorded(a, c) && Masked(c) && b.os == a.os && b.journal == a.journal
    case JournalSaved => b.os == a.os && b.journal.Some? && (a.Records().None? || b.Records() == a.Records())
    case JournalRemoved => b.os == a.os && b.journal.None?
    case _ => b.os == a.os && b.journal == a.journal
  }

  /**
    The steps that cost something: recording a plan on a machine that already
    holds some of it, overwriting or dropping a backup that was still needed,
    deleting a firewall rule that is there several times, and dropping the
    journal while something it records is still installed.
   */
  ghost predicate Loses(a: Snapshot, b: Snapshot) {
    match b.act
    case RanLine(c) => SetupLineLoses(c, a.os) || TeardownLineLoses(c, a.os)
    case JournalSaved => a.Records().None? && b.Records().Some? &&
      !Clean(b.Records().value.ctx, b.Records().value.tun, a.os)
    case JournalRemoved => a.Records().Some? && !Clean(a.Records().value.ctx, a.Records().value.tun, a.os)
    case _ => false
  }

  /** A step changes where recovery leads exactly if it is one of those. */
  lemma StepMovesIff(a: Snapshot, b: Snapshot)
    requires Linked(a, b)
    ensures b.Destination() == a.Destination() <==> !Loses(a, b)
  {
    hide TeardownBatch, RunAll, Effect, Clean;
    match b.act {
      case RanLine(c) =>
        var r := a.Records().value;
        if SetupLine(r.ctx, r.tun, c) {
          SetupLineMovesIff(r.ctx, r.tun, a.os, c);
        } else {
          TeardownLineMovesIff(r.ctx, r.tun, a.os, c);
        }
      case JournalSaved =>
        if b.Records().Some? { CleanIff(b.Records().value.ctx, b.Records().value.tun, a.os); }
      case JournalRemoved =>
        if a.Records().Some? { CleanIff(a.Records().value.ctx, a.Records().value.tun, a.os); }
      case _ =>
    }
  }

  ghost predicate IsTrail(trail: seq<Snapshot>) {
    trail != [] && forall i :: 0 < i < |trail| ==> Linked(trail[i - 1], trail[i])
  }

  ghost predicate NoLoss(trail: seq<Snapshot>, lo: nat, hi: nat) {
    forall i :: lo < i <= hi < |trail| ==> !Loses(trail[i - 1], trail[i])
  }

  /** Between two points without a loss, recovery leads to the same machine. */
  lemma {:induction false} RecoveryLeadsBack(trail: seq<Snapshot>, lo: nat, hi: nat)
    requires IsTrail(trail) && lo <= hi < |trail| && NoLoss(trail, lo, hi)
    ensures trail[hi].Destination() == trail[lo].Destination()
    decreases hi
  {
    if lo < hi {
      RecoveryLeadsBack(trail, lo, hi - 1);
      StepMovesIff(trail[hi - 1], trail[hi]);
    }
  }

  /** A trail that ends without a journal, and without a loss on the way, ends where recovery led. */
  lemma CleanEnd(trail: seq<Snapshot>, lo: nat)
    requires IsTrail(trail) && lo < |trail| && trail[|trail| - 1].journal.None?
    ensures NoLoss(trail, lo, |trail| - 1) ==> trail[|trail| - 1].os == trail[lo].Destination()
  {
    if NoLoss(trail, lo, |trail| - 1) { RecoveryLeadsBack(trail, lo, |trail| - 1); }
  }

  // ------------------------------------------------------------------ lives in which nothing is lost

  /** A line was skipped that had work to do: one of a teardown, or the backup of resolv.conf. */
  ghost predicate SkipsWork(a: Snapshot, b: Snapshot) {
    b.act.SkippedLine? && (Undoes(b.act.line) || b.act.line.BackUpResolvConf?) && Effect(b.act.line, a.os) != a.os
  }

  ghost predicate NoWorkSkipped(trail: seq<Snapshot>) {
    forall i :: 0 < i < |trail| ==> !SkipsWork(trail[i - 1], trail[i])
  }

  /** Every record on disk was one that fits the given machine. */
  ghost predicate RecordsFit(trail: seq<Snapshot>, home: System) {
    forall i :: 0 <= i < |trail| && trail[i].Records().Some? ==>
      Fits(trail[i].Records().value.ctx, trail[i].Records().value.tun, home)
  }

  /** Plans fitted the machine as it was in the beginning, and no line with work to do was skipped. */
  ghost predicate Calm(trail: seq<Snapshot>) {
    trail != [] && NoWorkSkipped(trail) && RecordsFit(trail, trail[0].os)
  }

  /** What a calm trail guarantees about every point so far and about the machine now. */
  ghost predicate Kept(trail: seq<Snapshot>) {
    && IsTrail(trail) && NoLoss(trail, 0, |trail| - 1)
    && var now := trail[|trail| - 1];
       now.Records().Some? ==> Once(now.Records().value.ctx, now.Records().value.tun, now.os)
  }

  /** Every point of such a trail leads back to the machine as it was in the beginning. */
  lemma KeptLeadsHome(trail: seq<Snapshot>, i: nat)
    requires Kept(trail) && i < |trail|
    ensures trail[i].Destination() == trail[0].Destination()
  {
    RecoveryLeadsBack(trail, 0, i);
  }

  lemma CalmBefore(trail: seq<Snapshot>, next: Snapshot)
    requires trail != [] && Calm(trail + [next])
    ensures Calm(trail) && !SkipsWork(trail[|trail| - 1], next)
    ensures next.Records().Some? ==> Fits(next.Records().value.ctx, next.Records().value.tun, trail[0].os)
  {
    var all := trail + [next];
    assert all[|trail|] == next && all[|trail| - 1] == trail[|trail| - 1];
    forall i | 0 < i < |trail| ensures !SkipsWork(trail[i - 1], trail[i]) {
      assert all[i] == trail[i] && all[i - 1] == trail[i - 1];
    }
    forall i | 0 <= i < |trail| && trail[i].Records().Some?
      ensures Fits(trail[i].Records().value.ctx, trail[i].Records().value.tun, trail[0].os)
    {
      assert all[i] == trail[i];
    }
  }

  lemma KeptAfter(trail: seq<Snapshot>, next: Snapshot)
    requires Kept(trail) && Linked(trail[|trail| - 1], next) && !Loses(trail[|trail| - 1], next)
    requires next.Records().Some? ==> Once(next.Records().value.ctx, next.Records().value.tun, next.os)
    ensures Kept(trail + [next])
  {
    hide Loses, Once, Linked;
    var all := trail + [next];
    assert all[|trail|] == next && all[|trail| - 1] == trail[|trail| - 1];
    forall i | 0 < i < |all| ensures Linked(all[i - 1], all[i]) && !Loses(all[i - 1], all[i]) {
      if i < |trail| { assert all[i] == trail[i] && all[i - 1] == trail[i - 1]; }
    }
  }

  /** The trail grew, and with fitting plans only by fitting records. */
  ghost predicate Grew(was: seq<Snapshot>, now: seq<Snapshot>, fits: bool) {
    && was != [] && was <= now
    && (fits && RecordsFit(was, was[0].os) ==> RecordsFit(now, was[0].os))
  }

  lemma GrewByOne(trail: seq<Snapshot>, next: Snapshot, fits: bool)
    requires trail != []
    requires fits && next.Records().Some? ==>
      next.Records() == trail[|trail| - 1].Records()
      || Fits(next.Records().value.ctx, next.Records().value.tun, trail[0].os)
    ensures Grew(trail, trail + [next], fits)
  {
    var all := trail + [next];
    forall i | fits && RecordsFit(trail, trail[0].os) && 0 <= i < |all| && all[i].Records().Some?
      ensures Fits(all[i].Records().value.ctx, all[i].Records().value.tun, trail[0].os)
    {
      assert all[i] == if i < |trail| then trail[i] else next;
    }
  }

  lemma GrewNot(trail: seq<Snapshot>, fits: bool)
    requires trail != []
    ensures Grew(trail, trail, fits)
  {
  }

  lemma LastFits(trail: seq<Snapshot>, home: System)
    requires trail != [] && RecordsFit(trail, home)
    ensures var r := trail[|trail| - 1].Records(); r.Some? ==> Fits(r.value.ctx, r.value.tun, home)
  {
  }

  lemma CalmFits(trail: seq<Snapshot>)
    requires Calm(trail)
    ensures var r := trail[|trail| - 1].Records(); r.Some? ==> Fits(r.value.ctx, r.value.tun, trail[0].os)
  {
  }

  lemma KeptOnce(trail: seq<Snapshot>, ctx: RouteContext, tun: Tun)
    requires Calm(trail) && Kept(trail) && trail[|trail| - 1].Records() == Some(Record(ctx, tun))
    ensures Once(ctx, tun, trail[|trail| - 1].os)
  {
  }

  /** A calm trail that ends without a journal ends on the machine as it was in the beginning. */
  lemma HomeAtTheEnd(trail: seq<Snapshot>)
    requires trail != [] && (Calm(trail) ==> Kept(trail)) && trail[0].journal.None? && trail[|trail| - 1].journal.None?
    ensures Calm(trail) ==> trail[|trail| - 1].os == trail[0].os
  {
    if Calm(trail) { KeptLeadsHome(trail, |trail| - 1); }
  }

  /** A plan that fits the machine. */
  ghost predicate PlanFits(plan: Plan, env: Env, home: System) {
    SetupBatch(plan, env).Batch? ==> Fits(SetupBatch(plan, env).ctx, plan.tun, home)
  }

  // ------------------------------------------------------------------ how things turn out

  /** Of a batch, which lines take effect; the batch is cut where the list ends. */
  type Lines = seq<bool>

  function Cut(cmds: seq<Cmd>, lines: Lines): Lines { if |lines| <= |cmds| then lines else lines[..|cmds|] }

  /** How the a-th of several runs turns out; a run nothing is said about is cut at once. */
  function Try(runs: seq<Lines>, a: nat): Lines { if a < |runs| then runs[a] else [] }

  /** All of up to three teardown runs are cut. */
  ghost predicate AllCut(ctx: RouteContext, tun: Tun, luck: seq<Lines>) {
    forall a :: 0 <= a < 3 ==> |Try(luck, a)| < |TeardownBatch(ctx, tun)|
  }

  /** The lines of a setup whose failure aborts the batch. */
  predicate Aborts(c: Cmd) { c.EnsureFw? || c.OverwriteResolvConf? }

  /** What a batch under set -e gets to: up to the cut or the first failing line that aborts it. */
  ghost predicate GetsTo(cmds: seq<Cmd>, lines: Lines, ok: Lines) {
    && |ok| <= |cmds| && ok <= lines
    && (forall t :: 0 <= t < |ok| ==> ok[t] || !Aborts(cmds[t]))
    && (|ok| == |cmds| || |ok| == |lines| || (!lines[|ok|] && Aborts(cmds[|ok|])))
  }

  ghost predicate GoesThrough(cmds: seq<Cmd>, lines: Lines) {
    |lines| >= |cmds| && forall t :: 0 <= t < |cmds| ==> lines[t] || !Aborts(cmds[t])
  }

  /**
    How a bring-up turns out: readable tells, try by try until the deadline, whether
    the routing state could be read.
   */
  datatype UpLuck = UpLuck(
    prepared: bool, hevStarts: bool, notCancelled: bool, hevStays: bool,
    batch: Lines, readable: seq<bool>, undo: Lines, healthy: bool,
    recover: seq<Lines>, cleanup: seq<Lines>, hevStops: bool)
  {
    predicate Smooth() { prepared && hevStarts && notCancelled && hevStays && healthy }
  }

  /** The setup batch goes through and the tunnel's rule and route are seen in time. */
  ghost predicate SetupWorks(plan: Plan, env: Env, batch: Lines, readable: seq<bool>, os: System) {
    && SetupBatch(plan, env).Batch? && GoesThrough(SetupBatch(plan, env).cmds, batch)
    && Installed(RunSome(SetupBatch(plan, env).cmds, Cut(SetupBatch(plan, env).cmds, batch), os), plan.tun)
    && true in readable
  }

  /** With every line taking effect and room on the machine, setup works, and traffic goes by the tunnel as asked. */
  lemma LuckySetupWorks(plan: Plan, env: Env, batch: Lines, readable: seq<bool>, os: System)
    requires SetupBatch(plan, env).Batch? && RoomForTunnel(plan, os) && true in readable
    requires |batch| >= |SetupBatch(plan, env).cmds| && forall t :: 0 <= t < |batch| ==> batch[t]
    ensures SetupWorks(plan, env, batch, readable, os)
    ensures RunSome(SetupBatch(plan, env).cmds, Cut(SetupBatch(plan, env).cmds, batch), os) == AfterSetup(plan, env, os)
  {
    hide SetupBatch, RunSome, RunAll;
    var cmds := SetupBatch(plan, env).cmds;
    EveryIsTrue(|cmds|);
    assert Cut(cmds, batch) == Every(|cmds|);
    RunAllIsRunSome(cmds, os);
    WholeSetupResult(plan, env, os);
  }

  lemma {:induction false} EveryIsTrue(n: nat)
    ensures forall t :: 0 <= t < n ==> Every(n)[t]
  {
    if n > 0 { EveryIsTrue(n - 1); }
  }

  // ------------------------------------------------------------------ what survives a crash

  class World {
    var os: System
    var journal: Option<Journal>
    var hev: bool
    ghost var trail: seq<Snapshot>

    ghost predicate Valid()
      reads this
    {
      && IsTrail(trail) && trail[0] == Snapshot(Began, trail[0].os, None)
      && trail[|trail| - 1].os == os && trail[|trail| - 1].journal == journal
      && (Calm(trail) ==> Kept(trail))
    }

    ghost function Now(): Snapshot
      reads this
    {
      Snapshot(Began, os, journal)
    }

    constructor (os: System)
      ensures Valid() && this.os == os && journal.None? && !hev && trail == [Snapshot(Began, os, None)]
    {
      this.os, journal, hev, trail := os, None, false, [Snapshot(Began, os, None)];
    }

    /** One shell line that takes effect. */
    method RunLine(c: Cmd)
      requires Valid() && Recorded(Now(), c)
      requires Calm(trail) ==> !SetupLineLoses(c, os) && !TeardownLineLoses(c, os)
      modifies this`os, this`trail
      ensures Valid() && os == Effect(c, old(os)) && Grew(old(trail), trail, true)
      ensures trail == old(trail) + [Snapshot(RanLine(c), os, journal)]
      ensures Calm(trail) ==> old(Calm(trail))
    {
      hide Effect, Once, SetupLine, TeardownLine, Fits, SetupLineLoses, TeardownLineLoses;
      ghost var r := Now().Records().value;
      ghost var next := Snapshot(RanLine(c), Effect(c, os), journal);
      Step(next);
      if Calm(trail + [next]) {
        CalmBefore(trail, next);
        OnceStays(r.ctx, r.tun, os, c);
        KeptAfter(trail, next);
      }
      os := Effect(c, os);
      trail := trail + [next];
    }

    /** One shell line that fails, and the batch goes on. */
    ghost method SkipLine(c: Cmd)
      requires Valid() && Recorded(Now(), c) && Masked(c)
      modifies this`trail
      ensures Valid() && Grew(old(trail), trail, true)
      ensures trail == old(trail) + [Snapshot(SkippedLine(c), os, journal)]
      ensures Calm(trail) ==> old(Calm(trail)) && (Undoes(c) || c.BackUpResolvConf? ==> Effect(c, os) == os)
    {
      hide Effect, Once, SetupLine, TeardownLine, Fits;
      var next := Snapshot(SkippedLine(c), os, journal);
      Step(next);
      if Calm(trail + [next]) {
        CalmBefore(trail, next);
        KeptAfter(trail, next);
      }
      trail := trail + [next];
    }

    /** A step allowed by Linked grows the trail to another one. */
    lemma Step(next: Snapshot)
      requires Valid() && Linked(Now(), next)
      requires next.Records() == Now().Records() || next.Records().None?
      ensures IsTrail(trail + [next]) && Grew(trail, trail + [next], true)
      ensures Linked(trail[|trail| - 1], next)
    {
      GrewByOne(trail, next, true);
      Longer(next);
    }

    lemma Longer(next: Snapshot)
      requires Valid() && Linked(Now(), next)
      ensures IsTrail(trail + [next]) && Linked(trail[|trail| - 1], next)
    {
      var all, last := trail + [next], trail[|trail| - 1];
      assert last.Records() == Now().Records();
      assert Linked(last, next);
      forall i | 0 < i < |all| ensures Linked(all[i - 1], all[i]) {
        if i < |trail| {
          assert all[i] == trail[i] && all[i - 1] == trail[i - 1];
        } else {
          assert all[i] == next && all[i - 1] == last;
        }
      }
    }

    method SaveJournal(j: Journal)
      requires Valid()
      requires Now().Records().None? || Snapshot(Began, os, Some(j)).Records() == Now().Records()
      modifies this`journal, this`trail
      ensures Valid() && journal == Some(j)
      ensures trail == old(trail) + [Snapshot(JournalSaved, os, journal)]
      ensures Grew(old(trail), trail, j.routes.Some? ==> Fits(j.routes.value, j.tun, trail[0].os))
      ensures Calm(trail) ==> old(Calm(trail)) && (old(Now().Records()).None? ==> os == trail[0].os)
    {
      hide Once, Fits, Clean;
      ghost var next := Snapshot(JournalSaved, os, Some(j));
      Longer(next);
      GrewByOne(trail, next, j.routes.Some? ==> Fits(j.routes.value, j.tun, trail[0].os));
      if Calm(trail + [next]) {
        CalmBefore(trail, next);
        if Now().Records().None? {
          KeptLeadsHome(trail, |trail| - 1);
          if j.routes.Some? { FitsIsCleanAndOnce(j.routes.value, j.tun, os); }
        }
        KeptAfter(trail, next);
      }
      journal := Some(j);
      trail := trail + [next];
    }

    method RemoveJournal()
      requires Valid()
      requires Calm(trail) && Now().Records().Some? ==> Clean(Now().Records().value.ctx, Now().Records().value.tun, os)
      modifies this`journal, this`trail
      ensures Valid() && journal.None? && Grew(old(trail), trail, true)
      ensures trail == old(trail) + [Snapshot(JournalRemoved, os, None)]
      ensures Calm(trail) ==> old(Calm(trail))
    {
      hide Once, Fits, Clean;
      ghost var next := Snapshot(JournalRemoved, os, None);
      Step(next);
      if Calm(trail + [next]) {
        CalmBefore(trail, next);
        KeptAfter(trail, next);
      }
      journal := None;
      trail := trail + [next];
    }

    /** The tunnel process starting, stopping or dying, and the helper being killed: nothing else changes. */
    method Mark(act: Act)
      requires Valid() && act in {HevStarted, HevStopped, HevDied, HelperDied}
      modifies this`hev, this`trail
      ensures Valid() && hev == (act == HevStarted || (act == HelperDied && old(hev))) && Grew(old(trail), trail, true)
      ensures trail == old(trail) + [Snapshot(act, os, journal)]
      ensures Calm(trail) ==> old(Calm(trail))
    {
      hide Once, Fits, Clean;
      ghost var next := Snapshot(act, os, journal);
      Step(next);
      if Calm(trail + [next]) {
        CalmBefore(trail, next);
        KeptAfter(trail, next);
      }
      if act != HelperDied { hev := act == HevStarted; }
      trail := trail + [next];
    }
  }

  lemma FitsIsCleanAndOnce(ctx: RouteContext, tun: Tun, s: System)
    requires Fits(ctx, tun, s)
    ensures Clean(ctx, tun, s) && Once(ctx, tun, s)
  {
    CleanIsOnce(ctx, tun, s);
  }

  // ------------------------------------------------------------------ the helper

  /** The goroutine waiting for a session's hev to exit or its stop channel to close. */
  datatype Watcher = NotStarted | Waiting | Woken | Gone

  class TunSession {
    const tun: Tun
    var routes: Option<RouteContext>
    var stopped: bool              // the stop channel is closed
    var hevGone: bool
    var watcher: Watcher

    constructor (tun: Tun)
      ensures this.tun == tun && routes.None? && !stopped && !hevGone && watcher == NotStarted
    {
      this.tun, routes, stopped, hevGone, watcher := tun, None, false, false, NotStarted;
    }
  }

  class Helper {
    const world: World
    const pid: nat
    var sess: TunSession?
    var watched: seq<TunSession>   // the sessions with a watcher

    constructor (world: World, pid: nat)
      requires world.Valid()
      ensures Valid() && this.world == world && sess == null && watched == []
    {
      this.world, this.pid, sess, watched := world, pid, null, [];
    }

    /** The journal on disk has exactly the record of the session. */
    ghost predicate Valid()
      reads this, world, sess
    {
      && world.Valid()
      && (sess != null ==> world.Now().Records() == RecordOf(sess))
    }

    ghost function RecordOf(s: TunSession): Option<Record>
      reads s
    {
      if s.routes.Some? then Some(Record(s.routes.value, s.tun)) else None
    }

    method SaveState(s: TunSession)
      requires world.Valid() && (world.Now().Records().None? || world.Now().Records() == RecordOf(s))
      modifies world`journal, world`trail
      ensures world.Valid() && world.Now().Records() == RecordOf(s)
      ensures Grew(old(world.trail), world.trail, s.routes.Some? ==> Fits(s.routes.value, s.tun, world.trail[0].os))
      ensures Calm(world.trail) ==> old(Calm(world.trail))
      ensures Calm(world.trail) && old(world.Now().Records()).None? ==> world.os == world.trail[0].os
    {
      world.SaveJournal(Journal(pid, world.hev, s.tun, s.routes));
    }

    /** One run of the teardown batch: any line may fail unnoticed, and a timeout may cut it anywhere. */
    method TeardownRoutes(ctx: RouteContext, tun: Tun, luck: Lines) returns (failed: bool, ghost ok: seq<bool>)
      requires world.Valid() && world.Now().Records() == Some(Record(ctx, tun))
      modifies world`os, world`trail
      ensures world.Valid() && Grew(old(world.trail), world.trail, true)
      ensures ok == Cut(TeardownBatch(ctx, tun), luck) && (failed <==> |luck| < |TeardownBatch(ctx, tun)|)
      ensures |ok| <= |TeardownBatch(ctx, tun)| && world.os == RunSome(TeardownBatch(ctx, tun), ok, old(world.os))
      ensures !failed ==> RanTeardown(ctx, tun, ok, old(world.os), world.os)
      ensures Calm(world.trail) ==> old(Calm(world.trail))
      ensures !failed && Calm(world.trail) ==> Clean(ctx, tun, world.os)
    {
      hide TeardownBatch, RunAll, RunSome, Effect, Calm, Kept, Once, Idle, AllUndo, Clean, TeardownLineLoses,
        RecordsFit;
      var cmds := BuildTeardown(ctx, tun);
      TeardownIsCovered(ctx, tun);
      TeardownUndoes(ctx, tun);
      ok := [];
      RunNone(cmds, world.os);
      IdleNone(cmds, world.os);
      var t := 0;
      while t < |cmds|
        invariant t == |ok| <= |cmds| && ok <= luck && world.Valid() && Grew(old(world.trail), world.trail, true)
        invariant world.os == RunSome(cmds, ok, old(world.os))
        invariant Calm(world.trail) ==> old(Calm(world.trail)) && Idle(cmds, t, world.os)
      {
        if t == |luck| { return true, ok; }
        var works := luck[t];
        RunSomeSnoc(cmds, ok, works, old(world.os));
        if works {
          if Calm(world.trail) {
            KeptOnce(world.trail, ctx, tun);
            NextLineIsSafe(ctx, tun, t, world.os);
            IdleAfterLine(cmds, t, world.os);
          }
          UndoingSavesBackups(cmds[t], world.os);
          world.RunLine(cmds[t]);
        } else {
          ghost var before := world.os;
          world.SkipLine(cmds[t]);
          if Calm(world.trail) { IdleAfterSkip(cmds, t, before); }
        }
        ok := ok + [works];
        t := t + 1;
      }
      if Calm(world.trail) { IdleIsClean(ctx, tun, world.os); }
      SkippingMattersIff(ctx, tun, ok, old(world.os));
      return false, ok;
    }

    /**
      The setup batch under set -e: a masked line may fail unnoticed, another failure
      aborts, a timeout cuts it anywhere.
     */
    method RunSetupBatch(plan: Plan, env: Env, luck: Lines) returns (failed: bool, ghost ok: seq<bool>)
      requires SetupBatch(plan, env).Batch?
      requires world.Valid() && world.Now().Records() == Some(Record(SetupBatch(plan, env).ctx, plan.tun))
      requires Calm(world.trail) ==> Fits(SetupBatch(plan, env).ctx, plan.tun, world.os)
      modifies world`os, world`trail
      ensures world.Valid() && Grew(old(world.trail), world.trail, true)
      ensures |ok| <= |SetupBatch(plan, env).cmds| && world.os == RunSome(SetupBatch(plan, env).cmds, ok, old(world.os))
      ensures GetsTo(SetupBatch(plan, env).cmds, luck, ok) && (failed <==> |ok| < |SetupBatch(plan, env).cmds|)
      ensures Calm(world.trail) ==> old(Calm(world.trail))
    {
      hide SetupBatch, TeardownBatch, RunSome, RunAll, Effect, Calm, Kept, ResolvSafe, SetupLineLoses,
        TeardownLineLoses, RecordsFit;
      var b := SetupBatch(plan, env);
      SetupIsCovered(plan, env);
      ok := [];
      RunNone(b.cmds, world.os);
      if Calm(world.trail) { FitsIsResolvSafe(b.ctx, plan.tun, b.cmds, world.os); }
      for t := 0 to |b.cmds|
        invariant t == |ok| && ok <= luck && world.Valid() && Grew(old(world.trail), world.trail, true)
        invariant world.os == RunSome(b.cmds, ok, old(world.os))
        invariant forall u :: 0 <= u < |ok| ==> ok[u] || !Aborts(b.cmds[u])
        invariant Calm(world.trail) ==> old(Calm(world.trail)) && ResolvSafe(b.ctx.dnsMode, b.cmds, t, world.os)
      {
        if t == |luck| { return true, ok; }
        var works := luck[t];
        if !works && !Masked(b.cmds[t]) { return true, ok; }
        RunSomeSnoc(b.cmds, ok, works, old(world.os));
        if Calm(world.trail) { NextSetupLineIsSafe(plan, env, t, world.os); }
        if works {
          world.RunLine(b.cmds[t]);
        } else {
          world.SkipLine(b.cmds[t]);
        }
        ok := ok + [works];
      }
      return false, ok;
    }

    /** setupRoutesLinux: record first, then the batch, then the check that the tunnel's rule and route are there. */
    method SetupRoutesLinux(s: TunSession, plan: Plan, env: Env, batch: Lines, readable: seq<bool>, undo: Lines)
      returns (failed: bool)
      requires Valid() && s == sess && s.routes.None? && s.tun == plan.tun
      modifies world`os, world`journal, world`trail, s`routes
      ensures Valid() && Grew(old(world.trail), world.trail, PlanFits(plan, env, world.trail[0].os))
      ensures Calm(world.trail) ==> old(Calm(world.trail))
      ensures !failed <==> SetupWorks(plan, env, batch, readable, old(world.os))
      ensures !failed ==> s.routes == Some(SetupBatch(plan, env).ctx) && Installed(world.os, s.tun)
      ensures !failed ==>
        world.os == RunSome(SetupBatch(plan, env).cmds, Cut(SetupBatch(plan, env).cmds, batch), old(world.os))
    {
      hide Calm, Kept, Fits, Clean, RecordsFit, SetupBatch, Installed, RunSome;
      var b := BuildSetup(plan, env);
      if b.Refused? { return true; }
      s.routes := Some(b.ctx);
      SaveState(s);
      if Calm(world.trail) { CalmFits(world.trail); }
      ghost var ok;
      failed, ok := RunSetupBatch(plan, env, batch);
      GoesThroughIff(b.cmds, batch, ok);
      if failed {
        var _, _ := TeardownRoutes(b.ctx, s.tun, undo);
        return true;
      }
      var tries := 0;
      while tries < |readable|
        invariant tries <= |readable| && (Installed(world.os, s.tun) ==> true !in readable[..tries])
        modifies {}
      {
        if readable[tries] && Installed(world.os, s.tun) { return false; }
        tries := tries + 1;
      }
      assert readable[..tries] == readable;
      var _, _ := TeardownRoutes(b.ctx, s.tun, undo);
      return true;
    }

    /** Up to three teardown runs, with the flags of each. */
    method TryTeardown(ctx: RouteContext, tun: Tun, luck: seq<Lines>) returns (failed: bool, ghost runs: seq<Lines>)
      requires world.Valid() && world.Now().Records() == Some(Record(ctx, tun))
      modifies world`os, world`trail
      ensures world.Valid() && Grew(old(world.trail), world.trail, true)
      ensures 1 <= |runs| <= 3 && TriedTeardown(ctx, tun, runs, old(world.os), world.os)
      ensures failed <==> AllCut(ctx, tun, luck)
      ensures forall a: nat :: a < |runs| ==> runs[a] == Cut(TeardownBatch(ctx, tun), Try(luck, a))
      ensures forall a: nat :: a < |runs| - 1 ==> |Try(luck, a)| < |TeardownBatch(ctx, tun)|
      ensures failed ==> |runs| == 3
      ensures !failed ==> TornDown(ctx, tun, runs, old(world.os), world.os)
      ensures Calm(world.trail) ==> old(Calm(world.trail))
      ensures !failed && Calm(world.trail) ==> Clean(ctx, tun, world.os)
    {
      hide TeardownBatch, RunSome, RunAll, AfterRuns, TornDown, Calm, Kept, Clean, Fits;
      failed, runs := true, [];
      NoRuns(ctx, tun, world.os);
      var attempt := 0;
      while attempt < 3 && failed
        invariant |runs| == attempt <= 3 && (attempt == 0 ==> failed)
        invariant world.Valid() && Grew(old(world.trail), world.trail, true)
        invariant TriedTeardown(ctx, tun, runs, old(world.os), world.os)
        invariant !failed ==> TornDown(ctx, tun, runs, old(world.os), world.os)
        invariant Calm(world.trail) ==> old(Calm(world.trail))
        invariant !failed && Calm(world.trail) ==> Clean(ctx, tun, world.os)
        invariant forall a: nat :: a < |runs| ==> runs[a] == Cut(TeardownBatch(ctx, tun), Try(luck, a))
        invariant forall a: nat :: a < |runs| - 1 ==> |Try(luck, a)| < |TeardownBatch(ctx, tun)|
        invariant attempt > 0 ==> (failed <==> |Try(luck, attempt - 1)| < |TeardownBatch(ctx, tun)|)
        decreases 3 - attempt
      {
        ghost var ok;
        failed, ok := TeardownRoutes(ctx, tun, if attempt < |luck| then luck[attempt] else []);
        AfterOneMore(TeardownBatch(ctx, tun), runs, ok, old(world.os));
        if !failed { RunsTearDown(ctx, tun, runs, ok, old(world.os)); }
        runs := runs + [ok];
        attempt := attempt + 1;
      }
    }

    /**
      Routes and DNS first; if no run reports success, everything else, journal
      included, stays as it is.  Otherwise the session ends, whether or not a run
      missed something.
     */
    method TeardownLocked(luck: seq<Lines>, hevStops: bool) returns (failed: bool, ghost runs: seq<Lines>)
      requires Valid()
      modifies this`sess, world`os, world`journal, world`hev, world`trail, sess
      ensures Valid() && Grew(old(world.trail), world.trail, true)
      ensures Calm(world.trail) ==> old(Calm(world.trail))
      ensures old(sess) == null ==> !failed && sess == null && unchanged(world)
      ensures old(sess) != null ==>
        (sess != null <==> old(sess.routes).Some? && AllCut(old(sess.routes).value, old(sess).tun, luck))
      ensures failed <==> old(sess) != null && (sess != null || !hevStops)
      ensures old(sess) != null && sess == null ==> world.journal.None? && !world.hev
      ensures old(sess) != null && old(sess.routes).Some? ==>
        && TriedTeardown(old(sess.routes).value, old(sess).tun, runs, old(world.os), world.os)
        && (sess == null ==> TornDown(old(sess.routes).value, old(sess).tun, runs, old(world.os), world.os))
      ensures old(sess) != null && old(sess.routes).None? ==> sess == null && world.os == old(world.os)
      ensures old(sess) != null && sess == null && Calm(world.trail) ==> world.os == world.trail[0].os
      ensures old(sess) != null && sess == null && NoLoss(world.trail, |old(world.trail)| - 1, |world.trail| - 1) ==>
        world.os == old(world.Now()).Destination()
      ensures sess != null ==> failed && sess == old(sess)
      ensures sess != null ==> world.hev == old(world.hev) && world.journal == old(world.journal)
      ensures old(sess) != null ==> old(sess).watcher == old(sess.watcher) && old(sess).stopped
    {
      hide TeardownBatch, RunAll, RunSome, AfterRuns, TornDown, TriedTeardown, Calm, Kept, Clean, Fits, Loses;
      var s := sess;
      runs := [];
      if s == null { return false, runs; }
      s.stopped := true;
      if s.routes.Some? {
        failed, runs := TryTeardown(s.routes.value, s.tun, luck);
        if failed { return true, runs; }
      }
      failed := !hevStops;   // hev does not stop in time and is killed
      s.hevGone, s.routes := true, None;
      sess := null;
      DropEverything();
      CleanEnd(world.trail, |old(world.trail)| - 1);
    }

    /** The tunnel process stops, then the journal goes. */
    method DropEverything()
      requires world.Valid()
      requires Calm(world.trail) && world.Now().Records().Some? ==>
        Clean(world.Now().Records().value.ctx, world.Now().Records().value.tun, world.os)
      modifies world`journal, world`hev, world`trail
      ensures world.Valid() && Grew(old(world.trail), world.trail, true) && world.os == old(world.os)
      ensures world.journal.None? && !world.hev
      ensures Calm(world.trail) ==> old(Calm(world.trail)) && world.os == world.trail[0].os
    {
      world.Mark(HevStopped);
      world.RemoveJournal();
      HomeAtTheEnd(world.trail);
    }

    /** Undoes what a dead helper left behind. */
    method RecoverStale(otherAlive: bool, luck: seq<Lines>) returns (failed: bool, ghost runs: seq<Lines>)
      requires world.Valid()
      modifies world`os, world`journal, world`hev, world`trail
      ensures world.Valid() && Grew(old(world.trail), world.trail, true)
      ensures Calm(world.trail) ==> old(Calm(world.trail))
      ensures failed <==> !RecoverWorks(old(world.Now()), otherAlive, luck)
      ensures failed ==> world.journal == old(world.journal) && world.hev == old(world.hev)
      ensures !failed ==> RecoveredTo(old(world.Now()), runs, world.os)
      ensures !failed && old(world.journal).Some? ==>
        world.hev == (old(world.hev) && !old(world.journal).value.hevRunning)
      ensures !failed ==> world.journal.None?
      ensures old(world.journal).None? ==> !failed && unchanged(world)
      ensures old(world.journal).Some? && otherAlive ==> failed && unchanged(world)
      ensures !otherAlive && old(world.Now().Records()).Some? ==>
        var r := old(world.Now().Records()).value;
        && TriedTeardown(r.ctx, r.tun, runs, old(world.os), world.os)
        && (!failed ==> TornDown(r.ctx, r.tun, runs, old(world.os), world.os))
      ensures old(world.Now().Records()).None? ==> world.os == old(world.os)
      ensures !failed && Calm(world.trail) ==> world.os == world.trail[0].os
      ensures !failed && NoLoss(world.trail, |old(world.trail)| - 1, |world.trail| - 1) ==>
        world.os == old(world.Now()).Destination()
    {
      hide TeardownBatch, RunAll, RunSome, AfterRuns, TornDown, TriedTeardown, Calm, Kept, Clean, Fits, Loses;
      runs := [];
      if world.journal.None? {
        HomeAtTheEnd(world.trail);
        return false, runs;
      }
      if otherAlive { return true, runs; }
      var st := world.journal.value;
      if st.routes.Some? {
        failed, runs := TryTeardown(st.routes.value, st.tun, luck);
        if failed { return true, runs; }
      }
      if st.hevRunning && world.hev { world.Mark(HevStopped); }
      world.RemoveJournal();
      HomeAtTheEnd(world.trail);
      CleanEnd(world.trail, |old(world.trail)| - 1);
      return false, runs;
    }

    /** The stages of bringUp; each may fail, and the session then stands where it got to. */
    method BringUp(s: TunSession, plan: Plan, env: Env, luck: UpLuck) returns (failed: bool)
      requires Valid() && s == sess && s.routes.None? && s.tun == plan.tun
      modifies world`os, world`journal, world`hev, world`trail, s`routes, s`hevGone
      ensures Valid() && Grew(old(world.trail), world.trail, PlanFits(plan, env, world.trail[0].os))
      ensures Calm(world.trail) ==> old(Calm(world.trail))
      ensures !failed <==> luck.Smooth() && SetupWorks(plan, env, luck.batch, luck.readable, old(world.os))
      ensures !failed ==> s.routes == Some(SetupBatch(plan, env).ctx) && world.hev && s.hevGone == old(s.hevGone)
      ensures !failed ==> Installed(world.os, s.tun)
      ensures !failed ==>
        world.os == RunSome(SetupBatch(plan, env).cmds, Cut(SetupBatch(plan, env).cmds, luck.batch), old(world.os))
    {
      hide Calm, Kept, Fits, PlanFits, RecordsFit, SetupWorks, SetupBatch, RunSome, Installed;
      GrewNot(world.trail, PlanFits(plan, env, world.trail[0].os));
      if !luck.prepared { return true; }       // directories, bundled binary, server addresses, hev configuration
      if !luck.hevStarts { return true; }
      world.Mark(HevStarted);
      SaveState(s);
      if !luck.notCancelled { return true; }
      if !luck.hevStays {
        s.hevGone := true;
        world.Mark(HevDied);
        return true;
      }
      failed := SetupRoutesLinux(s, plan, env, luck.batch, luck.readable, luck.undo);
      if failed { return; }
      SaveAgain(s);
      failed := !luck.healthy;
    }

    /** The same record once more. */
    method SaveAgain(s: TunSession)
      requires world.Valid() && world.Now().Records() == RecordOf(s)
      modifies world`journal, world`trail
      ensures world.Valid() && world.Now().Records() == RecordOf(s) && Grew(old(world.trail), world.trail, true)
      ensures Calm(world.trail) ==> old(Calm(world.trail))
    {
      hide Calm, Kept, Fits, RecordsFit;
      if RecordsFit(world.trail, world.trail[0].os) { LastFits(world.trail, world.trail[0].os); }
      SaveState(s);
    }

    /**
      A new session: the machine is `mid` once a dead helper's leftovers are gone, and
      the session comes up from there.
     */
    method Up(plan: Plan, env: Env, otherAlive: bool, luck: UpLuck)
      returns (failed: bool, ghost mid: System, ghost runs: seq<Lines>)
      requires Valid()
      modifies this`sess, this`watched, world`os, world`journal, world`hev, world`trail
      ensures Valid() && Grew(old(world.trail), world.trail, PlanFits(plan, env, world.trail[0].os))
      ensures Calm(world.trail) ==> old(Calm(world.trail))
      ensures !failed <==>
        && old(sess) == null && RecoverWorks(old(world.Now()), otherAlive, luck.recover)
        && luck.Smooth() && SetupWorks(plan, env, luck.batch, luck.readable, mid)
      ensures old(sess) == null && RecoverWorks(old(world.Now()), otherAlive, luck.recover) ==>
        RecoveredTo(old(world.Now()), runs, mid)
      ensures !failed ==>
        && sess != null && fresh(sess) && sess.routes == Some(SetupBatch(plan, env).ctx) && sess.tun == plan.tun
        && sess.watcher == Waiting && !sess.stopped && !sess.hevGone && watched == old(watched) + [sess] && world.hev
        && Installed(world.os, plan.tun)
        && world.os == RunSome(SetupBatch(plan, env).cmds, Cut(SetupBatch(plan, env).cmds, luck.batch), mid)
      ensures failed ==> watched == old(watched)
      ensures old(sess) != null ==> failed && sess == old(sess) && unchanged(world)
      ensures old(sess) == null ==> sess == null || fresh(sess)
    {
      hide Calm, Kept, Fits, PlanFits, TornDown, TriedTeardown, RecordsFit, Installed, Linked, RunAll, TeardownBatch,
        SetupWorks, SetupBatch, RunSome, RecoverWorks, RecoveredTo, NoLoss, AllCut, Cut;
      GrewNot(world.trail, PlanFits(plan, env, world.trail[0].os));
      mid, runs := world.os, [];
      if sess != null { return true, mid, runs; }
      var stale;
      stale, runs := RecoverStale(otherAlive, luck.recover);
      mid := world.os;
      if stale { return true, mid, runs; }
      failed := UpFresh(plan, env, luck);
    }

    /** Up on a machine without a journal. */
    method UpFresh(plan: Plan, env: Env, luck: UpLuck) returns (failed: bool)
      requires Valid() && sess == null && world.journal.None?
      modifies this`sess, this`watched, world`os, world`journal, world`hev, world`trail
      ensures Valid() && Grew(old(world.trail), world.trail, PlanFits(plan, env, world.trail[0].os))
      ensures Calm(world.trail) ==> old(Calm(world.trail))
      ensures !failed <==> luck.Smooth() && SetupWorks(plan, env, luck.batch, luck.readable, old(world.os))
      ensures !failed ==>
        && sess != null && fresh(sess) && sess.routes == Some(SetupBatch(plan, env).ctx) && sess.tun == plan.tun
        && sess.watcher == Waiting && !sess.stopped && !sess.hevGone && watched == old(watched) + [sess] && world.hev
        && Installed(world.os, plan.tun)
        && world.os == RunSome(SetupBatch(plan, env).cmds, Cut(SetupBatch(plan, env).cmds, luck.batch), old(world.os))
      ensures failed ==> watched == old(watched)
      ensures sess == null || fresh(sess)
    {
      hide Calm, Kept, Fits, PlanFits, TornDown, TriedTeardown, RecordsFit, Installed, Linked, RunAll, TeardownBatch,
        SetupWorks, SetupBatch, RunSome, RecoverWorks, RecoveredTo, NoLoss, AllCut, Cut;
      var s := new TunSession(plan.tun);
      sess := s;
      failed := BringUp(s, plan, env, luck);
      if failed {
        var _, _ := TeardownLocked(luck.cleanup, luck.hevStops);
        return true;
      }
      s.watcher := Waiting;
      watched := watched + [s];
    }

    /** The select of watchHev: hev's exit wakes it, a closed stop channel ends it; with both, either may. */
    method WatcherSelects(s: TunSession, exitFirst: bool)
      requires s.watcher == Waiting
      modifies s`watcher
      ensures s.watcher == Woken <==> s.hevGone && (exitFirst || !s.stopped)
      ensures s.watcher == Gone <==> s.stopped && !(s.hevGone && exitFirst)
      ensures s.watcher == Waiting <==> !s.hevGone && !s.stopped
    {
      if s.hevGone && (exitFirst || !s.stopped) {
        s.watcher := Woken;
      } else if s.stopped {
        s.watcher := Gone;
      }
    }

    /** The rest of watchHev, once it has the lock: only its own session is torn down. */
    method WatchHev(s: TunSession, luck: seq<Lines>, hevStops: bool) returns (ghost runs: seq<Lines>)
      requires Valid() && s.watcher == Woken
      modifies this`sess, world`os, world`journal, world`hev, world`trail, sess, s`watcher
      ensures Valid() && Grew(old(world.trail), world.trail, true) && s.watcher == Gone
      ensures Calm(world.trail) ==> old(Calm(world.trail))
      ensures old(sess) != s ==> sess == old(sess) && unchanged(world)
      ensures old(sess) == s ==> sess == s || (sess == null && world.journal.None? && !world.hev)
      ensures old(sess) == s ==> (sess == s <==> old(s.routes).Some? && AllCut(old(s.routes).value, s.tun, luck))
      ensures old(sess) == s && old(s.routes).Some? ==>
        && TriedTeardown(old(s.routes).value, s.tun, runs, old(world.os), world.os)
        && (sess == null ==> TornDown(old(s.routes).value, s.tun, runs, old(world.os), world.os))
      ensures old(sess) == s && old(s.routes).None? ==> sess == null && world.os == old(world.os)
      ensures old(sess) == s && sess == null && Calm(world.trail) ==> world.os == world.trail[0].os
      ensures old(sess) == s && sess == null && NoLoss(world.trail, |old(world.trail)| - 1, |world.trail| - 1) ==>
        world.os == old(world.Now()).Destination()
    {
      hide Calm, Kept, TornDown, TriedTeardown;
      s.watcher := Gone;
      runs := [];
      if sess != s {
        GrewNot(world.trail, true);
        return;
      }
      var _, flags := TeardownLocked(luck, hevStops);
      runs := flags;
    }

    /**
      The helper is killed, and another takes over: sessions and watchers are gone,
      the machine and the journal are not.
     */
    method Crash()
      requires Valid()
      modifies this`sess, this`watched, world`hev, world`trail
      ensures Valid() && sess == null && watched == [] && Grew(old(world.trail), world.trail, true)
      ensures Calm(world.trail) ==> old(Calm(world.trail))
      ensures world.os == old(world.os) && world.journal == old(world.journal) && world.hev == old(world.hev)
    {
      world.Mark(HelperDied);
      sess, watched := null, [];
    }

    /** A session's tunnel process exits by itself. */
    method HevExits(s: TunSession)
      requires Valid() && !s.hevGone
      modifies world`hev, world`trail, s`hevGone
      ensures Valid() && s.hevGone && !world.hev && Grew(old(world.trail), world.trail, true)
      ensures Calm(world.trail) ==> old(Calm(world.trail))
      ensures world.os == old(world.os) && world.journal == old(world.journal)
    {
      s.hevGone := true;
      world.Mark(HevDied);
    }
  }

  /** A dead helper's leftovers can be undone: there are none, or no other helper is alive and some run is not cut. */
  ghost predicate RecoverWorks(s: Snapshot, otherAlive: bool, luck: seq<Lines>) {
    s.journal.None? || (!otherAlive && (s.Records().Some? ==>
      !AllCut(s.Records().value.ctx, s.Records().value.tun, luck)))
  }

  /** What recovery makes of the machine. */
  ghost predicate RecoveredTo(before: Snapshot, runs: seq<Lines>, os: System) {
    match before.Records()
    case None => os == before.os
    case Some(r) => TornDown(r.ctx, r.tun, runs, before.os, os)
  }

  lemma GoesThroughIff(cmds: seq<Cmd>, lines: Lines, ok: Lines)
    requires GetsTo(cmds, lines, ok)
    ensures |ok| == |cmds| <==> GoesThrough(cmds, lines)
    ensures |ok| == |cmds| ==> ok == Cut(cmds, lines)
  {
    if |ok| < |cmds| && |ok| < |lines| { assert !lines[|ok|] && Aborts(cmds[|ok|]); }
  }

  // ------------------------------------------------------------------ whole lives

  datatype HelperEvent =
    | UpAsked(plan: Plan, env: Env, otherAlive: bool, luck: UpLuck)
    | DownAsked(tries: seq<Lines>, hevStops: bool)
    | HevExited(k: nat)
    | WatcherWakes(k: nat, exitFirst: bool)
    | WatcherRuns(k: nat, tries: seq<Lines>, hevStops: bool)
    | HelperKilled          // a new helper takes over
    | RecoverAsked(otherAlive: bool, tries: seq<Lines>)

  /** One event. */
  method Happen(h: Helper, e: HelperEvent)
    requires h.Valid()
    modifies h, h.world, h.sess, h.watched
    ensures h.Valid() && Grew(old(h.world.trail), h.world.trail, e.UpAsked? ==>
      PlanFits(e.plan, e.env, h.world.trail[0].os))
    ensures h.sess == null || h.sess == old(h.sess) || fresh(h.sess)
    ensures forall s :: s in h.watched ==> s in old(h.watched) || fresh(s)
  {
    hide Calm, Kept, Fits, PlanFits, TornDown, TriedTeardown, Loses, RecordsFit, SetupWorks, RecoverWorks, RecoveredTo,
      AllCut, Installed, RunSome, SetupBatch, TeardownBatch;
    GrewNot(h.world.trail, e.UpAsked? ==> PlanFits(e.plan, e.env, h.world.trail[0].os));
    match e {
      case UpAsked(plan, env, otherAlive, luck) => var _, _, _ := h.Up(plan, env, otherAlive, luck);
      case DownAsked(tries, hevStops) => var _, _ := h.TeardownLocked(tries, hevStops);
      case HevExited(k) =>
        if k < |h.watched| && !h.watched[k].hevGone {
          assert h.watched[k] in h.watched;
          h.HevExits(h.watched[k]);
        }
      case WatcherWakes(k, exitFirst) =>
        if k < |h.watched| && h.watched[k].watcher == Waiting {
          assert h.watched[k] in h.watched;
          h.WatcherSelects(h.watched[k], exitFirst);
        }
      case WatcherRuns(k, tries, hevStops) =>
        if k < |h.watched| && h.watched[k].watcher == Woken {
          assert h.watched[k] in h.watched;
          ghost var _ := h.WatchHev(h.watched[k], tries, hevStops);
        }
      case HelperKilled => h.Crash();
      case RecoverAsked(otherAlive, tries) =>
        if h.sess == null { var _, _ := h.RecoverStale(otherAlive, tries); }
    }
  }

  /**
    Any sequence of requests, tunnel deaths, watchers of current and past
    sessions, kills and relaunches, on any machine: each step of the trail changes
    where recovery leads exactly if it is a loss.
    If every plan fits the machine as it was in the beginning, and no teardown line
    or backup with work to do was skipped, there is no loss: from every single
    point the journal leads home.
   */
  method Lifetime(h: Helper, events: seq<HelperEvent>)
    requires h.Valid()
    modifies h, h.world, h.sess, h.watched
    ensures h.Valid() && old(h.world.trail) <= h.world.trail
    ensures forall i {:trigger h.world.trail[i]} :: 0 < i < |h.world.trail| ==>
      var a, b := h.world.trail[i - 1], h.world.trail[i];
      b.Destination() == a.Destination() <==> !Loses(a, b)
    ensures PlansFit(events, h.world.trail[0].os) && RecordsFit(old(h.world.trail), h.world.trail[0].os) ==>
      NoWorkSkipped(h.world.trail) ==>
        && NoLoss(h.world.trail, 0, |h.world.trail| - 1)
        && forall i :: 0 <= i < |h.world.trail| ==> h.world.trail[i].Destination() == h.world.trail[0].os
  {
    hide Calm, Kept, Fits, PlanFits, TornDown, TriedTeardown, Loses, RecordsFit;
    ghost var home, fits := h.world.trail[0].os, PlansFit(events, h.world.trail[0].os);
    GrewNot(h.world.trail, fits);
    for n := 0 to |events|
      invariant h.Valid() && Grew(old(h.world.trail), h.world.trail, fits)
      invariant h.sess == null || h.sess == old(h.sess) || fresh(h.sess)
      invariant forall s :: s in h.watched ==> s in old(h.watched) || fresh(s)
    {
      ghost var before := h.world.trail;
      assert fits && events[n].UpAsked? ==> PlanFits(events[n].plan, events[n].env, home);
      assert forall k :: 0 <= k < |h.watched| ==> h.watched[k] in h.watched;
      Happen(h, events[n]);
      GrewMore(before, h.world.trail, events[n].UpAsked? ==> PlanFits(events[n].plan, events[n].env, home), fits);
      GrewTwice(old(h.world.trail), before, h.world.trail, fits);
    }
    TrailIsExact(h.world.trail);
    CalmTrail(old(h.world.trail), h.world.trail, fits);
  }

  ghost predicate PlansFit(events: seq<HelperEvent>, home: System) {
    forall e :: e in events && e.UpAsked? ==> PlanFits(e.plan, e.env, home)
  }

  lemma GrewMore(was: seq<Snapshot>, now: seq<Snapshot>, fits: bool, less: bool)
    requires Grew(was, now, fits) && (less ==> fits)
    ensures Grew(was, now, less)
  {
  }

  lemma GrewTwice(was: seq<Snapshot>, mid: seq<Snapshot>, now: seq<Snapshot>, fits: bool)
    requires Grew(was, mid, fits) && (Grew(mid, now, fits) || now == mid)
    ensures Grew(was, now, fits)
  {
  }

  lemma TrailIsExact(trail: seq<Snapshot>)
    requires IsTrail(trail)
    ensures forall i {:trigger trail[i]} :: 0 < i < |trail| ==>
      (trail[i].Destination() == trail[i - 1].Destination() <==> !Loses(trail[i - 1], trail[i]))
  {
    forall i | 0 < i < |trail|
      ensures trail[i].Destination() == trail[i - 1].Destination() <==> !Loses(trail[i - 1], trail[i])
    {
      StepMovesIff(trail[i - 1], trail[i]);
    }
  }

  lemma CalmTrail(was: seq<Snapshot>, trail: seq<Snapshot>, fits: bool)
    requires Grew(was, trail, fits) && (Calm(trail) ==> Kept(trail)) && trail[0].journal.None?
    ensures RecordsFit(was, trail[0].os) && fits && NoWorkSkipped(trail) ==>
      && NoLoss(trail, 0, |trail| - 1)
      && forall i :: 0 <= i < |trail| ==> trail[i].Destination() == trail[0].os
  {
    if RecordsFit(was, trail[0].os) && fits && NoWorkSkipped(trail) {
      forall i | 0 <= i < |trail| ensures trail[i].Destination() == trail[0].os {
        KeptLeadsHome(trail, i);
      }
    }
  }
}
