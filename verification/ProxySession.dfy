/**
  The session the backend runs under its operation lock: core process,
  background workers, custom rule server and tunnel flags, with tunnel events
  arriving from other goroutines between any two steps.
 */
module ProxySession {

  datatype Phase = PhaseStopped | PhaseStarting | PhaseRunning | PhaseStopping

  /** The part of the runtime state and of the backend's fields the lifecycle turns on. */
  datatype View = View(
    phase: Phase,
    coreRunning: bool,
    kernel: bool,
    workers: bool,
    ruleServer: bool,
    tunRequested: bool,
    tunRunning: bool)

  /** No core, no workers, no rule server, and no tunnel, wanted or running. */
  predicate FullyStopped(v: View) {
    v == View(PhaseStopped, false, false, false, false, false, false)
  }

  /** Core and workers run. */
  predicate Running(v: View) { v.phase == PhaseRunning && v.coreRunning && v.kernel && v.workers }

  /** And a running tunnel is a wanted one. */
  predicate FullyRunning(v: View) { Running(v) && (v.tunRunning ==> v.tunRequested) }

  /** A wanted tunnel that is down, in a running session. */
  predicate TunLost(v: View) { v.phase == PhaseRunning && v.tunRequested && !v.tunRunning }

  datatype Outcome = Unchanged | Done | NeedsAdmin | StartCancelled | Failed

  /** How the helper fares with a tunnel it is asked for. */
  datatype TunUp = Comes | Fails | Refused

  /**
    How a start fares, stage by stage; cancelledLate is whether a failed one turns
    out to have been cancelled meanwhile.
   */
  datatype StartLuck = StartLuck(
    ready: bool, rules: bool, coreStarts: bool, cancelledEarly: bool, tun: TunUp, cancelledAtEnd: bool,
    cancelledLate: bool)
  {
    /** Everything up to the tunnel works. */
    predicate CoreUp() { ready && coreStarts && !cancelledEarly }

    predicate Smooth(withTun: bool) { CoreUp() && (withTun ==> tun == Comes) && !cancelledAtEnd }

    /** How a start that is not smooth ends. */
    function Failure(withTun: bool): Outcome
      requires !Smooth(withTun)
    {
      if CoreUp() && withTun && tun == Refused then NeedsAdmin
      else if cancelledLate || (ready && coreStarts && (cancelledEarly || !withTun || tun == Comes)) then StartCancelled
      else Failed
    }

    /** Rights come first, then any cancellation seen at a check or afterwards. */
    lemma HowItFails(withTun: bool)
      requires !Smooth(withTun)
      ensures Failure(withTun) == NeedsAdmin <==> CoreUp() && withTun && tun == Refused
      ensures Failure(withTun) in {NeedsAdmin, StartCancelled, Failed}
      ensures Failure(withTun) == StartCancelled <==>
        && !(CoreUp() && withTun && tun == Refused)
        && ((ready && coreStarts && cancelledEarly) || (CoreUp() && (withTun ==> tun == Comes) && cancelledAtEnd) ||
            cancelledLate)
    {
    }
  }

  /** Whether the helper was asked for a tunnel and did not bring it up. */
  predicate UpFailed(outcome: Outcome, hasAdmin: bool) { outcome == Failed || (outcome == NeedsAdmin && hasAdmin) }

  /** How a live switch ends. */
  function ApplyOutcome(want: bool, hasAdmin: bool, up: TunUp): Outcome {
    if !want || (hasAdmin && up == Comes) then Done
    else if hasAdmin && up == Fails then Failed
    else NeedsAdmin
  }

  /** applyTunLocked between two tunnel events: what it leaves, by how the tunnel fared. */
  function ApplyTun(v: View, want: bool, hasAdmin: bool, upFails: bool): View {
    if !want then v.(tunRequested := false, tunRunning := false)
    else if !hasAdmin then v
    else if upFails then v.(tunRequested := false)
    else v.(tunRequested := true, tunRunning := true)
  }

  /**
    The live tunnel switch keeps a running session consistent, however the tunnel
    fares, exactly when it is not asked to bring up a tunnel that is already
    running.
   */
  lemma ApplyTunKeepsRunningIff(v: View, want: bool)
    requires FullyRunning(v)
    ensures (forall hasAdmin, upFails :: FullyRunning(ApplyTun(v, want, hasAdmin, upFails))) <==>
      !(want && v.tunRunning)
  {
    if want && v.tunRunning {
      assert !FullyRunning(ApplyTun(v, want, true, true));
    }
  }

  /** The failing input: switching on a tunnel that is already up, which the helper refuses. */
  lemma SwitchingOnARunningTunnelCanLoseTheRequest()
    ensures var v := View(PhaseRunning, true, true, true, false, true, true);
      FullyRunning(v) && ApplyTun(v, true, true, true).tunRunning && !ApplyTun(v, true, true, true).tunRequested
  {
  }

  method Perhaps() returns (b: bool) {
    b := *;
  }

  class Backend {
    var phase: Phase
    var coreRunning: bool
    var kernel: bool
    var workers: bool
    var ruleServer: bool
    var tunRequested: bool
    var tunRunning: bool
    var checked: nat           // tunnel events that saw a running tunnel and have not cleared the flag yet
    var cleared: nat           // tunnel events that cleared the flag and have not queued a recovery yet
    var queued: nat            // recoverTun goroutines waiting for the lock or at work
    ghost var losses: nat      // how often a tunnel event cleared the flag so far
    ghost var slips: nat       // how often a failed live switch left a running tunnel unwanted

    ghost function State(): View
      reads this
    {
      View(phase, coreRunning, kernel, workers, ruleServer, tunRequested, tunRunning)
    }

    /** What holds whenever the operation lock is free. */
    ghost predicate Idle()
      reads this
    {
      && (FullyStopped(State()) || Running(State()))
      && (slips == 0 ==> FullyStopped(State()) || FullyRunning(State()))
      && (TunLost(State()) ==> cleared + queued > 0)
    }

    constructor ()
      ensures Idle() && FullyStopped(State()) && queued == 0 && slips == 0
    {
      phase, coreRunning, kernel, workers, ruleServer, tunRequested, tunRunning := PhaseStopped, false, false, false,
        false, false, false;
      checked, cleared, queued, losses, slips := 0, 0, 0, 0, 0;
    }

    // ---------------------------------------------------------------- tunnel events

    /**
      Any number of steps of onTunEvent calls on other goroutines: an event sees
      tunRunning, clears it, and queues a recovery, with anything in between.
     */
    method TunEvents()
      modifies this`tunRunning, this`checked, this`cleared, this`queued, this`losses
      ensures tunRunning ==> old(tunRunning)
      ensures cleared + queued >= old(cleared + queued) && queued >= old(queued) && losses >= old(losses)
      ensures losses == old(losses) ==> tunRunning == old(tunRunning)
      ensures old(tunRunning) && !tunRunning ==> cleared + queued > old(cleared + queued)
    {
      var more := Perhaps();
      var steps: nat := *;
      while more && steps > 0
        invariant tunRunning ==> old(tunRunning)
        invariant cleared + queued >= old(cleared + queued) && queued >= old(queued) && losses >= old(losses)
        invariant losses == old(losses) ==> tunRunning == old(tunRunning)
        invariant old(tunRunning) && !tunRunning ==> cleared + queued > old(cleared + queued)
        decreases steps
      {
        var which: nat := *;
        if which == 0 {
          EventLooks();
        } else if which == 1 {
          EventClears();
        } else {
          EventQueues();
        }
        more := Perhaps();
        steps := steps - 1;
      }
    }

    /** The first step of an event: it goes on only if the tunnel is flagged as running. */
    method EventLooks()
      modifies this`checked
      ensures checked == old(checked) + if tunRunning then 1 else 0
    {
      if tunRunning { checked := checked + 1; }
    }

    /** The last step of an event that has cleared the flag: it queues one recovery. */
    method EventQueues()
      modifies this`cleared, this`queued
      ensures old(cleared) == 0 ==> unchanged(this)
      ensures old(cleared) > 0 ==> cleared == old(cleared) - 1 && queued == old(queued) + 1
    {
      if cleared > 0 { cleared, queued := cleared - 1, queued + 1; }
    }

    /** The clearing step of one event that had seen a running tunnel. */
    method EventClears()
      modifies this`tunRunning, this`checked, this`cleared, this`losses
      ensures old(checked) == 0 ==> unchanged(this)
      ensures old(checked) > 0 ==>
        !tunRunning && checked == old(checked) - 1 && cleared == old(cleared) + 1 && losses == old(losses) + 1
    {
      if checked > 0 {
        tunRunning := false;
        checked, cleared, losses := checked - 1, cleared + 1, losses + 1;
      }
    }

    // ---------------------------------------------------------------- the tunnel

    /** Brings the tunnel up; a failure leaves the flags alone. */
    method TunUpLocked(works: bool) returns (failed: bool)
      modifies this`tunRunning, this`checked, this`cleared, this`queued, this`losses
      ensures cleared + queued >= old(cleared + queued) && queued >= old(queued) && losses >= old(losses)
      ensures failed == !works
      ensures failed ==> (tunRunning ==> old(tunRunning)) && (losses == old(losses) ==> tunRunning == old(tunRunning))
      ensures failed && old(tunRunning) && !tunRunning ==> cleared + queued > old(cleared + queued)
      ensures !failed ==> tunRunning || cleared + queued > old(cleared + queued)
      ensures !failed && losses == old(losses) ==> tunRunning
    {
      TunEvents();
      if !works { return true; }
      failed := false;
      tunRunning := true;
      TunEvents();
    }

    method TunDownLocked()
      modifies this`tunRunning, this`checked, this`cleared, this`queued, this`losses
      ensures !tunRunning
      ensures cleared + queued >= old(cleared + queued) && queued >= old(queued) && losses >= old(losses)
    {
      tunRunning := false;
      TunEvents();
    }

    /**
      Switches the tunnel while the core runs; a tunnel that cannot come up is
      switched off again.  The helper may also refuse for want of rights, although
      they were there to begin with.
     */
    method ApplyTunLocked(want: bool, hasAdmin: bool, up: TunUp) returns (outcome: Outcome)
      requires Idle() && Running(State())
      modifies this`tunRequested, this`tunRunning, this`checked, this`cleared, this`queued, this`losses, this`slips
      ensures Idle() && Running(State())
      ensures slips == old(slips) + if UpFailed(outcome, hasAdmin) && tunRunning then 1 else 0
      ensures UpFailed(outcome, hasAdmin) && tunRunning ==> want && old(tunRunning)
      ensures losses == old(losses) ==> State() == ApplyTun(old(State()), want, hasAdmin, UpFailed(outcome, hasAdmin))
      ensures outcome == Done ==> tunRequested == want
      ensures outcome == Failed ==> want && hasAdmin && !tunRequested
      ensures outcome == NeedsAdmin ==> want && tunRequested == (!hasAdmin && old(tunRequested))
      ensures outcome == ApplyOutcome(want, hasAdmin, up) && queued >= old(queued) && losses >= old(losses)
    {
      if !want {
        tunRequested := false;
        TunDownLocked();
        return Done;
      }
      if !hasAdmin { return NeedsAdmin; }
      tunRequested := true;
      var failed := TunUpLocked(up == Comes);
      if failed {
        tunRequested := false;
        if tunRunning { slips := slips + 1; }
        return if up == Refused then NeedsAdmin else Failed;
      }
      return Done;
    }

    // ---------------------------------------------------------------- teardown

    /** Undoes everything, in reverse order, from any state. */
    method TeardownLocked()
      modifies this
      ensures FullyStopped(State()) && slips == old(slips)
      ensures cleared + queued >= old(cleared + queued) && queued >= old(queued) && losses >= old(losses)
    {
      var k := kernel;
      if k || tunRunning { phase := PhaseStopping; }
      workers := false;
      TunDownLocked();
      if k { kernel := false; }
      ruleServer := false;
      TunEvents();
      phase := PhaseStopped;
      coreRunning, tunRunning, tunRequested := false, false, false;
    }

    // ---------------------------------------------------------------- operations, each with the lock held throughout

    method StopProxy()
      requires Idle()
      modifies this
      ensures Idle() && FullyStopped(State()) && queued >= old(queued) && slips == old(slips)
    {
      TeardownLocked();
    }

    /** The stages of a start; any of them may fail. */
    method BringUpLocked(withTun: bool, luck: StartLuck) returns (failed: bool)
      requires !kernel && !workers && phase == PhaseStarting && tunRequested == withTun && !tunRunning
      modifies this
      ensures failed <==> !luck.Smooth(withTun)
      ensures !failed ==> FullyRunning(State()) && tunRequested == withTun && ruleServer == luck.rules
      ensures !failed && TunLost(State()) ==> cleared + queued > 0
      ensures !failed && losses == old(losses) ==> tunRunning == withTun
      ensures queued >= old(queued) && losses >= old(losses) && slips == old(slips)
    {
      if !luck.ready { return true; }          // no nodes, no binary, ports taken
      ruleServer := luck.rules;
      if !luck.coreStarts { return true; }
      kernel, coreRunning := true, true;
      workers := true;
      if luck.cancelledEarly { return true; }
      TunEvents();                             // the system proxy is applied here
      if withTun {
        failed := TunUpLocked(luck.tun == Comes);
        if failed { return; }
      }
      if luck.cancelledAtEnd { return true; }
      phase := PhaseRunning;
      failed := false;
    }

    /** A start without a core running: everything comes up, or nothing is left. */
    method StartFresh(withTun: bool, luck: StartLuck) returns (outcome: Outcome)
      requires Idle() && !kernel
      modifies this
      ensures Idle() && queued >= old(queued) && losses >= old(losses) && slips == old(slips)
      ensures outcome == if luck.Smooth(withTun) then Done else luck.Failure(withTun)
      ensures outcome in {Done, NeedsAdmin, StartCancelled, Failed}
      ensures outcome == Done <==> luck.Smooth(withTun)
      ensures outcome == NeedsAdmin <==> luck.CoreUp() && withTun && luck.tun == Refused
      ensures outcome == Done ==> Running(State()) && tunRequested == withTun && ruleServer == luck.rules
      ensures outcome == Done && losses == old(losses) ==> tunRunning == withTun
      ensures outcome != Done ==> FullyStopped(State())
    {
      hide StartLuck.Failure;
      phase := PhaseStarting;
      tunRequested, tunRunning := withTun, false;
      var failed := BringUpLocked(withTun, luck);
      if failed {
        TeardownLocked();
        luck.HowItFails(withTun);
        if luck.CoreUp() && withTun && luck.tun == Refused { return NeedsAdmin; }
        var wasCancelled := (luck.ready && luck.coreStarts && luck.cancelledEarly)
          || (luck.CoreUp() && (withTun ==> luck.tun == Comes) && luck.cancelledAtEnd)
          || luck.cancelledLate;
        return if wasCancelled then StartCancelled else Failed;
      }
      return Done;
    }

    method StartProxy(withTun: bool, hasAdmin: bool, cancelled: bool, luck: StartLuck) returns (outcome: Outcome)
      requires Idle()
      modifies this
      ensures Idle() && queued >= old(queued) && losses >= old(losses)
      ensures outcome ==
        if cancelled then StartCancelled
        else if old(kernel) then
          if old(tunRequested) == withTun then Unchanged else ApplyOutcome(withTun, hasAdmin, luck.tun)
        else if withTun && !hasAdmin then NeedsAdmin
        else if luck.Smooth(withTun) then Done
        else luck.Failure(withTun)
      ensures !old(kernel) ==>
        (outcome == Done <==>
          && !cancelled && luck.ready && luck.coreStarts && !luck.cancelledEarly && !luck.cancelledAtEnd
          && (withTun ==> hasAdmin && luck.tun == Comes))
      ensures !old(kernel) ==>
        (outcome == NeedsAdmin <==>
          && !cancelled && withTun
          && (!hasAdmin || (luck.ready && luck.coreStarts && !luck.cancelledEarly && luck.tun == Refused)))
      ensures outcome == Done ==> Running(State()) && tunRequested == withTun
      ensures outcome == Done && losses == old(losses) ==> tunRunning == withTun
      ensures outcome == Done && !old(kernel) ==> ruleServer == luck.rules
      ensures outcome == Failed ==> if old(kernel) then Running(State()) && !tunRequested else FullyStopped(State())
      ensures cancelled ==> outcome == StartCancelled && State() == old(State()).(tunRunning := tunRunning)
      ensures outcome == StartCancelled && !cancelled ==> !old(kernel) && FullyStopped(State())
      ensures outcome == NeedsAdmin ==> withTun
      ensures outcome == NeedsAdmin ==> if old(kernel) then Running(State()) && !tunRequested else FullyStopped(State())
      ensures outcome == Unchanged ==> Running(State()) && tunRequested == withTun
      ensures outcome == Unchanged ==> State() == old(State()).(tunRunning := tunRunning)
      ensures slips <= old(slips) + 1
      ensures slips > old(slips) ==> old(tunRunning) && !old(tunRequested) && UpFailed(outcome, hasAdmin)
    {
      hide StartLuck.Failure;
      TunEvents();
      if cancelled { return StartCancelled; }
      if kernel {
        if tunRequested == withTun { return Unchanged; }
        outcome := ApplyTunLocked(withTun, hasAdmin, luck.tun);
        return;
      }
      if withTun && !hasAdmin { return NeedsAdmin; }
      outcome := StartFresh(withTun, luck);
    }

    /** The config switch on a live session; see ApplyTunKeepsRunningIff for its one hole. */
    method ApplyTunLive(want: bool, hasAdmin: bool, up: TunUp) returns (outcome: Outcome)
      requires Idle()
      modifies this
      ensures Idle() && queued >= old(queued)
      ensures old(phase) != PhaseRunning ==> outcome == Unchanged && State() == old(State()) && slips == old(slips)
      ensures old(phase) == PhaseRunning ==>
        && outcome == ApplyOutcome(want, hasAdmin, up) && Running(State())
        && slips == old(slips) + (if UpFailed(outcome, hasAdmin) && tunRunning then 1 else 0)
        && (UpFailed(outcome, hasAdmin) && tunRunning ==> want && old(tunRunning))
      ensures old(phase) == PhaseRunning && losses == old(losses) ==>
        State() == ApplyTun(old(State()), want, hasAdmin, UpFailed(outcome, hasAdmin))
    {
      if phase != PhaseRunning { return Unchanged; }
      outcome := ApplyTunLocked(want, hasAdmin, up);
    }

    /** Rebuilds a running tunnel; failing that, the whole session stops. */
    method ReapplyTun(works: bool) returns (failed: bool)
      requires Idle()
      modifies this
      ensures Idle() && queued >= old(queued)
      ensures failed ==> old(tunRunning) && !works && FullyStopped(State())
      ensures losses == old(losses) ==> (failed <==> old(tunRunning) && !works)
      ensures losses >= old(losses)
      ensures !failed && old(kernel) ==> Running(State()) && tunRequested == old(tunRequested)
      ensures slips == old(slips)
      ensures !old(tunRunning) ==> !failed && State() == old(State())
      ensures old(tunRunning) && !failed && losses == old(losses) ==> tunRunning
    {
      TunEvents();
      if !tunRunning { return false; }
      TunDownLocked();
      failed := TunUpLocked(works);
      if failed { TeardownLocked(); }
    }

    /**
      One queued recovery: afterwards a wanted tunnel that is down has another
      recovery coming, or the session has stopped.
     */
    method RecoverTun(works: bool)
      requires Idle() && queued > 0
      modifies this
      ensures Idle() && queued >= old(queued) - 1 && slips == old(slips)
      ensures TunLost(old(State())) && !works ==> FullyStopped(State())
      ensures losses == old(losses) && TunLost(old(State())) && works ==>
        FullyRunning(State()) && tunRequested && tunRunning && State() == old(State()).(tunRunning := true)
      ensures losses == old(losses) && !TunLost(old(State())) ==> State() == old(State())
    {
      TunEvents();
      if phase != PhaseRunning || !tunRequested || tunRunning {
        TunEvents();
        queued := queued - 1;
        return;
      }
      var failed := TunUpLocked(works);
      if failed { TeardownLocked(); }
      queued := queued - 1;
    }

    /** The core died: unless the session is another one by now, it stops. */
    method SuperviseKernel(sameKernel: bool)
      requires Idle()
      modifies this
      ensures Idle() && queued >= old(queued) && slips == old(slips)
      ensures old(kernel) && sameKernel ==> FullyStopped(State())
      ensures !(old(kernel) && sameKernel) ==> State() == old(State()).(tunRunning := tunRunning)
    {
      TunEvents();
      if !kernel || !sameKernel { return; }
      TeardownLocked();
    }
  }

  // ------------------------------------------------------------------ whole lives

  datatype Request =
    | Start(withTun: bool, hasAdmin: bool, cancelled: bool, luck: StartLuck)
    | StopIt
    | LiveSwitch(want: bool, hasAdmin: bool, up: TunUp)
    | Reapply(works: bool)
    | Recover(works: bool)
    | CoreDied(sameKernel: bool)

  /**
    Whatever operations run, in whatever order, and whatever tunnel events fall
    between their steps, the session is fully stopped or running whenever the lock
    is free, and a wanted tunnel that is down has a recovery coming.  A running
    tunnel is a wanted one as long as no failed live switch has slipped.
   */
  method Lifetime(b: Backend, requests: seq<Request>)
    requires b.Idle()
    modifies b
    ensures FullyStopped(b.State()) || Running(b.State())
    ensures b.slips == 0 ==> FullyStopped(b.State()) || FullyRunning(b.State())
    ensures TunLost(b.State()) ==> b.cleared + b.queued > 0
  {
    for n := 0 to |requests|
      invariant b.Idle()
    {
      b.TunEvents();
      match requests[n] {
        case Start(withTun, hasAdmin, cancelled, luck) => var _ := b.StartProxy(withTun, hasAdmin, cancelled, luck);
        case StopIt => b.StopProxy();
        case LiveSwitch(want, hasAdmin, up) => var _ := b.ApplyTunLive(want, hasAdmin, up);
        case Reapply(works) => var _ := b.ReapplyTun(works);
        case Recover(works) => if b.queued > 0 { b.RecoverTun(works); }
        case CoreDied(sameKernel) => b.SuperviseKernel(sameKernel);
      }
    }
  }
}
