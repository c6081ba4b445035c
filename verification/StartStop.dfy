/**
  Starting and stopping the proxy from several goroutines: the sequence-numbered
  cancel function, the operation lock, and what a stop guarantees about the
  starts that came before it.
 */
module StartStop {

  import opened Options

  /** Where a StartProxy call stands. */
  datatype StartPc =
    | Begun        // beginStart returned
    | Holding      // has opMu, has not looked at its context yet
    | Working      // looked, and was not cancelled
    | Leaving      // about to give opMu back
    | Unlocked     // deferred release still to run
    | Cleared      // release has looked at the sequence number, not yet called cancel
    | Released

  datatype Start = Start(seqNo: nat, pc: StartPc)

  /** Where a StopProxy call stands. */
  datatype StopPc = Cancelled | Stopping | TornDown | Returned

  /** `earlier`: the starts begun before this stop's cancelStart. */
  datatype Stop = Stop(pc: StopPc, earlier: set<nat>)

  datatype Holder = StartHolds(i: nat) | StopHolds(j: nat) | OtherHolds

  datatype State = State(
    startSeq: nat,
    startStop: Option<nat>,      // whose cancel function is stored
    cancelled: set<nat>,         // starts whose context is done
    starts: map<nat, Start>,
    stops: map<nat, Stop>,
    opMu: Option<Holder>,
    session: Option<nat>)        // the start that brought the session up

  datatype Step =
    | BeginStart(i: nat)
    | LockStart(i: nat)
    | LookAtContext(i: nat)
    | StartKernel(i: nat)
    | BringUpFails(i: nat)
    | FinishWork(i: nat)
    | UnlockStart(i: nat)
    | ClearStored(i: nat)
    | CancelSelf(i: nat)
    | CancelStart(j: nat)
    | LockStop(j: nat)
    | Teardown(j: nat)
    | UnlockStop(j: nat)
    | OtherLock
    | OtherTeardown
    | OtherUnlock

  function Init(): State { State(0, None, {}, map[], map[], None, None) }

  /** The stored cancel function, if any, is called. */
  function CancelStored(s: State): set<nat> {
    s.cancelled + if s.startStop.Some? then {s.startStop.value} else {}
  }

  predicate HoldsStart(s: State, i: nat, pc: StartPc) {
    i in s.starts && s.starts[i].pc == pc && s.opMu == Some(StartHolds(i))
  }

  function MoveStart(s: State, i: nat, pc: StartPc): State
    requires i in s.starts
  {
    s.(starts := s.starts[i := s.starts[i].(pc := pc)])
  }

  function MoveStop(s: State, j: nat, pc: StopPc): State
    requires j in s.stops
  {
    s.(stops := s.stops[j := s.stops[j].(pc := pc)])
  }

  predicate Enabled(s: State, a: Step) {
    match a
    case BeginStart(i) => i !in s.starts
    case LockStart(i) => i in s.starts && s.starts[i].pc == Begun && s.opMu.None?
    case LookAtContext(i) => HoldsStart(s, i, Holding)
    case StartKernel(i) => HoldsStart(s, i, Working) && s.session.None?
    case BringUpFails(i) => HoldsStart(s, i, Working) && (s.session.None? || s.session == Some(i))
    case FinishWork(i) => HoldsStart(s, i, Working)
    case UnlockStart(i) => HoldsStart(s, i, Leaving)
    case ClearStored(i) => i in s.starts && s.starts[i].pc == Unlocked
    case CancelSelf(i) => i in s.starts && s.starts[i].pc == Cleared
    case CancelStart(j) => j !in s.stops
    case LockStop(j) => j in s.stops && s.stops[j].pc == Cancelled && s.opMu.None?
    case Teardown(j) => j in s.stops && s.stops[j].pc == Stopping && s.opMu == Some(StopHolds(j))
    case UnlockStop(j) => j in s.stops && s.stops[j].pc == TornDown && s.opMu == Some(StopHolds(j))
    case OtherLock => s.opMu.None?
    case OtherTeardown => s.opMu == Some(OtherHolds)
    case OtherUnlock => s.opMu == Some(OtherHolds)
  }

  function Next(s: State, a: Step): State
    requires Enabled(s, a)
  {
    match a
    case BeginStart(i) =>
      s.(cancelled := CancelStored(s), startSeq := s.startSeq + 1, startStop := Some(i),
         starts := s.starts[i := Start(s.startSeq + 1, Begun)])
    case LockStart(i) => MoveStart(s, i, Holding).(opMu := Some(StartHolds(i)))
    case LookAtContext(i) => MoveStart(s, i, if i in s.cancelled then Leaving else Working)
    case StartKernel(i) => s.(session := Some(i))
    case BringUpFails(i) => MoveStart(s, i, Leaving).(session := None)
    case FinishWork(i) => MoveStart(s, i, Leaving)
    case UnlockStart(i) => MoveStart(s, i, Unlocked).(opMu := None)
    case ClearStored(i) =>
      MoveStart(s, i, Cleared).(startStop := if s.startSeq == s.starts[i].seqNo then None else s.startStop)
    case CancelSelf(i) => MoveStart(s, i, Released).(cancelled := s.cancelled + {i})
    case CancelStart(j) =>
      s.(cancelled := CancelStored(s), stops := s.stops[j := Stop(Cancelled, s.starts.Keys)])
    case LockStop(j) => MoveStop(s, j, Stopping).(opMu := Some(StopHolds(j)))
    case Teardown(j) => MoveStop(s, j, TornDown).(session := None)
    case UnlockStop(j) => MoveStop(s, j, Returned).(opMu := None)
    case OtherLock => s.(opMu := Some(OtherHolds))
    case OtherTeardown => s.(session := None)
    case OtherUnlock => s.(opMu := None)
  }

  // ------------------------------------------------------------------ the invariant

  predicate InOperation(pc: StartPc) { pc == Holding || pc == Working || pc == Leaving }

  /** Done but for its deferred cancel. */
  predicate Past(pc: StartPc) { pc == Cleared || pc == Released }

  /** The lock is with exactly the call that is inside its operation. */
  ghost predicate LockTells(s: State) {
    && (forall i :: i in s.starts && InOperation(s.starts[i].pc) ==> s.opMu == Some(StartHolds(i)))
    && (forall j :: j in s.stops && (s.stops[j].pc == Stopping || s.stops[j].pc == TornDown) ==>
      s.opMu == Some(StopHolds(j)))
    && (s.opMu.Some? ==> HolderInside(s, s.opMu.value))
  }

  /** The holder of the lock is a call inside its operation. */
  predicate HolderInside(s: State, h: Holder) {
    match h
    case StartHolds(i) => i in s.starts && InOperation(s.starts[i].pc)
    case StopHolds(j) => j in s.stops && (s.stops[j].pc == Stopping || s.stops[j].pc == TornDown)
    case OtherHolds => true
  }

  ghost predicate NumbersBounded(s: State) { forall i :: i in s.starts ==> s.starts[i].seqNo <= s.startSeq }

  ghost predicate NumbersDiffer(s: State) {
    forall i, k :: i in s.starts && k in s.starts && s.starts[i].seqNo == s.starts[k].seqNo ==> i == k
  }

  ghost predicate StoredIsNewest(s: State) {
    s.startStop.Some? ==>
      && s.startStop.value in s.starts
      && s.starts[s.startStop.value].seqNo == s.startSeq
      && !Past(s.starts[s.startStop.value].pc)
  }

  /** Sequence numbers tell starts apart, and the stored cancel function is the newest start's. */
  ghost predicate SequenceTells(s: State) { NumbersBounded(s) && NumbersDiffer(s) && StoredIsNewest(s) }

  /** Every unreleased start except the newest is cancelled. */
  ghost predicate OlderCancelled(s: State) {
    forall i :: i in s.starts && !Past(s.starts[i].pc) && s.startStop != Some(i) ==> i in s.cancelled
  }

  /** A stop has cancelled everything unreleased that began before it. */
  ghost predicate StopsCancel(s: State) {
    forall j, i :: j in s.stops && i in s.stops[j].earlier ==>
      i in s.starts && (i in s.cancelled || Past(s.starts[i].pc))
  }

  predicate Over(st: Stop) { st.pc == TornDown || st.pc == Returned }

  ghost predicate NoEarlierWorks(s: State) {
    forall j, i :: j in s.stops && Over(s.stops[j]) && i in s.stops[j].earlier && i in s.starts ==>
      s.starts[i].pc != Working
  }

  ghost predicate NoEarlierOwns(s: State) {
    forall j :: j in s.stops && Over(s.stops[j]) && s.session.Some? ==> s.session.value !in s.stops[j].earlier
  }

  /** No earlier start is at work, or owns the session, once the stop has torn the session down. */
  ghost predicate StopsWin(s: State) { NoEarlierWorks(s) && NoEarlierOwns(s) }

  /** Only starts that have begun are cancelled. */
  ghost predicate CancelledBegan(s: State) { s.cancelled <= s.starts.Keys }

  ghost predicate Inv(s: State) {
    LockTells(s) && SequenceTells(s) && OlderCancelled(s) && StopsCancel(s) && StopsWin(s) && CancelledBegan(s)
  }

  lemma StepKeepsLockTells(s: State, a: Step)
    requires LockTells(s) && Enabled(s, a)
    ensures LockTells(Next(s, a))
  {
    var t := Next(s, a);
    forall i | i in t.starts && InOperation(t.starts[i].pc) ensures t.opMu == Some(StartHolds(i)) {
      assert i in s.starts || a == BeginStart(i);
    }
    forall j | j in t.stops && (t.stops[j].pc == Stopping || t.stops[j].pc == TornDown)
      ensures t.opMu == Some(StopHolds(j))
    {
      assert j in s.stops || a == CancelStart(j);
    }
  }

  lemma StepKeepsNumbersBounded(s: State, a: Step)
    requires NumbersBounded(s) && Enabled(s, a)
    ensures NumbersBounded(Next(s, a))
  {
  }

  lemma StepKeepsNumbersDiffer(s: State, a: Step)
    requires NumbersBounded(s) && NumbersDiffer(s) && Enabled(s, a)
    ensures NumbersDiffer(Next(s, a))
  {
    var t := Next(s, a);
    forall i, k | i in t.starts && k in t.starts && t.starts[i].seqNo == t.starts[k].seqNo ensures i == k {
      assert i in s.starts || a == BeginStart(i);
      assert k in s.starts || a == BeginStart(k);
    }
  }

  lemma StepKeepsStoredIsNewest(s: State, a: Step)
    requires NumbersDiffer(s) && StoredIsNewest(s) && Enabled(s, a)
    ensures StoredIsNewest(Next(s, a))
  {
  }

  lemma StepKeepsSequenceTells(s: State, a: Step)
    requires SequenceTells(s) && Enabled(s, a)
    ensures SequenceTells(Next(s, a))
  {
    hide NumbersBounded, NumbersDiffer, StoredIsNewest, Next, Enabled;
    StepKeepsNumbersBounded(s, a);
    StepKeepsNumbersDiffer(s, a);
    StepKeepsStoredIsNewest(s, a);
  }

  lemma StepKeepsOlderCancelled(s: State, a: Step)
    requires SequenceTells(s) && OlderCancelled(s) && Enabled(s, a)
    ensures OlderCancelled(Next(s, a))
  {
    var t := Next(s, a);
    forall i | i in t.starts && !Past(t.starts[i].pc) && t.startStop != Some(i) ensures i in t.cancelled {
      assert i in s.starts || a == BeginStart(i);
    }
  }

  lemma StepKeepsStopsCancel(s: State, a: Step)
    requires OlderCancelled(s) && StopsCancel(s) && Enabled(s, a)
    ensures StopsCancel(Next(s, a))
  {
    var t := Next(s, a);
    forall j, i | j in t.stops && i in t.stops[j].earlier
      ensures i in t.starts && (i in t.cancelled || Past(t.starts[i].pc))
    {
      assert j in s.stops || a == CancelStart(j);
    }
  }

  lemma StepKeepsNoneWorking(s: State, a: Step)
    requires LockTells(s) && StopsCancel(s) && NoEarlierWorks(s) && Enabled(s, a)
    ensures NoEarlierWorks(Next(s, a))
  {
    var t := Next(s, a);
    forall j, i | j in t.stops && Over(t.stops[j]) && i in t.stops[j].earlier && i in t.starts
      ensures t.starts[i].pc != Working
    {
      assert j in s.stops && i in s.stops[j].earlier && i in s.starts;
    }
  }

  lemma StepKeepsNoneOwning(s: State, a: Step)
    requires LockTells(s) && StopsCancel(s) && StopsWin(s) && Enabled(s, a)
    ensures NoEarlierOwns(Next(s, a))
  {
    var t := Next(s, a);
    forall j | j in t.stops && Over(t.stops[j]) && t.session.Some? ensures t.session.value !in t.stops[j].earlier {
      assert j in s.stops && t.stops[j].earlier == s.stops[j].earlier;
    }
  }

  lemma StepKeepsStopsWin(s: State, a: Step)
    requires LockTells(s) && StopsCancel(s) && StopsWin(s) && Enabled(s, a)
    ensures StopsWin(Next(s, a))
  {
    StepKeepsNoneWorking(s, a);
    StepKeepsNoneOwning(s, a);
  }

  lemma StepKeepsCancelledBegan(s: State, a: Step)
    requires StoredIsNewest(s) && CancelledBegan(s) && Enabled(s, a)
    ensures CancelledBegan(Next(s, a))
  {
  }

  lemma StepKeepsInv(s: State, a: Step)
    requires Inv(s) && Enabled(s, a)
    ensures Inv(Next(s, a))
  {
    StepKeepsLockTells(s, a);
    StepKeepsSequenceTells(s, a);
    StepKeepsOlderCancelled(s, a);
    StepKeepsStopsCancel(s, a);
    StepKeepsStopsWin(s, a);
    StepKeepsCancelledBegan(s, a);
  }

  /** Releasing a start clears the stored cancel function iff it is that start's own: never a newer one's. */
  lemma ReleaseClearsOnlyItsOwn(s: State, i: nat)
    requires Inv(s) && Enabled(s, ClearStored(i))
    ensures Next(s, ClearStored(i)).startStop == if s.startStop == Some(i) then None else s.startStop
  {
  }

  // ------------------------------------------------------------------ runs

  ghost predicate IsRun(states: seq<State>, steps: seq<Step>) {
    && |states| == |steps| + 1 && states[0] == Init()
    && forall t :: 0 <= t < |steps| ==> Enabled(states[t], steps[t]) && states[t + 1] == Next(states[t], steps[t])
  }

  lemma {:induction false} RunKeepsInv(states: seq<State>, steps: seq<Step>, t: nat)
    requires IsRun(states, steps) && t < |states|
    ensures Inv(states[t])
  {
    if t != 0 {
      RunKeepsInv(states, steps, t - 1);
      StepKeepsInv(states[t - 1], steps[t - 1]);
    }
  }

  lemma {:induction false} EarlierNeverChanges(states: seq<State>, steps: seq<Step>, j: nat, t: nat, u: nat)
    requires IsRun(states, steps) && t <= u < |states| && j in states[t].stops
    ensures j in states[u].stops && states[u].stops[j].earlier == states[t].stops[j].earlier
    ensures states[t].stops[j].pc == Returned ==> states[u].stops[j].pc == Returned
    decreases u
  {
    if t < u {
      EarlierNeverChanges(states, steps, j, t, u - 1);
    }
  }

  /**
    Stop beats earlier starts: whatever the interleaving, from the moment a
    StopProxy has returned, no start that had begun before its cancelStart ever
    owns the session again, works on it, or gets past its context check.
   */
  lemma StopBeatsEarlierStarts(states: seq<State>, steps: seq<Step>, j: nat, i: nat, atCancel: nat, atReturn: nat,
    later: nat)
    requires IsRun(states, steps) && atCancel < atReturn <= later < |states|
    requires steps[atCancel] == CancelStart(j) && i in states[atCancel].starts
    requires j in states[atReturn].stops && states[atReturn].stops[j].pc == Returned
    ensures states[later].session != Some(i)
    ensures i in states[later].starts ==> states[later].starts[i].pc != Working
    ensures later < |steps| ==> steps[later] != StartKernel(i)
    ensures i in states[later].starts && (i in states[later].cancelled || Past(states[later].starts[i].pc))
  {
    assert j in states[atCancel + 1].stops && i in states[atCancel + 1].stops[j].earlier;
    EarlierNeverChanges(states, steps, j, atCancel + 1, later);
    EarlierNeverChanges(states, steps, j, atReturn, later);
    RunKeepsInv(states, steps, later);
  }

  // ------------------------------------------------------------------ what single steps do

  /** A start gets past its context check exactly if it has not been cancelled; otherwise it gives up. */
  lemma ContextCheckIff(s: State, i: nat)
    requires Enabled(s, LookAtContext(i))
    ensures i in Next(s, LookAtContext(i)).starts
    ensures var pc := Next(s, LookAtContext(i)).starts[i].pc;
      (pc == Working <==> i !in s.cancelled) && (pc == Leaving <==> i in s.cancelled)
    ensures Next(s, LookAtContext(i)).opMu == Some(StartHolds(i))
  {
  }

  /**
    A start is cancelled exactly by a newer start or a stop while its cancel
    function is stored, or by its own release.
   */
  lemma CancelledBy(s: State, a: Step, i: nat)
    requires Enabled(s, a)
    ensures i in Next(s, a).cancelled <==>
      || i in s.cancelled
      || ((a.BeginStart? || a.CancelStart?) && s.startStop == Some(i))
      || a == CancelSelf(i)
  {
  }

  /** The session belongs to the start that brought its core up, until a failure of that start or a teardown. */
  lemma SessionAfter(s: State, a: Step)
    requires Enabled(s, a)
    ensures Next(s, a).session ==
      if a.StartKernel? then Some(a.i)
      else if a.BringUpFails? || a.Teardown? || a.OtherTeardown? then None
      else s.session
  {
  }

  /** A step is about one call; every other start and stop stays where it is. */
  lemma OtherCallsStay(s: State, a: Step)
    requires Enabled(s, a)
    ensures forall i :: i in s.starts ==> i in Next(s, a).starts && Next(s, a).starts[i].seqNo == s.starts[i].seqNo
    ensures forall i :: i in s.starts && Next(s, a).starts[i] != s.starts[i] ==>
      a in {LockStart(i), LookAtContext(i), BringUpFails(i), FinishWork(i), UnlockStart(i), ClearStored(i),
        CancelSelf(i)}
    ensures forall i :: i in Next(s, a).starts && i !in s.starts ==> a == BeginStart(i)
    ensures forall j :: j in s.stops ==> j in Next(s, a).stops && Next(s, a).stops[j].earlier == s.stops[j].earlier
    ensures forall j :: j in s.stops && Next(s, a).stops[j] != s.stops[j] ==>
      a in {LockStop(j), Teardown(j), UnlockStop(j)}
    ensures forall j :: j in Next(s, a).stops && j !in s.stops ==> a == CancelStart(j)
  {
  }

  /** A new start is not cancelled, is the one a stop would cancel, and takes the place of the one before it. */
  lemma NewStart(s: State, i: nat)
    requires Inv(s) && Enabled(s, BeginStart(i))
    ensures var t := Next(s, BeginStart(i));
      && i in t.starts && t.starts[i].pc == Begun && t.startStop == Some(i)
      && i !in t.cancelled
      && t.session == s.session && t.opMu == s.opMu
      && forall k :: k in s.starts && !Past(s.starts[k].pc) ==> k in t.cancelled
  {
  }

  // ------------------------------------------------------------------ what can happen

  /** The steps can be taken one after the other. */
  ghost predicate CanTake(s: State, steps: seq<Step>)
    decreases |steps|
  {
    steps != [] ==> Enabled(s, steps[0]) && CanTake(Next(s, steps[0]), steps[1..])
  }

  ghost function After(s: State, steps: seq<Step>): State
    requires CanTake(s, steps)
    decreases |steps|
  {
    if steps == [] then s else After(Next(s, steps[0]), steps[1..])
  }

  lemma TakeFirst(s: State, a: Step, rest: seq<Step>)
    requires Enabled(s, a) && CanTake(Next(s, a), rest)
    ensures CanTake(s, [a] + rest) && After(s, [a] + rest) == After(Next(s, a), rest)
  {
    assert ([a] + rest)[1..] == rest;
  }

  /** A start's way out once it has nothing more to do. */
  lemma LeavingStart(s: State, i: nat)
    requires HoldsStart(s, i, Leaving)
    ensures var steps := [UnlockStart(i)] + ([ClearStored(i)] + ([CancelSelf(i)] + []));
      && CanTake(s, steps)
      && var t := After(s, steps);
         i in t.starts && t.starts[i].pc == Released && t.opMu.None? && t.session == s.session
  {
    var s1 := Next(s, UnlockStart(i));
    var s2 := Next(s1, ClearStored(i));
    TakeFirst(s2, CancelSelf(i), []);
    TakeFirst(s1, ClearStored(i), [CancelSelf(i)] + []);
    TakeFirst(s, UnlockStart(i), [ClearStored(i)] + ([CancelSelf(i)] + []));
  }

  /** A start that is not cancelled, with the lock free and no session, comes up and is done. */
  lemma UncancelledStartComesUp(s: State, i: nat)
    requires i in s.starts && s.starts[i].pc == Begun && i !in s.cancelled && s.opMu.None? && s.session.None?
    ensures var steps := [LockStart(i)] + ([LookAtContext(i)] + ([StartKernel(i)] + ([FinishWork(i)] +
        ([UnlockStart(i)] + ([ClearStored(i)] + ([CancelSelf(i)] + []))))));
      && CanTake(s, steps)
      && var t := After(s, steps);
         i in t.starts && t.starts[i].pc == Released && t.opMu.None? && t.session == Some(i)
  {
    var s1 := Next(s, LockStart(i));
    var s2 := Next(s1, LookAtContext(i));
    var s3 := Next(s2, StartKernel(i));
    var s4 := Next(s3, FinishWork(i));
    LeavingStart(s4, i);
    var out := [UnlockStart(i)] + ([ClearStored(i)] + ([CancelSelf(i)] + []));
    TakeFirst(s3, FinishWork(i), out);
    TakeFirst(s2, StartKernel(i), [FinishWork(i)] + out);
    TakeFirst(s1, LookAtContext(i), [StartKernel(i)] + ([FinishWork(i)] + out));
    TakeFirst(s, LockStart(i), [LookAtContext(i)] + ([StartKernel(i)] + ([FinishWork(i)] + out)));
  }

  /** A start whose bring-up fails leaves no session and gives the lock back. */
  lemma FailingStartLeavesNothing(s: State, i: nat)
    requires HoldsStart(s, i, Working) && (s.session.None? || s.session == Some(i))
    ensures var steps := [BringUpFails(i)] + ([UnlockStart(i)] + ([ClearStored(i)] + ([CancelSelf(i)] + [])));
      && CanTake(s, steps)
      && var t := After(s, steps);
         i in t.starts && t.starts[i].pc == Released && t.opMu.None? && t.session.None?
  {
    LeavingStart(Next(s, BringUpFails(i)), i);
    TakeFirst(s, BringUpFails(i), [UnlockStart(i)] + ([ClearStored(i)] + ([CancelSelf(i)] + [])));
  }

  /** A stop that has cancelled, with the lock free, ends the session and is done. */
  lemma StopEndsSession(s: State, j: nat)
    requires j in s.stops && s.stops[j].pc == Cancelled && s.opMu.None?
    ensures var steps := [LockStop(j)] + ([Teardown(j)] + ([UnlockStop(j)] + []));
      && CanTake(s, steps)
      && var t := After(s, steps);
         && j in t.stops && t.stops[j].pc == Returned && t.opMu.None? && t.session.None?
         && t.starts == s.starts && t.cancelled == s.cancelled && t.startStop == s.startStop
  {
    var s1 := Next(s, LockStop(j));
    var s2 := Next(s1, Teardown(j));
    TakeFirst(s2, UnlockStop(j), []);
    TakeFirst(s1, Teardown(j), [UnlockStop(j)] + []);
    TakeFirst(s, LockStop(j), [Teardown(j)] + ([UnlockStop(j)] + []));
  }

  /** The step a start with the lock takes next, and one without it. */
  function NextOfHolder(i: nat, pc: StartPc): Step {
    match pc
    case Holding => LookAtContext(i)
    case Working => FinishWork(i)
    case _ => UnlockStart(i)
  }

  function NextOfOther(i: nat, pc: StartPc): Step {
    match pc
    case Begun => LockStart(i)
    case Unlocked => ClearStored(i)
    case _ => CancelSelf(i)
  }

  /** Whoever has the lock can go on, up to giving it back: nothing is ever stuck. */
  lemma HolderCanGoOn(s: State)
    requires Inv(s) && s.opMu.Some?
    ensures match s.opMu.value
      case OtherHolds => Enabled(s, OtherUnlock)
      case StartHolds(i) =>
        i in s.starts && Enabled(s, NextOfHolder(i, s.starts[i].pc))
      case StopHolds(j) =>
        j in s.stops && Enabled(s, if s.stops[j].pc == Stopping then Teardown(j) else UnlockStop(j))
    ensures Enabled(s, OtherUnlock) ==> Next(s, OtherUnlock).opMu.None?
  {
  }

  /** With the lock free, every call that is not done can take its next step. */
  lemma CallsCanGoOn(s: State)
    requires Inv(s) && s.opMu.None?
    ensures forall i :: i in s.starts && s.starts[i].pc != Released ==>
      Enabled(s, NextOfOther(i, s.starts[i].pc))
    ensures forall j :: j in s.stops && s.stops[j].pc != Returned ==> Enabled(s, LockStop(j))
    ensures Enabled(s, OtherLock)
  {
  }

  /** The other side: a start that began after the stop's cancelStart is not cancelled by it. */
  lemma LaterStartSurvivesStop(s: State, i: nat, j: nat)
    requires Inv(s) && i !in s.starts && Enabled(s, CancelStart(j))
    ensures var t := Next(Next(s, CancelStart(j)), BeginStart(i));
      i !in t.stops[j].earlier && t.startStop == Some(i) && i !in t.cancelled
  {
  }

  /** And once the stop is over it comes up: stop cancels, start begins, stop finishes, start runs. */
  lemma LaterStartComesUp(s: State, i: nat, j: nat)
    requires Inv(s) && i !in s.starts && s.opMu.None? && j !in s.stops
    ensures Enabled(s, CancelStart(j)) && Enabled(Next(s, CancelStart(j)), BeginStart(i))
    ensures var t := Next(Next(s, CancelStart(j)), BeginStart(i));
      var stop := [LockStop(j)] + ([Teardown(j)] + ([UnlockStop(j)] + []));
      var start := [LockStart(i)] + ([LookAtContext(i)] + ([StartKernel(i)] + ([FinishWork(i)] +
        ([UnlockStart(i)] + ([ClearStored(i)] + ([CancelSelf(i)] + []))))));
      && CanTake(t, stop) && CanTake(After(t, stop), start)
      && After(After(t, stop), start).session == Some(i)
  {
    var t := Next(Next(s, CancelStart(j)), BeginStart(i));
    StopEndsSession(t, j);
    UncancelledStartComesUp(After(t, [LockStop(j)] + ([Teardown(j)] + ([UnlockStop(j)] + []))), i);
  }
}
