/**
  The app's side of the helper link: many calls share one connection, replies
  find their call by message ID, and connections come and go.  Every step below
  is one critical section or one channel operation of some goroutine.
 */
module TunClient {

  import opened Options

  /** A reply: the message ID it carries and the connection it came in on. */
  datatype Reply = Reply(id: nat, from: nat)

  /** A call's one-slot channel. */
  datatype Chan = Empty | Holds(reply: Reply) | Closed

  /** How a call ended. */
  datatype Outcome = Answered(reply: Reply) | Disconnected | TimedOut | SendFailed

  datatype CallPc = Registered | Waiting | Dropping(why: Outcome) | Ended(how: Outcome)

  /** `on`: the connection the request is written to. */
  datatype Call = Call(id: nat, on: nat, pc: CallPc, ch: Chan)

  datatype LoopPc = Reading | Delivering(call: nat, reply: Reply) | Failing | Cleaned

  datatype State = State(
    conn: Option<nat>,           // the attached connection; connections are numbered in order of attach
    attached: nat,               // how many have been attached
    loops: map<nat, LoopPc>,     // each connection's read loop
    nextID: nat,
    pending: map<nat, nat>,      // message ID to call
    calls: map<nat, Call>,
    sent: set<(nat, nat)>)       // (connection, message ID) of the requests on the wire

  datatype Step =
    | Attach
    | Register(call: nat, on: nat)
    | Transmit(call: nat)        // the request is on the wire; send has not returned yet
    | SendOk(call: nat)
    | SendFails(call: nat)
    | GiveUp(call: nat)
    | Drop(call: nat)
    | TakeReply(call: nat)
    | SeeClosed(call: nat)
    | ReadReply(c: nat, id: nat)
    | Deliver(c: nat)
    | ReadFails(c: nat)
    | Cleanup(c: nat)

  function Init(): State { State(None, 0, map[], 0, map[], map[], {}) }

  predicate At(s: State, k: nat, pc: CallPc) { k in s.calls && s.calls[k].pc == pc }

  /** Ensure attaches only while no connection is attached; the helper answers any ID it likes. */
  predicate Enabled(s: State, a: Step) {
    match a
    case Attach => s.conn.None?
    case Register(k, on) => k !in s.calls && on in s.loops
    case Transmit(k) => At(s, k, Registered)
    case SendOk(k) => At(s, k, Registered) && (s.calls[k].on, s.calls[k].id) in s.sent
    case SendFails(k) => At(s, k, Registered)
    case GiveUp(k) => At(s, k, Waiting)
    case Drop(k) => k in s.calls && s.calls[k].pc.Dropping?
    case TakeReply(k) => At(s, k, Waiting) && s.calls[k].ch.Holds?
    case SeeClosed(k) => At(s, k, Waiting) && s.calls[k].ch.Closed?
    case ReadReply(c, id) => c in s.loops && s.loops[c] == Reading
    case Deliver(c) => c in s.loops && s.loops[c].Delivering?
    case ReadFails(c) => c in s.loops && s.loops[c] == Reading
    case Cleanup(c) => c in s.loops && s.loops[c] == Failing
  }

  function MoveCall(s: State, k: nat, pc: CallPc): State
    requires k in s.calls
  {
    s.(calls := s.calls[k := s.calls[k].(pc := pc)])
  }

  function WithChan(s: State, k: nat, ch: Chan): State
    requires k in s.calls
  {
    s.(calls := s.calls[k := s.calls[k].(ch := ch)])
  }

  /** Every pending call's channel is closed. */
  function CloseAll(s: State): map<nat, Call> {
    map k | k in s.calls :: if k in s.pending.Values then s.calls[k].(ch := Closed) else s.calls[k]
  }

  function Next(s: State, a: Step): State
    requires Enabled(s, a)
  {
    match a
    case Attach => s.(conn := Some(s.attached), attached := s.attached + 1, loops := s.loops[s.attached := Reading])
    case Register(k, on) =>
      var id := s.nextID + 1;
      s.(nextID := id, pending := s.pending[id := k], calls := s.calls[k := Call(id, on, Registered, Empty)])
    case Transmit(k) => s.(sent := s.sent + {(s.calls[k].on, s.calls[k].id)})
    case SendOk(k) => MoveCall(s, k, Waiting)
    case SendFails(k) => MoveCall(s, k, Dropping(SendFailed))
    case GiveUp(k) => MoveCall(s, k, Dropping(TimedOut))
    case Drop(k) => MoveCall(s, k, Ended(s.calls[k].pc.why)).(pending := s.pending - {s.calls[k].id})
    case TakeReply(k) => MoveCall(s, k, Ended(Answered(s.calls[k].ch.reply)))
    case SeeClosed(k) => MoveCall(s, k, Ended(Disconnected))
    case ReadReply(c, id) =>
      if id in s.pending then s.(pending := s.pending - {id},
        loops := s.loops[c := Delivering(s.pending[id], Reply(id, c))])
      else s
    case Deliver(c) =>
      var k := s.loops[c].call;
      if k in s.calls then WithChan(s, k, Holds(s.loops[c].reply)).(loops := s.loops[c := Reading]) else s
    case ReadFails(c) => s.(loops := s.loops[c := Failing])
    case Cleanup(c) =>
      s.(conn := if s.conn == Some(c) then None else s.conn,
         calls := CloseAll(s), pending := map[], loops := s.loops[c := Cleaned])
  }

  // ------------------------------------------------------------------ the invariant

  /** Message IDs tell calls apart. */
  ghost predicate IdsTell(s: State) {
    && (forall k :: k in s.calls ==> s.calls[k].id <= s.nextID && s.calls[k].on < s.attached)
    && (forall k, l :: k in s.calls && l in s.calls && s.calls[k].id == s.calls[l].id ==> k == l)
  }

  /** Only the last attached connection can be live, and it is live exactly while attached. */
  ghost predicate OneLive(s: State) {
    && (forall c: nat :: c in s.loops <==> c < s.attached)
    && (forall c :: c in s.loops ==> (s.loops[c] != Cleaned <==> s.conn == Some(c)))
    && (s.conn.Some? ==> s.conn.value + 1 == s.attached)
  }

  /** A pending ID is its call's own, and that call's channel is untouched. */
  ghost predicate PendingFresh(s: State) {
    forall id :: id in s.pending ==>
      var k := s.pending[id];
      k in s.calls && s.calls[k].id == id && s.calls[k].ch == Empty && !s.calls[k].pc.Ended?
  }

  /** A reply about to be delivered carries its call's own ID, and the channel is still untouched. */
  ghost predicate DeliveryFresh(s: State) {
    forall c :: c in s.loops && s.loops[c].Delivering? ==>
      var k := s.loops[c].call;
      && k in s.calls && s.calls[k].id == s.loops[c].reply.id && s.loops[c].reply.from == c
      && s.calls[k].ch == Empty && s.calls[k].id !in s.pending
  }

  /** Every reply in a channel or handed out has the ID of the call it went to. */
  ghost predicate RepliesOwn(s: State) {
    forall k :: k in s.calls ==>
      && (s.calls[k].ch.Holds? ==> s.calls[k].ch.reply.id == s.calls[k].id)
      && (s.calls[k].pc.Ended? && s.calls[k].pc.how.Answered? ==> s.calls[k].pc.how.reply.id == s.calls[k].id)
      && (s.calls[k].pc.Dropping? ==> s.calls[k].pc.why == TimedOut || s.calls[k].pc.why == SendFailed)
  }

  ghost predicate BeingDelivered(s: State, k: nat) {
    exists c :: c in s.loops && s.loops[c].Delivering? && s.loops[c].call == k
  }

  /** No waiting call is forgotten: its answer can still come, or is there already. */
  ghost predicate NoneForgotten(s: State) {
    forall k :: k in s.calls && (s.calls[k].pc == Registered || s.calls[k].pc == Waiting) ==> Answerable(s, k)
  }

  ghost predicate Inv(s: State) {
    IdsTell(s) && OneLive(s) && PendingFresh(s) && DeliveryFresh(s) && RepliesOwn(s) && NoneForgotten(s)
  }

  lemma PendingHas(s: State, k: nat)
    requires PendingFresh(s) && k in s.calls
    ensures k in s.pending.Values <==> s.calls[k].id in s.pending && s.pending[s.calls[k].id] == k
  {
    if k in s.pending.Values {
      var id :| id in s.pending && s.pending[id] == k;
    }
  }

  lemma StepKeepsIds(s: State, a: Step)
    requires IdsTell(s) && OneLive(s) && Enabled(s, a)
    ensures IdsTell(Next(s, a))
  {
    var t := Next(s, a);
    forall k | k in t.calls ensures t.calls[k].id <= t.nextID && t.calls[k].on < t.attached {
      assert k in s.calls || a.Register?;
    }
    forall k, l | k in t.calls && l in t.calls && t.calls[k].id == t.calls[l].id ensures k == l {
      assert k in s.calls ==> t.calls[k].id == s.calls[k].id;
      assert l in s.calls ==> t.calls[l].id == s.calls[l].id;
    }
  }

  lemma StepKeepsOneLive(s: State, a: Step)
    requires OneLive(s) && Enabled(s, a)
    ensures OneLive(Next(s, a))
  {
  }

  lemma NoneLiveNoneDelivered(s: State)
    requires OneLive(s) && s.conn.None?
    ensures forall k :: !BeingDelivered(s, k)
  {
  }

  lemma StepKeepsPending(s: State, a: Step)
    requires IdsTell(s) && OneLive(s) && PendingFresh(s) && DeliveryFresh(s) && Enabled(s, a)
    ensures PendingFresh(Next(s, a))
  {
  }

  lemma StepKeepsDelivery(s: State, a: Step)
    requires IdsTell(s) && OneLive(s) && PendingFresh(s) && DeliveryFresh(s) && Enabled(s, a)
    ensures DeliveryFresh(Next(s, a))
  {
    var t := Next(s, a);
    forall c | c in t.loops && t.loops[c].Delivering?
      ensures t.loops[c].call in t.calls && t.calls[t.loops[c].call].id == t.loops[c].reply.id
      ensures t.loops[c].reply.from == c && t.calls[t.loops[c].call].ch == Empty &&
        t.calls[t.loops[c].call].id !in t.pending
    {
      if !(c in s.loops && s.loops[c].Delivering?) {
        assert a.ReadReply? && a.c == c && a.id in s.pending;
      }
    }
  }

  lemma StepKeepsReplies(s: State, a: Step)
    requires DeliveryFresh(s) && RepliesOwn(s) && Enabled(s, a)
    ensures RepliesOwn(Next(s, a))
  {
  }

  /** The call's answer can still come, or is there already. */
  ghost predicate Answerable(s: State, k: nat)
    requires k in s.calls
  {
    s.calls[k].ch != Empty || BeingDelivered(s, k) || (s.calls[k].id in s.pending && s.pending[s.calls[k].id] == k)
  }

  lemma ChannelStaysWritten(s: State, a: Step, k: nat)
    requires Enabled(s, a) && k in s.calls && s.calls[k].ch != Empty
    ensures k in Next(s, a).calls && Next(s, a).calls[k].ch != Empty
  {
  }

  lemma DeliveryStays(s: State, a: Step, k: nat)
    requires OneLive(s) && Enabled(s, a) && k in s.calls && BeingDelivered(s, k)
    ensures k in Next(s, a).calls && Answerable(Next(s, a), k)
  {
    var t := Next(s, a);
    var c :| c in s.loops && s.loops[c].Delivering? && s.loops[c].call == k;
    if a == Deliver(c) {
      assert t.calls[k].ch != Empty;
    } else {
      assert c in t.loops && t.loops[c] == s.loops[c];
    }
  }

  lemma PendingStays(s: State, a: Step, k: nat)
    requires PendingFresh(s) && Enabled(s, a) && k in s.calls && s.calls[k].id in s.pending &&
      s.pending[s.calls[k].id] == k
    requires IdsTell(s)
    ensures k in Next(s, a).calls
    ensures Next(s, a).calls[k].pc == Registered || Next(s, a).calls[k].pc == Waiting ==> Answerable(Next(s, a), k)
  {
    var t := Next(s, a);
    PendingHas(s, k);
    match a {
      case ReadReply(c, id) =>
        if id == s.calls[k].id { assert t.loops[c].Delivering? && t.loops[c].call == k; }
      case Cleanup(c) =>
        assert t.calls[k].ch == Closed;
      case _ =>
    }
  }

  lemma StepKeepsNoneForgotten(s: State, a: Step)
    requires Inv(s) && Enabled(s, a)
    ensures NoneForgotten(Next(s, a))
  {
    var t := Next(s, a);
    forall k | k in t.calls && (t.calls[k].pc == Registered || t.calls[k].pc == Waiting) ensures Answerable(t, k) {
      if k in s.calls {
        OldCallsWereAlive(s, a, k);
        hide Next, Enabled, BeingDelivered;
        if s.calls[k].ch != Empty {
          ChannelStaysWritten(s, a, k);
        } else if BeingDelivered(s, k) {
          DeliveryStays(s, a, k);
        } else {
          PendingStays(s, a, k);
        }
      }
    }
  }

  lemma OldCallsWereAlive(s: State, a: Step, k: nat)
    requires Enabled(s, a) && k in s.calls && k in Next(s, a).calls
    requires Next(s, a).calls[k].pc == Registered || Next(s, a).calls[k].pc == Waiting
    ensures s.calls[k].pc == Registered || s.calls[k].pc == Waiting
  {
  }

  lemma StepKeepsInv(s: State, a: Step)
    requires Inv(s) && Enabled(s, a)
    ensures Inv(Next(s, a))
  {
    StepKeepsIds(s, a);
    StepKeepsOneLive(s, a);
    StepKeepsPending(s, a);
    StepKeepsDelivery(s, a);
    StepKeepsReplies(s, a);
    StepKeepsNoneForgotten(s, a);
  }

  // ------------------------------------------------------------------ what each step is safe to do

  /** A reply is sent only into an empty, open channel: the send never blocks and never hits a closed channel. */
  lemma DeliverHitsEmptyChannel(s: State, c: nat)
    requires Inv(s) && Enabled(s, Deliver(c))
    ensures s.loops[c].call in s.calls && s.calls[s.loops[c].call].ch == Empty
    ensures Next(s, Deliver(c)).calls[s.loops[c].call].ch == Holds(s.loops[c].reply)
  {
  }

  /**
    Cleaning up a connection closes only channels that are empty, so none twice,
    and only of calls written to that connection or an older one: a later
    connection does not exist yet.  It answers every unanswered call.
   */
  lemma CleanupSparesLaterCalls(s: State, c: nat)
    requires Inv(s) && Enabled(s, Cleanup(c))
    ensures forall k :: k in s.calls && Next(s, Cleanup(c)).calls[k] != s.calls[k] ==>
      s.calls[k].ch == Empty && s.calls[k].on <= c && Next(s, Cleanup(c)).calls[k] == s.calls[k].(ch := Closed)
    ensures forall k :: k in s.calls && (s.calls[k].pc == Registered || s.calls[k].pc == Waiting) ==>
      Next(s, Cleanup(c)).calls[k].ch != Empty
    ensures Next(s, Cleanup(c)).conn.None?
  {
    StepKeepsInv(s, Cleanup(c));
    NoneLiveNoneDelivered(Next(s, Cleanup(c)));
  }

  lemma StepKeepsOutcome(s: State, a: Step, k: nat)
    requires Enabled(s, a) && k in s.calls && s.calls[k].pc.Ended?
    ensures k in Next(s, a).calls && Next(s, a).calls[k].pc == s.calls[k].pc && Next(s, a).calls[k].id == s.calls[k].id
  {
  }

  lemma StepKeepsChannel(s: State, a: Step, k: nat)
    requires Inv(s) && Enabled(s, a) && k in s.calls && s.calls[k].ch != Empty
    ensures k in Next(s, a).calls && Next(s, a).calls[k].ch == s.calls[k].ch
  {
    PendingHas(s, k);
  }

  // ------------------------------------------------------------------ how a call ends

  /** An answered call has its reply in its channel, a disconnected one has its channel closed. */
  ghost predicate EndsTell(s: State) {
    forall k :: k in s.calls && s.calls[k].pc.Ended? ==>
      match s.calls[k].pc.how
      case Answered(r) => s.calls[k].ch == Holds(r)
      case Disconnected => s.calls[k].ch == Closed
      case _ => true
  }

  lemma StepKeepsEnds(s: State, a: Step)
    requires Inv(s) && EndsTell(s) && Enabled(s, a)
    ensures EndsTell(Next(s, a))
  {
    var t := Next(s, a);
    forall k | k in t.calls && t.calls[k].pc.Ended?
      ensures t.calls[k].pc.how.Answered? ==> t.calls[k].ch == Holds(t.calls[k].pc.how.reply)
      ensures t.calls[k].pc.how.Disconnected? ==> t.calls[k].ch == Closed
    {
      assert k in s.calls;
      if s.calls[k].ch != Empty { StepKeepsChannel(s, a, k); }
    }
  }

  /**
    How a call moves on, step by step: sent or not, answered exactly by taking the
    reply its channel holds, disconnected exactly by seeing it closed, timed out
    exactly by giving up; and no other step moves it.
   */
  lemma CallMovesBy(s: State, a: Step, k: nat)
    requires Enabled(s, a) && k in s.calls
    ensures k in Next(s, a).calls
    ensures Next(s, a).calls[k].id == s.calls[k].id && Next(s, a).calls[k].on == s.calls[k].on
    ensures var was := s.calls[k];
      Next(s, a).calls[k].pc ==
         if a == SendOk(k) then Waiting
         else if a == SendFails(k) then Dropping(SendFailed)
         else if a == GiveUp(k) then Dropping(TimedOut)
         else if a == Drop(k) then Ended(was.pc.why)
         else if a == TakeReply(k) then Ended(Answered(was.ch.reply))
         else if a == SeeClosed(k) then Ended(Disconnected)
         else was.pc
    ensures var was, now := s.calls[k], Next(s, a).calls[k];
      && (now.ch.Holds? && now.ch != was.ch ==>
        a.Deliver? && a.c in s.loops && s.loops[a.c] == Delivering(k, now.ch.reply))
      && (now.ch == Closed && was.ch != Closed ==> a.Cleanup?)
  {
  }

  /** The step that ends a waiting call answers it with r exactly if it took r from the channel. */
  lemma WaitingEndsBy(s: State, a: Step, k: nat, r: Reply)
    requires Enabled(s, a) && At(s, k, Waiting)
    ensures k in Next(s, a).calls
    ensures Next(s, a).calls[k].pc == Ended(Answered(r)) <==> a == TakeReply(k) && s.calls[k].ch == Holds(r)
    ensures Next(s, a).calls[k].pc == Ended(Disconnected) <==> a == SeeClosed(k) && s.calls[k].ch == Closed
  {
    CallMovesBy(s, a, k);
  }

  /**
    A waiting call that holds a reply can be answered with it; one whose channel is
    closed can end; any can give up.
   */
  lemma WaitingCanEnd(s: State, k: nat)
    requires At(s, k, Waiting)
    ensures s.calls[k].ch.Holds? ==>
      && Enabled(s, TakeReply(k))
      && At(Next(s, TakeReply(k)), k, Ended(Answered(s.calls[k].ch.reply)))
    ensures s.calls[k].ch.Closed? ==> Enabled(s, SeeClosed(k)) && At(Next(s, SeeClosed(k)), k, Ended(Disconnected))
    ensures Enabled(s, GiveUp(k)) && At(Next(s, GiveUp(k)), k, Dropping(TimedOut))
    ensures Enabled(Next(s, GiveUp(k)), Drop(k))
    ensures At(Next(Next(s, GiveUp(k)), Drop(k)), k, Ended(TimedOut))
    ensures s.calls[k].id !in Next(Next(s, GiveUp(k)), Drop(k)).pending
  {
  }

  /** A failed send ends the call as such. */
  lemma FailedSendEnds(s: State, k: nat)
    requires At(s, k, Registered)
    ensures Enabled(s, SendFails(k)) && Enabled(Next(s, SendFails(k)), Drop(k))
    ensures At(Next(Next(s, SendFails(k)), Drop(k)), k, Ended(SendFailed))
    ensures s.calls[k].id !in Next(Next(s, SendFails(k)), Drop(k)).pending
  {
  }

  /** A call gets a new ID under which it is pending, with an empty channel. */
  lemma RegisterResult(s: State, k: nat, on: nat)
    requires Inv(s) && Enabled(s, Register(k, on))
    ensures var t := Next(s, Register(k, on));
      && k in t.calls && t.calls[k].on == on && t.calls[k].pc == Registered && t.calls[k].ch == Empty
      && t.calls[k].id !in s.pending && t.calls[k].id in t.pending && t.pending[t.calls[k].id] == k
      && (forall l :: l in s.calls ==> s.calls[l].id != t.calls[k].id && l in t.calls && t.calls[l] == s.calls[l])
      && t.conn == s.conn && t.loops == s.loops && t.sent == s.sent
  {
  }

  /** A request goes out on the call's connection under its ID, and the send returns. */
  lemma RequestGoesOut(s: State, k: nat)
    requires At(s, k, Registered)
    ensures Enabled(s, Transmit(k)) && Enabled(Next(s, Transmit(k)), SendOk(k))
    ensures var t := Next(Next(s, Transmit(k)), SendOk(k));
      && At(t, k, Waiting) && (s.calls[k].on, s.calls[k].id) in t.sent
      && t.pending == s.pending && t.loops == s.loops && t.conn == s.conn && t.calls[k].ch == s.calls[k].ch
  {
  }

  /** The reply to a waiting call, read from a connection, is delivered to it and answers it. */
  lemma ReplyAnswersCall(s: State, k: nat, c: nat)
    requires Inv(s) && At(s, k, Waiting) && s.calls[k].id in s.pending && s.pending[s.calls[k].id] == k
    requires c in s.loops && s.loops[c] == Reading
    ensures var id := s.calls[k].id;
      && Enabled(s, ReadReply(c, id))
      && var s1 := Next(s, ReadReply(c, id));
      && Enabled(s1, Deliver(c))
      && var s2 := Next(s1, Deliver(c));
      && s2.loops[c] == Reading && Enabled(s2, TakeReply(k))
      && At(Next(s2, TakeReply(k)), k, Ended(Answered(Reply(id, c))))
      && id !in Next(s2, TakeReply(k)).pending
  {
  }

  /** A reply to nobody is dropped. */
  lemma UnknownReplyIsDropped(s: State, c: nat, id: nat)
    requires Enabled(s, ReadReply(c, id)) && id !in s.pending
    ensures Next(s, ReadReply(c, id)) == s
  {
  }

  /** A new connection is the attached one and is read from. */
  lemma AttachResult(s: State)
    requires Inv(s) && Enabled(s, Attach)
    ensures var t := Next(s, Attach);
      && t.conn == Some(s.attached) && s.attached !in s.loops && t.attached == s.attached + 1
      && t.loops == s.loops[s.attached := Reading] && t.calls == s.calls && t.pending == s.pending
  {
  }

  /** A lost connection stops being read and is detached; then every unanswered call can end as disconnected. */
  lemma LostConnectionEndsCalls(s: State, c: nat, k: nat)
    requires Inv(s) && c in s.loops && s.loops[c] == Reading && At(s, k, Waiting) && s.calls[k].ch == Empty
    ensures Enabled(s, ReadFails(c)) && Enabled(Next(s, ReadFails(c)), Cleanup(c))
    ensures var t := Next(Next(s, ReadFails(c)), Cleanup(c));
      && t.conn.None? && t.pending == map[]
      && Enabled(t, SeeClosed(k)) && At(Next(t, SeeClosed(k)), k, Ended(Disconnected))
  {
    var s1 := Next(s, ReadFails(c));
    StepKeepsInv(s, ReadFails(c));
    assert At(s1, k, Waiting) && s1.calls[k].ch == Empty;
    CleanupSparesLaterCalls(s1, c);
    var t := Next(s1, Cleanup(c));
    assert t.calls[k] != s1.calls[k];
  }

  /** From a connection to an answer: a call on the attached connection can go all the way. */
  lemma CallCanBeAnswered(s: State, k: nat, c: nat)
    requires Inv(s) && k !in s.calls && s.conn == Some(c) && c in s.loops && s.loops[c] == Reading
    ensures Enabled(s, Register(k, c))
    ensures var t := Next(s, Register(k, c));
      && Enabled(t, Transmit(k)) && Enabled(Next(t, Transmit(k)), SendOk(k))
      && var u := Next(Next(t, Transmit(k)), SendOk(k));
      && u.calls.Keys == s.calls.Keys + {k} && Enabled(u, ReadReply(c, u.calls[k].id))
      && var v := Next(u, ReadReply(c, u.calls[k].id));
      && Enabled(v, Deliver(c)) && Enabled(Next(v, Deliver(c)), TakeReply(k))
      && At(Next(Next(v, Deliver(c)), TakeReply(k)), k, Ended(Answered(Reply(u.calls[k].id, c))))
  {
    var t := Next(s, Register(k, c));
    RegisterResult(s, k, c);
    RequestGoesOut(t, k);
    var u := Next(Next(t, Transmit(k)), SendOk(k));
    StepKeepsInv(s, Register(k, c));
    StepKeepsInv(t, Transmit(k));
    StepKeepsInv(Next(t, Transmit(k)), SendOk(k));
    ReplyAnswersCall(u, k, c);
  }

  // ------------------------------------------------------------------ runs

  ghost predicate IsRun(states: seq<State>, steps: seq<Step>) {
    && |states| == |steps| + 1 && states[0] == Init()
    && forall t :: 0 <= t < |steps| ==> Enabled(states[t], steps[t]) && states[t + 1] == Next(states[t], steps[t])
  }

  lemma InitHasInv()
    ensures Inv(Init())
  {
  }

  lemma {:induction false} RunKeepsInv(states: seq<State>, steps: seq<Step>, t: nat)
    requires IsRun(states, steps) && t < |states|
    ensures Inv(states[t])
  {
    hide Next, Enabled, Inv;
    if t == 0 {
      InitHasInv();
    } else {
      RunKeepsInv(states, steps, t - 1);
      StepKeepsInv(states[t - 1], steps[t - 1]);
    }
  }

  /** Under any interleaving, a reply reaches only the call that issued its ID. */
  lemma ReplyReachesOnlyItsCall(states: seq<State>, steps: seq<Step>, t: nat, k: nat)
    requires IsRun(states, steps) && t < |states| && k in states[t].calls
    ensures states[t].calls[k].ch.Holds? ==> states[t].calls[k].ch.reply.id == states[t].calls[k].id
    ensures states[t].calls[k].pc.Ended? && states[t].calls[k].pc.how.Answered? ==>
      states[t].calls[k].pc.how.reply.id == states[t].calls[k].id
    ensures forall l :: l in states[t].calls && l != k ==> states[t].calls[l].id != states[t].calls[k].id
  {
    RunKeepsInv(states, steps, t);
  }

  /** Over every run, an answered call holds its reply and a disconnected one has a closed channel. */
  lemma {:induction false} EndsTellThroughout(states: seq<State>, steps: seq<Step>, t: nat)
    requires IsRun(states, steps) && t < |states|
    ensures EndsTell(states[t])
  {
    hide Next, Enabled, Inv;
    if t == 0 {
      NothingEnded();
    } else {
      EndsTellThroughout(states, steps, t - 1);
      RunKeepsInv(states, steps, t - 1);
      StepKeepsEnds(states[t - 1], steps[t - 1]);
    }
  }

  lemma NothingEnded()
    ensures EndsTell(Init())
  {
  }

  /** Each call has at most one outcome: once ended, it stays ended that way. */
  lemma {:induction false} OutcomeIsFinal(states: seq<State>, steps: seq<Step>, t: nat, u: nat, k: nat)
    requires IsRun(states, steps) && t <= u < |states| && k in states[t].calls && states[t].calls[k].pc.Ended?
    ensures k in states[u].calls && states[u].calls[k].pc == states[t].calls[k].pc &&
      states[u].calls[k].id == states[t].calls[k].id
    decreases u
  {
    hide Next, Enabled;
    if t < u {
      OutcomeIsFinal(states, steps, t, u - 1, k);
      StepKeepsOutcome(states[u - 1], steps[u - 1], k);
    }
  }

  /** The channel of a call, too, is written at most once. */
  lemma {:induction false} ChannelIsWrittenOnce(states: seq<State>, steps: seq<Step>, t: nat, u: nat, k: nat)
    requires IsRun(states, steps) && t <= u < |states| && k in states[t].calls && states[t].calls[k].ch != Empty
    ensures k in states[u].calls && states[u].calls[k].ch == states[t].calls[k].ch
    decreases u
  {
    hide Next, Enabled, Inv;
    if t < u {
      ChannelIsWrittenOnce(states, steps, t, u - 1, k);
      RunKeepsInv(states, steps, u - 1);
      StepKeepsChannel(states[u - 1], steps[u - 1], k);
    }
  }

  // ------------------------------------------------------------------ with a helper that answers what it was asked

  /** The helper answers, on each connection, only requests it received there. */
  ghost predicate Honest(states: seq<State>, steps: seq<Step>) {
    IsRun(states, steps) &&
    forall t :: 0 <= t < |steps| && steps[t].ReadReply? ==> (steps[t].c, steps[t].id) in states[t].sent
  }

  /** Every request on the wire is some call's, on that call's connection. */
  ghost predicate SentByCalls(s: State) {
    forall p :: p in s.sent ==> exists k :: k in s.calls && s.calls[k].on == p.0 && s.calls[k].id == p.1
  }

  ghost predicate HeldFromOwn(s: State) {
    forall k :: k in s.calls && s.calls[k].ch.Holds? ==> s.calls[k].ch.reply.from == s.calls[k].on
  }

  ghost predicate DeliveredFromOwn(s: State) {
    forall c :: c in s.loops && s.loops[c].Delivering? ==>
      s.loops[c].reply.from == c && (s.loops[c].call in s.calls ==> s.calls[s.loops[c].call].on == c)
  }

  ghost predicate FromOwnConnection(s: State) { SentByCalls(s) && HeldFromOwn(s) && DeliveredFromOwn(s) }

  lemma StepKeepsSent(s: State, a: Step)
    requires SentByCalls(s) && Enabled(s, a)
    ensures SentByCalls(Next(s, a))
  {
    var t := Next(s, a);
    forall p | p in t.sent ensures exists k :: k in t.calls && t.calls[k].on == p.0 && t.calls[k].id == p.1 {
      if p in s.sent {
        var k :| k in s.calls && s.calls[k].on == p.0 && s.calls[k].id == p.1;
        assert k in t.calls && t.calls[k].on == p.0 && t.calls[k].id == p.1;
      } else {
        assert t.calls[a.call].on == p.0 && t.calls[a.call].id == p.1;
      }
    }
  }

  lemma StepKeepsHeld(s: State, a: Step)
    requires HeldFromOwn(s) && DeliveredFromOwn(s) && Enabled(s, a)
    ensures HeldFromOwn(Next(s, a))
  {
  }

  lemma StepKeepsDelivered(s: State, a: Step)
    requires IdsTell(s) && PendingFresh(s) && SentByCalls(s) && DeliveredFromOwn(s) && Enabled(s, a)
    requires DeliveryFresh(s)
    requires a.ReadReply? ==> (a.c, a.id) in s.sent
    ensures DeliveredFromOwn(Next(s, a))
  {
    if a.ReadReply? && a.id in s.pending {
      var k :| k in s.calls && s.calls[k].on == a.c && s.calls[k].id == a.id;
      assert s.pending[a.id] == k;
    }
  }

  lemma HonestStepKeepsConnections(s: State, a: Step)
    requires Inv(s) && FromOwnConnection(s) && Enabled(s, a)
    requires a.ReadReply? ==> (a.c, a.id) in s.sent
    ensures FromOwnConnection(Next(s, a))
  {
    hide SentByCalls, HeldFromOwn, DeliveredFromOwn;
    StepKeepsSent(s, a);
    StepKeepsHeld(s, a);
    StepKeepsDelivered(s, a);
  }

  /** Then no call is ever answered by a reply from another connection, across any reconnects. */
  lemma {:induction false} RepliesStayOnTheirConnection(states: seq<State>, steps: seq<Step>, t: nat)
    requires Honest(states, steps) && t < |states|
    ensures FromOwnConnection(states[t])
  {
    hide Next, Enabled, Inv;
    if t != 0 {
      RepliesStayOnTheirConnection(states, steps, t - 1);
      RunKeepsInv(states, steps, t - 1);
      HonestStepKeepsConnections(states[t - 1], steps[t - 1]);
    }
  }
}
