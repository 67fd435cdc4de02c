/**
 RPC calls over RabbitMQ. A call registers a one-slot reply buffer under its correlation id,
 publishes, and waits; replies and connection loss fill the buffer from other goroutines. Each
 region under the table's lock is one step, and so is each channel operation.
 */
module RpcCorrelation {
  type CorrelationId = nat

  datatype Error = ErrConnectionLost | ErrShuttingDown

  datatype Message = Reply(corr: CorrelationId, body: string) | Failure(error: Error)

  /** A reply buffer with capacity one, and all that ever went into it. */
  datatype Slot = Slot(buffer: seq<Message>, entered: seq<Message>)

  /** The non-blocking send into a buffer: a full one drops the message. */
  function Put(slot: Slot, m: Message): Slot {
    if slot.buffer == [] then Slot([m], slot.entered + [m]) else slot
  }

  /**
   The table of pending calls. A slot outlives its entry, because its call and a consumer that
   has already looked it up still hold it.
   */
  datatype Table = Table(pending: set<CorrelationId>, slots: map<CorrelationId, Slot>)

  function Registered(t: Table, corr: CorrelationId): Table {
    Table(t.pending + {corr}, t.slots[corr := Slot([], [])])
  }

  function Removed(t: Table, corr: CorrelationId): Table { t.(pending := t.pending - {corr}) }

  function Offered(t: Table, corr: CorrelationId, m: Message): Table {
    if corr in t.slots then t.(slots := t.slots[corr := Put(t.slots[corr], m)]) else t
  }

  /** failPendingRPCs: every pending buffer is offered the error, and the table empties. */
  function AllFailed(t: Table, error: Error): Table {
    Table({}, map c | c in t.slots ::
            if c in t.pending then Put(t.slots[c], Failure(error)) else t.slots[c])
  }

  class Client {
    var pending: set<CorrelationId>
    var slots: map<CorrelationId, Slot>

    constructor ()
      ensures View() == Table({}, map[])
    {
      pending, slots := {}, map[];
    }

    function View(): Table reads this { Table(pending, slots) }

    method Register(corr: CorrelationId)
      modifies this
      ensures View() == Registered(old(View()), corr)
      ensures pending == old(pending) + {corr} && slots == old(slots)[corr := Slot([], [])]
    {
      pending := pending + {corr};
      slots := slots[corr := Slot([], [])];
    }

    method Remove(corr: CorrelationId)
      modifies this
      ensures View() == Removed(old(View()), corr)
      ensures pending == old(pending) - {corr} && slots == old(slots)
    {
      pending := pending - {corr};
    }

    /** The send that never waits: a full buffer leaves the message out. */
    method TryPut(corr: CorrelationId, m: Message)
      requires corr in slots
      modifies this`slots
      ensures View() == Offered(old(View()), corr, m)
      ensures var was := old(slots)[corr];
              slots == if was.buffer == [] then old(slots)[corr := Slot([m], was.entered + [m])] else old(slots)
    {
      var slot := slots[corr];
      if slot.buffer == [] {
        slots := slots[corr := Slot([m], slot.entered + [m])];
      } else {
        assert slots[corr := slot] == slots;
      }
    }

    method FailPendingRPCs(error: Error)
      requires pending <= slots.Keys
      modifies this
      ensures View() == AllFailed(old(View()), error)
      ensures pending == {} && slots.Keys == old(slots).Keys
      ensures forall c | c in slots ::
                var was := old(slots)[c];
                slots[c] == if c in old(pending) && was.buffer == []
                            then Slot([Failure(error)], was.entered + [Failure(error)]) else was
    {
      while pending != {}
        invariant pending <= old(pending)
        invariant slots.Keys == old(slots).Keys
        invariant forall c :: c in slots ==>
                    slots[c] == if c in old(pending) - pending
                                then Put(old(slots)[c], Failure(error)) else old(slots)[c]
        decreases pending
      {
        var corr :| corr in pending;
        TryPut(corr, Failure(error));
        pending := pending - {corr};
      }
    }
  }

  /* ---- Runs ---- */

  datatype Outcome = Received(m: Message) | PublishFailed | TimedOut

  /** Leaving: the call has its outcome, and its deferred removal is still to come. */
  datatype Phase = Publishing | Waiting | Leaving(outcome: Outcome) | Returned(outcome: Outcome)

  /** found: replies whose consumer has looked the buffer up and not yet offered them. */
  datatype State = State(t: Table, calls: map<CorrelationId, Phase>, found: multiset<Message>)

  const INITIAL := State(Table({}, map[]), map[], multiset{})

  datatype Event =
    | Register(corr: CorrelationId)
    | Published(corr: CorrelationId)
    | PublishError(corr: CorrelationId)
    | LookUp(reply: Message)
    | Offer(reply: Message)
    | FailPending(error: Error)
    | Take(corr: CorrelationId)
    | Timeout(corr: CorrelationId)
    | Leave(corr: CorrelationId)

  ghost predicate Enabled(s: State, e: Event) {
    match e
    case Register(corr) => corr !in s.calls
    case Published(corr) => corr in s.calls && s.calls[corr] == Publishing
    case PublishError(corr) => corr in s.calls && s.calls[corr] == Publishing
    case LookUp(reply) => reply.Reply?
    case Offer(reply) => reply in s.found
    case FailPending(_) => true
    case Take(corr) =>
      corr in s.calls && s.calls[corr] == Waiting && corr in s.t.slots && s.t.slots[corr].buffer != []
    case Timeout(corr) => corr in s.calls && s.calls[corr] == Waiting
    case Leave(corr) => corr in s.calls && s.calls[corr].Leaving?
  }

  ghost function Step(s: State, e: Event): State
    requires Enabled(s, e)
  {
    match e
    case Register(corr) => s.(t := Registered(s.t, corr), calls := s.calls[corr := Publishing])
    case Published(corr) => s.(calls := s.calls[corr := Waiting])
    case PublishError(corr) => s.(calls := s.calls[corr := Leaving(PublishFailed)])
    case LookUp(reply) =>
      if reply.corr in s.t.pending then s.(found := s.found + multiset{reply}) else s
    case Offer(reply) =>
      s.(t := if reply.Reply? then Offered(s.t, reply.corr, reply) else s.t,
         found := s.found - multiset{reply})
    case FailPending(error) => s.(t := AllFailed(s.t, error))
    case Take(corr) =>
      var slot := s.t.slots[corr];
      s.(t := s.t.(slots := s.t.slots[corr := slot.(buffer := slot.buffer[1..])]),
         calls := s.calls[corr := Leaving(Received(slot.buffer[0]))])
    case Timeout(corr) => s.(calls := s.calls[corr := Leaving(TimedOut)])
    case Leave(corr) =>
      s.(t := Removed(s.t, corr), calls := s.calls[corr := Returned(s.calls[corr].outcome)])
  }

  ghost predicate ValidRun(s: State, run: seq<Event>)
    decreases |run|
  {
    run == [] || (Enabled(s, run[0]) && ValidRun(Step(s, run[0]), run[1..]))
  }

  ghost function Run(s: State, run: seq<Event>): State
    requires ValidRun(s, run)
    decreases |run|
  {
    if run == [] then s else Run(Step(s, run[0]), run[1..])
  }

  /** The call may still take a message. */
  predicate Live(p: Phase) { p.Publishing? || p.Waiting? }

  predicate HasOutcome(p: Phase) { p.Leaving? || p.Returned? }

  ghost predicate CallOk(c: CorrelationId, p: Phase, pending: bool, slot: Slot) {
    && |slot.buffer| <= 1
    && (forall m :: m in slot.entered ==> m.Failure? || m.corr == c)
    && (pending ==> !p.Returned?)
    && (Live(p) ==> slot.buffer == slot.entered)
    && (Live(p) && !pending ==> slot.buffer != [])
    && (HasOutcome(p) && p.outcome.Received? ==>
          slot.entered != [] && p.outcome.m == slot.entered[0])
  }

  ghost predicate Shaped(s: State) {
    && s.t.slots.Keys == s.calls.Keys
    && s.t.pending <= s.calls.Keys
    && (forall m :: m in s.found ==> m.Reply?)
  }

  ghost predicate Inv(s: State) {
    && Shaped(s)
    && (forall c :: c in s.calls ==> CallOk(c, s.calls[c], c in s.t.pending, s.t.slots[c]))
  }

  lemma PutKeepsCall(c: CorrelationId, p: Phase, pending: bool, slot: Slot, m: Message)
    requires CallOk(c, p, pending, slot) && (m.Failure? || m.corr == c)
    ensures CallOk(c, p, pending, Put(slot, m))
    ensures !p.Returned? && m.Failure? ==> CallOk(c, p, false, Put(slot, m))
  {
  }

  lemma StepKeepsShape(s: State, e: Event)
    requires Shaped(s) && Enabled(s, e)
    ensures Shaped(Step(s, e))
  {
  }

  /** What one step does to one call that is already registered. */
  lemma StepKeepsCall(s: State, e: Event, c: CorrelationId)
    requires Shaped(s) && Enabled(s, e) && c in s.calls
    requires CallOk(c, s.calls[c], c in s.t.pending, s.t.slots[c])
    ensures var t := Step(s, e);
            && c in t.calls && c in t.t.slots
            && CallOk(c, t.calls[c], c in t.t.pending, t.t.slots[c])
  {
    match e {
      case Offer(reply) =>
        if reply.corr == c {
          PutKeepsCall(c, s.calls[c], c in s.t.pending, s.t.slots[c], reply);
        }
      case FailPending(error) =>
        PutKeepsCall(c, s.calls[c], c in s.t.pending, s.t.slots[c], Failure(error));
      case _ =>
    }
  }

  lemma StepKeepsInv(s: State, e: Event)
    requires Inv(s) && Enabled(s, e)
    ensures Inv(Step(s, e))
  {
    var t := Step(s, e);
    StepKeepsShape(s, e);
    forall c | c in t.calls ensures CallOk(c, t.calls[c], c in t.t.pending, t.t.slots[c]) {
      if c in s.calls {
        StepKeepsCall(s, e, c);
      } else {
        assert e == Register(c);
      }
    }
  }

  lemma {:induction false} RunKeepsInv(s: State, run: seq<Event>)
    requires Inv(s) && ValidRun(s, run)
    ensures Inv(Run(s, run))
    decreases |run|
  {
    if run == [] {
    } else {
      StepKeepsInv(s, run[0]);
      RunKeepsInv(Step(s, run[0]), run[1..]);
    }
  }

  /**
   After every interleaving of calls, replies, losses and shutdown: a reply buffer holds at most
   one message; a call that received something received the first message that ever entered its
   buffer, and that is a reply with its own id or the failure; and a call still waiting that is
   no longer in the table has its message already waiting for it, so it is never stranded.
   */
  lemma CallsAreCorrelated(run: seq<Event>, c: CorrelationId)
    requires ValidRun(INITIAL, run) && c in Run(INITIAL, run).calls
    ensures var s := Run(INITIAL, run);
            && c in s.t.slots && |s.t.slots[c].buffer| <= 1
            && (HasOutcome(s.calls[c]) && s.calls[c].outcome.Received? ==>
                  && s.t.slots[c].entered != []
                  && s.calls[c].outcome.m == s.t.slots[c].entered[0]
                  && (s.calls[c].outcome.m.Failure? || s.calls[c].outcome.m.corr == c))
            && (Live(s.calls[c]) && c !in s.t.pending ==> s.t.slots[c].buffer != [])
  {
    RunKeepsInv(INITIAL, run);
  }

  /* ---- A reply reaches its call ---- */

  /** A reply is held for its call exactly when the call is pending; the table stays as it is. */
  lemma PendingReplyIsFound(s: State, reply: Message)
    requires reply.Reply?
    ensures var t := Step(s, LookUp(reply));
            t.t == s.t && t.calls == s.calls
            && t.found[reply] == s.found[reply] + if reply.corr in s.t.pending then 1 else 0
  {
  }

  /** The reply is the first message that entered the call's buffer. */
  ghost predicate CameFirst(s: State, c: CorrelationId, reply: Message) {
    c in s.calls && c in s.t.slots && s.t.slots[c].entered != [] && s.t.slots[c].entered[0] == reply
  }

  /** Offered to a live call whose buffer is empty, a reply with its id is what the buffer holds. */
  lemma OfferEnters(run: seq<Event>, c: CorrelationId, reply: Message)
    requires ValidRun(INITIAL, run)
    requires var s := Run(INITIAL, run);
             && c in s.calls && Live(s.calls[c]) && c in s.t.slots && s.t.slots[c].buffer == []
             && reply in s.found && reply.Reply? && reply.corr == c
    ensures var t := Step(Run(INITIAL, run), Offer(reply));
            && c in t.t.slots && t.t.slots[c].buffer == [reply] && CameFirst(t, c, reply)
            && (t.calls[c] == Waiting ==>
                  Enabled(t, Take(c)) && Step(t, Take(c)).calls[c] == Leaving(Received(reply)))
  {
    RunKeepsInv(INITIAL, run);
  }

  lemma StepKeepsFirst(s: State, e: Event, c: CorrelationId, reply: Message)
    requires Enabled(s, e) && CameFirst(s, c, reply)
    ensures CameFirst(Step(s, e), c, reply)
  {
  }

  lemma {:induction false} RunKeepsFirst(s: State, more: seq<Event>, c: CorrelationId, reply: Message)
    requires ValidRun(s, more) && CameFirst(s, c, reply)
    ensures CameFirst(Run(s, more), c, reply)
    decreases |more|
  {
    if more == [] {
    } else {
      StepKeepsFirst(s, more[0], c, reply);
      RunKeepsFirst(Step(s, more[0]), more[1..], c, reply);
    }
  }

  lemma FirstIsReceived(c: CorrelationId, p: Phase, pending: bool, slot: Slot, reply: Message)
    requires CallOk(c, p, pending, slot) && slot.entered != [] && slot.entered[0] == reply
    ensures Live(p) ==> slot.buffer == [reply]
    ensures HasOutcome(p) ==>
              p.outcome == Received(reply) || p.outcome == TimedOut || p.outcome == PublishFailed
  {
    if Live(p) {
      assert slot.buffer == slot.entered && slot.buffer[0] == reply;
    }
  }

  /**
   Whatever happens after a reply was offered first: the call finds it in its buffer as long as it
   waits, and once it has left it has received that reply, unless it had given up or failed to
   publish.
   */
  lemma FirstReplyIsReceived(run: seq<Event>, more: seq<Event>, c: CorrelationId, reply: Message)
    requires ValidRun(INITIAL, run) && ValidRun(Run(INITIAL, run), more)
    requires CameFirst(Run(INITIAL, run), c, reply)
    ensures var t := Run(Run(INITIAL, run), more);
            && c in t.calls && c in t.t.slots
            && (Live(t.calls[c]) ==> t.t.slots[c].buffer == [reply])
            && (HasOutcome(t.calls[c]) ==>
                  || t.calls[c].outcome == Received(reply) || t.calls[c].outcome == TimedOut
                  || t.calls[c].outcome == PublishFailed)
  {
    RunKeepsInv(INITIAL, run);
    RunKeepsInv(Run(INITIAL, run), more);
    RunKeepsFirst(Run(INITIAL, run), more, c, reply);
    var t := Run(Run(INITIAL, run), more);
    assert CallOk(c, t.calls[c], c in t.t.pending, t.t.slots[c]);
    FirstIsReceived(c, t.calls[c], c in t.t.pending, t.t.slots[c], reply);
    hide *;
  }

  /** Right after failPendingRPCs no live call is without a message. */
  lemma FailureReachesEveryCall(run: seq<Event>, error: Error)
    requires ValidRun(INITIAL, run)
    ensures var s := Step(Run(INITIAL, run), FailPending(error));
            && s.t.pending == {}
            && forall c :: c in s.calls && Live(s.calls[c]) ==>
                 c in s.t.slots && s.t.slots[c].buffer != []
  {
    RunKeepsInv(INITIAL, run);
    StepKeepsInv(Run(INITIAL, run), FailPending(error));
  }

  /** The table leaks nothing: an entry belongs to a call that has not returned. */
  lemma TableEmptiesWithCalls(run: seq<Event>)
    requires ValidRun(INITIAL, run)
    ensures var s := Run(INITIAL, run);
            (forall c :: c in s.calls ==> s.calls[c].Returned?) ==> s.t.pending == {}
  {
    RunKeepsInv(INITIAL, run);
    var s := Run(INITIAL, run);
    forall c | c in s.calls && s.calls[c].Returned? ensures c !in s.t.pending {
      assert CallOk(c, s.calls[c], c in s.t.pending, s.t.slots[c]);
    }
  }
}
