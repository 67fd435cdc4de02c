/**
 Consuming from a RabbitMQ queue. A delivery is handled on a goroutine of its own and settled at
 the end, panics included; losing a channel puts its unsettled deliveries back in the queue, even
 while their handlers still run. Messages are counted as multisets.
 */
module RmqDelivery {
  type Message = nat
  type Tag = nat

  datatype Settlement = Ack | NackDrop | NackRequeue

  /** What happens inside dispatchDelivery. */
  datatype Handling = BadEnvelope | HandlerError | HandlerOk | HandlerPanic

  /** What happens inside dispatchRPC. replied: whether publishing the response worked. */
  datatype RpcHandling =
    | RpcBadEnvelope | UnknownType | RpcError | RpcPanic | RpcResponse(replied: bool)

  function SettlementOf(h: Handling): Settlement {
    match h
    case BadEnvelope => NackDrop
    case HandlerError => NackRequeue
    case HandlerOk => Ack
    case HandlerPanic => NackDrop
  }

  function RpcSettlementOf(h: RpcHandling): Settlement {
    match h
    case RpcBadEnvelope => NackDrop
    case UnknownType => Ack
    case RpcError => Ack
    case RpcPanic => NackDrop
    case RpcResponse(replied) => if replied then Ack else NackRequeue
  }

  /** How one dispatch ends, on the queue of a consumer or of an RPC server. */
  datatype Outcome = Consumed(handling: Handling) | Served(rpc: RpcHandling)

  function SettlementFor(o: Outcome): Settlement {
    match o
    case Consumed(h) => SettlementOf(h)
    case Served(h) => RpcSettlementOf(h)
  }

  /** The work is done: the handler has succeeded, or the call has its final answer. */
  predicate Completes(o: Outcome) {
    match o
    case Consumed(h) => h == HandlerOk
    case Served(h) => h == UnknownType || h == RpcError || h == RpcResponse(true)
  }

  /** The message can never be handled. */
  predicate Rejects(o: Outcome) {
    match o
    case Consumed(h) => h == BadEnvelope || h == HandlerPanic
    case Served(h) => h == RpcBadEnvelope || h == RpcPanic
  }

  /**
   The broker's view of a queue, with the running handlers. delivered is what each delivery carried;
   one that the client holds is dispatched even if its channel has been lost meanwhile. settled
   counts how often each delivery has been settled; completed and rejected are the messages of the
   dispatches with such an outcome, whatever became of them at the broker.
   */
  datatype State = State(
    published: multiset<Message>, queued: multiset<Message>, unacked: map<Tag, Message>,
    acked: multiset<Message>, dropped: multiset<Message>,
    running: map<Tag, Message>, dispatched: set<Tag>, delivered: map<Tag, Message>,
    settled: multiset<Tag>, completed: multiset<Message>, rejected: multiset<Message>)

  const INITIAL := State(multiset{}, multiset{}, map[], multiset{}, multiset{},
                         map[], {}, map[], multiset{}, multiset{}, multiset{})

  /** The broker acts on a settlement only while the delivery is outstanding on its channel. */
  function Settled(s: State, tag: Tag, how: Settlement): State {
    var t := s.(settled := s.settled + multiset{tag});
    if tag !in s.unacked then t
    else
      var m := multiset{s.unacked[tag]};
      var u := t.(unacked := s.unacked - {tag});
      match how
      case Ack => u.(acked := s.acked + m)
      case NackDrop => u.(dropped := s.dropped + m)
      case NackRequeue => u.(queued := s.queued + m)
  }

  /** The handler is no longer running. */
  function Ended(s: State, tag: Tag, o: Outcome): State
    requires tag in s.running
  {
    var m := multiset{s.running[tag]};
    s.(running := s.running - {tag},
       completed := if Completes(o) then s.completed + m else s.completed,
       rejected := if Rejects(o) then s.rejected + m else s.rejected)
  }

  /** The whole of one dispatch, from the running handler to its end. */
  function Finished(s: State, tag: Tag, o: Outcome): State
    requires tag in s.running
  {
    Ended(Settled(s, tag, SettlementFor(o)), tag, o)
  }

  /**
   How the broker books the end of a dispatch: a message that is outstanding on its channel leaves it
   for one place, and one that is not changes nothing there.
   */
  predicate Books(s: State, tag: Tag, t: State, how: Settlement) {
    var held := tag in s.unacked;
    var m := if held then multiset{s.unacked[tag]} else multiset{};
    && t.unacked == s.unacked - {tag} && t.published == s.published
    && t.acked == (if held && how == Ack then s.acked + m else s.acked)
    && t.dropped == (if held && how == NackDrop then s.dropped + m else s.dropped)
    && t.queued == (if held && how == NackRequeue then s.queued + m else s.queued)
  }

  lemma FinishedBooks(s: State, tag: Tag, o: Outcome)
    requires tag in s.running
    ensures Books(s, tag, Finished(s, tag, o), SettlementFor(o))
  {
    hide Completes, Rejects, SettlementFor;
    assert tag !in s.unacked ==> s.unacked - {tag} == s.unacked;
  }

  class Consumer {
    var s: State

    /** The number of replies published by dispatchRPC. */
    var replies: nat

    constructor ()
      ensures s == INITIAL && replies == 0
    {
      s, replies := INITIAL, 0;
    }

    method Settle(tag: Tag, how: Settlement)
      modifies this`s
      ensures s == Settled(old(s), tag, how)
      ensures s.running == old(s).running && s.settled == old(s).settled + multiset{tag}
    {
      s := s.(settled := s.settled + multiset{tag});
      if tag in s.unacked {
        var m := multiset{s.unacked[tag]};
        s := s.(unacked := s.unacked - {tag});
        match how {
          case Ack => s := s.(acked := s.acked + m);
          case NackDrop => s := s.(dropped := s.dropped + m);
          case NackRequeue => s := s.(queued := s.queued + m);
        }
      }
    }

    /** dispatchDelivery, with the recover of the deferred function as the last branch. */
    method DispatchDelivery(tag: Tag, h: Handling)
      requires tag in s.running
      modifies this`s
      ensures s == Finished(old(s), tag, Consumed(h))
      ensures s.settled[tag] == old(s).settled[tag] + 1
      ensures Books(old(s), tag, s, if h == HandlerOk then Ack else if h == HandlerError then NackRequeue else NackDrop)
    {
      hide Settled, Completes, Rejects, Books;
      FinishedBooks(s, tag, Consumed(h));
      if h == BadEnvelope {
        Settle(tag, NackDrop);
      } else if h == HandlerError {
        Settle(tag, NackRequeue);
      } else if h == HandlerOk {
        Settle(tag, Ack);
      } else {
        Settle(tag, NackDrop);
      }
      s := Ended(s, tag, Consumed(h));
    }

    /** dispatchRPC: one settlement, and at most one reply. sent: whether an error reply gets out. */
    method DispatchRPC(tag: Tag, h: RpcHandling, replyTo: string, sent: bool)
      requires tag in s.running
      modifies this
      ensures s == Finished(old(s), tag, Served(h))
      ensures s.settled[tag] == old(s).settled[tag] + 1
      ensures Books(old(s), tag, s, if h == RpcBadEnvelope || h == RpcPanic then NackDrop
                                    else if h == RpcResponse(false) then NackRequeue else Ack)
      ensures replies == old(replies) + match h
                                        case RpcResponse(replied) => if replied then 1 else 0
                                        case _ => if replyTo != "" && sent then 1 else 0
    {
      hide Settled, Completes, Rejects, Books;
      FinishedBooks(s, tag, Served(h));
      match h {
        case RpcBadEnvelope =>
          PublishRPCError(replyTo, sent);
          Settle(tag, NackDrop);
        case UnknownType =>
          PublishRPCError(replyTo, sent);
          Settle(tag, Ack);
        case RpcError =>
          PublishRPCError(replyTo, sent);
          Settle(tag, Ack);
        case RpcPanic =>
          PublishRPCError(replyTo, sent);
          Settle(tag, NackDrop);
        case RpcResponse(replied) =>
          if replied {
            replies := replies + 1;
            Settle(tag, Ack);
          } else {
            Settle(tag, NackRequeue);
          }
      }
      s := Ended(s, tag, Served(h));
    }

    /** An error reply needs somewhere to go, and is given up when it does not get out. */
    method PublishRPCError(replyTo: string, sent: bool)
      modifies this`replies
      ensures replies == old(replies) + if replyTo != "" && sent then 1 else 0
    {
      if replyTo == "" {
        return;
      }
      if sent {
        replies := replies + 1;
      }
    }
  }

  /* ---- Runs ---- */

  datatype Event =
    | Publish(m: Message)
    | Deliver(m: Message, tag: Tag)
    | Dispatch(tag: Tag)
    | Finish(tag: Tag, outcome: Outcome)
    | LoseChannel(tags: set<Tag>)

  predicate Enabled(s: State, e: Event) {
    match e
    case Publish(_) => true
    case Deliver(m, tag) => m in s.queued && tag !in s.delivered
    case Dispatch(tag) => tag in s.delivered && tag !in s.dispatched
    case Finish(tag, _) => tag in s.running
    case LoseChannel(_) => true
  }

  /** The messages of a set of outstanding deliveries. */
  ghost function Values(m: map<Tag, Message>): multiset<Message>
    decreases |m|
  {
    if m == map[] then multiset{}
    else
      var tag :| tag in m;
      assert (m - {tag}).Keys == m.Keys - {tag};
      Values(m - {tag}) + multiset{m[tag]}
  }

  function Kept(m: map<Tag, Message>, lost: set<Tag>): map<Tag, Message> { m - lost }

  function Gone(m: map<Tag, Message>, lost: set<Tag>): map<Tag, Message> {
    map tag | tag in m && tag in lost :: m[tag]
  }

  ghost function Step(s: State, e: Event): State
    requires Enabled(s, e)
  {
    match e
    case Publish(m) =>
      s.(published := s.published + multiset{m}, queued := s.queued + multiset{m})
    case Deliver(m, tag) =>
      s.(queued := s.queued - multiset{m}, unacked := s.unacked[tag := m], delivered := s.delivered[tag := m])
    case Dispatch(tag) =>
      s.(running := s.running[tag := s.delivered[tag]], dispatched := s.dispatched + {tag})
    case Finish(tag, outcome) => Finished(s, tag, outcome)
    case LoseChannel(tags) =>
      s.(unacked := Kept(s.unacked, tags), queued := s.queued + Values(Gone(s.unacked, tags)))
  }

  ghost predicate ValidRun(s: State, run: seq<Event>)
    decreases |run|
  {
    run == [] || (Enabled(s, run[0]) && ValidRun(Step(s, run[0]), run[1..]))
  }

  ghost function Run(s: State, run: seq<Event>): State
    requires ValidRun(s, run)
    decreases |run|
  {
    if run == [] then s else Run(Step(s, run[0]), run[1..])
  }

  /** The outstanding deliveries that carry a message, and how many there are. */
  ghost function Carrying(m: map<Tag, Message>, v: Message): set<Tag> {
    set tag | tag in m && m[tag] == v
  }

  ghost function Outstanding(m: map<Tag, Message>, v: Message): nat { |Carrying(m, v)| }

  lemma OutstandingWithout(m: map<Tag, Message>, tag: Tag, v: Message)
    requires tag in m
    ensures Outstanding(m, v) == Outstanding(m - {tag}, v) + if m[tag] == v then 1 else 0
  {
    var all, rest := Carrying(m, v), Carrying(m - {tag}, v);
    if m[tag] == v {
      assert all == rest + {tag};
    } else {
      assert all == rest;
    }
  }

  lemma OutstandingAdd(m: map<Tag, Message>, tag: Tag, x: Message, v: Message)
    requires tag !in m
    ensures Outstanding(m[tag := x], v) == Outstanding(m, v) + if x == v then 1 else 0
  {
    OutstandingWithout(m[tag := x], tag, v);
    assert m[tag := x] - {tag} == m;
  }

  lemma OutstandingSplit(m: map<Tag, Message>, lost: set<Tag>, v: Message)
    ensures Outstanding(m, v) == Outstanding(Kept(m, lost), v) + Outstanding(Gone(m, lost), v)
  {
    var kept, gone := Carrying(Kept(m, lost), v), Carrying(Gone(m, lost), v);
    assert Carrying(m, v) == kept + gone && kept !! gone;
  }

  lemma {:induction false} ValuesCounts(m: map<Tag, Message>, v: Message)
    ensures Values(m)[v] == Outstanding(m, v)
    decreases |m|
  {
    if m == map[] {
    } else {
      var tag :| tag in m && Values(m) == Values(m - {tag}) + multiset{m[tag]};
      assert (m - {tag}).Keys == m.Keys - {tag};
      ValuesCounts(m - {tag}, v);
      OutstandingWithout(m, tag, v);
    }
  }

  /** Every published message is in exactly one place: the books balance for each message. */
  ghost predicate Balanced(s: State, v: Message) {
    s.published[v] == s.queued[v] + Outstanding(s.unacked, v) + s.acked[v] + s.dropped[v]
  }

  /** A dispatch is settled once when it has ended and never before. */
  ghost predicate SettledOnce(s: State) {
    forall tag :: s.settled[tag] == if tag in s.dispatched && tag !in s.running then 1 else 0
  }

  /** The tags tell deliveries apart, and a running handler holds the message it was given. */
  ghost predicate TagsOk(s: State) {
    && s.unacked.Keys <= s.delivered.Keys && s.dispatched <= s.delivered.Keys && s.running.Keys <= s.dispatched
    && (forall tag :: tag in s.unacked ==> s.unacked[tag] == s.delivered[tag])
    && (forall tag :: tag in s.running ==> s.running[tag] == s.delivered[tag])
    && (forall tag :: tag in s.unacked && tag in s.dispatched ==> tag in s.running)
  }

  /** Acks come from completed dispatches, drops from rejected ones. */
  ghost predicate HandledOnly(s: State) { s.acked <= s.completed && s.dropped <= s.rejected }

  ghost predicate Inv(s: State) {
    (forall v :: Balanced(s, v)) && SettledOnce(s) && TagsOk(s) && HandledOnly(s)
  }

  lemma SettledBalance(s: State, tag: Tag, how: Settlement, v: Message)
    requires Balanced(s, v)
    ensures Balanced(Settled(s, tag, how), v)
  {
    if tag in s.unacked {
      OutstandingWithout(s.unacked, tag, v);
      hide Outstanding;
      var one := multiset{s.unacked[tag]};
      assert one[v] == if s.unacked[tag] == v then 1 else 0;
    }
  }

  lemma StepKeepsBalance(s: State, e: Event, v: Message)
    requires Balanced(s, v) && Enabled(s, e) && TagsOk(s)
    ensures Balanced(Step(s, e), v)
  {
    hide Settled, SettlementFor, Completes, Rejects, Outstanding;
    match e {
      case Publish(_) =>
      case Deliver(m, tag) => OutstandingAdd(s.unacked, tag, m, v);
      case Dispatch(_) =>
      case Finish(tag, outcome) => SettledBalance(s, tag, SettlementFor(outcome), v);
      case LoseChannel(tags) =>
        OutstandingSplit(s.unacked, tags, v);
        ValuesCounts(Gone(s.unacked, tags), v);
    }
  }

  lemma StepKeepsSettledOnce(s: State, e: Event)
    requires SettledOnce(s) && TagsOk(s) && Enabled(s, e)
    ensures SettledOnce(Step(s, e))
  {
    hide SettlementFor, Completes, Rejects, Values;
  }

  lemma SettledTags(s: State, tag: Tag, how: Settlement)
    ensures var t := Settled(s, tag, how);
            && t.unacked == s.unacked - {tag} && t.running == s.running
            && t.delivered == s.delivered && t.dispatched == s.dispatched
  {
    if tag !in s.unacked {
      assert s.unacked - {tag} == s.unacked;
    }
  }

  lemma FinishedTags(s: State, tag: Tag, o: Outcome)
    requires tag in s.running
    ensures var t := Finished(s, tag, o);
            && t.unacked == s.unacked - {tag} && t.running == s.running - {tag}
            && t.delivered == s.delivered && t.dispatched == s.dispatched
  {
    SettledTags(s, tag, SettlementFor(o));
    hide Settled, SettlementFor, Completes, Rejects;
  }

  lemma StepKeepsTags(s: State, e: Event)
    requires TagsOk(s) && Enabled(s, e)
    ensures TagsOk(Step(s, e))
  {
    hide Finished, Values;
    if e.Finish? {
      FinishedTags(s, e.tag, e.outcome);
    }
  }

  /** The settlement fits the outcome. */
  lemma OutcomeDecides(o: Outcome)
    ensures SettlementFor(o) == Ack <==> Completes(o)
    ensures SettlementFor(o) == NackDrop <==> Rejects(o)
  {
  }

  lemma StepKeepsHandled(s: State, e: Event)
    requires HandledOnly(s) && TagsOk(s) && Enabled(s, e)
    ensures HandledOnly(Step(s, e))
  {
    if e.Finish? {
      OutcomeDecides(e.outcome);
    }
  }

  lemma StepKeepsInv(s: State, e: Event)
    requires Inv(s) && Enabled(s, e)
    ensures Inv(Step(s, e))
  {
    forall v ensures Balanced(Step(s, e), v) { StepKeepsBalance(s, e, v); }
    StepKeepsSettledOnce(s, e);
    StepKeepsTags(s, e);
    StepKeepsHandled(s, e);
  }

  lemma {:induction false} RunKeepsInv(s: State, run: seq<Event>)
    requires Inv(s) && ValidRun(s, run)
    ensures Inv(Run(s, run))
    decreases |run|
  {
    if run == [] {
    } else {
      StepKeepsInv(s, run[0]);
      RunKeepsInv(Step(s, run[0]), run[1..]);
    }
  }

  lemma BooksAreMultisets(s: State)
    requires forall v :: Balanced(s, v)
    ensures s.published == s.queued + Values(s.unacked) + s.acked + s.dropped
  {
    forall v ensures s.published[v] == (s.queued + Values(s.unacked) + s.acked + s.dropped)[v] {
      ValuesCounts(s.unacked, v);
      assert Balanced(s, v);
    }
  }

  /**
   Conservation over every run: each published message is queued, outstanding, acked or dropped;
   every dispatch that has ended was settled exactly once, and none that is still running was;
   a message is acked no more often than its handler succeeded or its call was answered, and dropped
   no more often than it had a bad envelope or a panic.
   */
  lemma DeliveriesAreConserved(run: seq<Event>)
    requires ValidRun(INITIAL, run)
    ensures var s := Run(INITIAL, run);
            && s.published == s.queued + Values(s.unacked) + s.acked + s.dropped
            && (forall tag :: tag in s.dispatched ==> s.settled[tag] == if tag in s.running then 0 else 1)
            && s.acked <= s.completed && s.dropped <= s.rejected
  {
    RunKeepsInv(INITIAL, run);
    BooksAreMultisets(Run(INITIAL, run));
  }

  /** Losing every channel at any moment loses no message: all that was outstanding is queued again. */
  lemma LossRequeuesAll(run: seq<Event>)
    requires ValidRun(INITIAL, run)
    ensures var s := Run(INITIAL, run);
            var t := Step(s, LoseChannel(s.unacked.Keys));
            t.unacked == map[] && t.published == t.queued + t.acked + t.dropped
  {
    RunKeepsInv(INITIAL, run);
    var s := Run(INITIAL, run);
    StepKeepsInv(s, LoseChannel(s.unacked.Keys));
    var t := Step(s, LoseChannel(s.unacked.Keys));
    assert t.unacked == map[];
    BooksAreMultisets(t);
  }

  /** A handler that fails puts its message back, and does nothing else at the broker. */
  lemma FailureRequeues(run: seq<Event>, tag: Tag, o: Outcome)
    requires ValidRun(INITIAL, run)
    requires var s := Run(INITIAL, run); tag in s.running && tag in s.unacked
    requires !Completes(o) && !Rejects(o)
    ensures var s := Run(INITIAL, run);
            var t := Step(s, Finish(tag, o));
            && t.queued == s.queued + multiset{s.running[tag]} && t.unacked == s.unacked - {tag}
            && t.acked == s.acked && t.dropped == s.dropped
  {
    RunKeepsInv(INITIAL, run);
    OutcomeDecides(o);
  }

  /** Every delivery is outstanding until its handler ends, and all outcomes have reached the broker. */
  ghost predicate Exact(s: State) {
    && s.running.Keys <= s.unacked.Keys && s.delivered.Keys <= s.unacked.Keys + s.dispatched
    && s.acked == s.completed && s.dropped == s.rejected
  }

  lemma StepKeepsExact(s: State, e: Event)
    requires Exact(s) && TagsOk(s) && Enabled(s, e) && !e.LoseChannel?
    ensures Exact(Step(s, e))
  {
    if e.Finish? {
      OutcomeDecides(e.outcome);
    }
  }

  lemma {:induction false} RunKeepsExact(s: State, run: seq<Event>)
    requires Inv(s) && Exact(s) && ValidRun(s, run) && forall e :: e in run ==> !e.LoseChannel?
    ensures Exact(Run(s, run))
    decreases |run|
  {
    if run == [] {
    } else {
      assert run[0] in run;
      StepKeepsInv(s, run[0]);
      StepKeepsExact(s, run[0]);
      RunKeepsExact(Step(s, run[0]), run[1..]);
    }
  }

  /**
   As long as no channel is lost, the bounds are exact: each completed dispatch has acked its
   message, each rejected one has dropped it, and all others have put theirs back.
   */
  lemma ExactWithoutLoss(run: seq<Event>)
    requires ValidRun(INITIAL, run) && forall e :: e in run ==> !e.LoseChannel?
    ensures var s := Run(INITIAL, run);
            && s.acked == s.completed && s.dropped == s.rejected
            && s.published == s.queued + Values(s.unacked) + s.completed + s.rejected
  {
    DeliveriesAreConserved(run);
    assert Inv(INITIAL) by { RunKeepsInv(INITIAL, []); }
    RunKeepsExact(INITIAL, run);
  }
}
