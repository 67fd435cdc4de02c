/**
 What the ticket table keeps over whole runs: one active ticket per contact and connection, more
 than two hours between the tickets of a pair, and a single ticket for a group.
 */
module TicketRuns {
  import opened Wrappers
  import opened Tickets

  datatype Op =
    | FindOrCreate(contact: nat, whatsapp: nat, isGroup: bool, unreadMessages: int)
    | Update(id: nat, data: UpdateData, actor: Actor, queues: set<nat>)
    | UpdateLastMessage(id: nat, body: string)
    | MarkRead(id: nat)
    | SetQueue(id: nat, queueId: nat)
    | Remove(id: nat, actor: Actor)

  /** An operation some time after the one before it. */
  datatype Event = Event(elapsed: nat, op: Op)

  datatype World = World(rows: Rows, nextId: nat, now: int)

  /** One row rewritten in place, and the update that is emitted. */
  function Rewritten(rows: Rows, id: nat, t: Ticket): (Rows, seq<Frame>)
    requires id in rows
  { (rows[id := t], EmitUpdate(id, t, rows[id].status)) }

  /** The table after an operation, and the frames it emits. */
  ghost function Effect(rows: Rows, nextId: nat, op: Op, now: int): (Rows, seq<Frame>) {
    match op
    case FindOrCreate(contact, whatsapp, isGroup, unreadMessages) =>
      var o := FoundOrCreated(rows, nextId, contact, whatsapp, isGroup, unreadMessages, now);
      (o.rows, o.frames)
    case Update(id, data, actor, queues) =>
      (match UpdateResult(rows, id, data, actor, queues, now)
       case Err(_) => (rows, [])
       case Ok(t) => (rows[id := t], UpdateFrames(rows, id, data, actor, t)))
    case UpdateLastMessage(id, body) =>
      if id in rows then Rewritten(rows, id, rows[id].(lastMessage := body, updatedAt := now))
      else (rows, [])
    case MarkRead(id) =>
      if id in rows then Rewritten(rows, id, rows[id].(unread := 0, updatedAt := now)) else (rows, [])
    case SetQueue(id, queueId) =>
      if id in rows then Rewritten(rows, id, rows[id].(queue := Some(queueId), updatedAt := now))
      else (rows, [])
    case Remove(id, actor) =>
      if actor.admin && id in rows then (rows - {id}, EmitDelete(id, rows[id])) else (rows, [])
  }

  ghost function Step(w: World, e: Event): World {
    var now := w.now + e.elapsed;
    var (rows, _) := Effect(w.rows, w.nextId, e.op, now);
    World(rows, if e.op.FindOrCreate? then w.nextId + 1 else w.nextId, now)
  }

  ghost function Run(w: World, run: seq<Event>): World
    decreases |run|
  {
    if run == [] then w else Run(Step(w, run[0]), run[1..])
  }

  /** Ids are below the next one, and a row was created, then updated, then it is now. */
  ghost predicate WellFormed(w: World) {
    forall id :: id in w.rows ==>
      id < w.nextId && w.rows[id].createdAt <= w.rows[id].updatedAt <= w.now
  }

  /* ---- What one lookup decides ---- */

  /** No ticket of the pair, active or not as asked, was updated later than this one. */
  ghost predicate NewestAmong(rows: Rows, contact: nat, whatsapp: nat, active: bool, newest: nat)
    requires newest in rows
  {
    forall id | id in rows && OfPair(rows[id], contact, whatsapp) && Active(rows[id]) == active ::
      rows[id].updatedAt <= rows[newest].updatedAt
  }

  ghost predicate HasActive(rows: Rows, contact: nat, whatsapp: nat) {
    exists id :: id in rows && OfPair(rows[id], contact, whatsapp) && Active(rows[id])
  }

  /** A ticket that may be reopened: one updated since the given time, or any one of a group. */
  ghost predicate HasRecent(rows: Rows, contact: nat, whatsapp: nat, isGroup: bool, since: int) {
    exists id :: id in rows && OfPair(rows[id], contact, whatsapp) && (isGroup || rows[id].updatedAt >= since)
  }

  ghost predicate SameOthers(rows: Rows, after: Rows, touched: nat) {
    forall id | id != touched && (id in rows || id in after) ::
      id in rows && id in after && after[id] == rows[id]
  }

  /**
   Find, reopen or create, said without the queries: an active ticket is used if there is one;
   otherwise the most recently updated ticket of the pair, within the window unless it is a group;
   otherwise a new one.
   */
  ghost predicate Decided(w: World, contact: nat, whatsapp: nat, isGroup: bool, unread: int, now: int, o: Outcome) {
    var active := HasActive(w.rows, contact, whatsapp);
    var recent := HasRecent(w.rows, contact, whatsapp, isGroup, now - REOPEN_WINDOW);
    && (o.action == Bumped <==> active)
    && (o.action == Reopened <==> !active && recent)
    && (o.action == WasCreated <==> !active && !recent)
    && o.id in o.rows && SameOthers(w.rows, o.rows, o.id)
    && OfPair(o.rows[o.id], contact, whatsapp) && Active(o.rows[o.id])
    && o.rows[o.id].unread == unread && o.rows[o.id].updatedAt == now
    && (if o.action == WasCreated then o.id == w.nextId && o.id !in w.rows && o.rows[o.id].createdAt == now
        else o.id in w.rows && o.rows[o.id].createdAt == w.rows[o.id].createdAt
             && OfPair(w.rows[o.id], contact, whatsapp) && Active(w.rows[o.id]) == (o.action == Bumped)
             && NewestAmong(w.rows, contact, whatsapp, o.action == Bumped, o.id))
  }

  lemma FindOrCreateDecides(w: World, contact: nat, whatsapp: nat, isGroup: bool, unread: int, now: int)
    requires WellFormed(w) && w.now <= now
    ensures Decided(w, contact, whatsapp, isGroup, unread, now,
                    FoundOrCreated(w.rows, w.nextId, contact, whatsapp, isGroup, unread, now))
  {
    assert w.nextId !in w.rows;
  }

  /* ---- One active ticket per pair ---- */

  ghost predicate OneActive(rows: Rows) {
    forall i, j | i in rows && j in rows && Active(rows[i]) && Active(rows[j])
                  && OfPair(rows[i], rows[j].contact, rows[j].whatsapp) :: i == j
  }

  /**
   An update that reopens a closed ticket although its pair has an active one, by someone who may
   change the ticket and, when it is to be opened, may assign the user named.
   */
  ghost predicate ReopensBeside(rows: Rows, op: Op) {
    && op.Update? && op.id in rows && !Active(rows[op.id])
    && (op.data.status == To(Open) || op.data.status == To(Pending))
    && CanModify(op.actor, rows[op.id], op.queues)
    && (op.data.status == To(Open) ==> !AssignmentRejected(op.data.user, op.actor))
    && exists other :: other in rows && Active(rows[other])
                       && OfPair(rows[other], rows[op.id].contact, rows[op.id].whatsapp)
  }

  lemma UpdateKeepsIdentity(rows: Rows, op: Op, now: int)
    requires op.Update? && UpdateResult(rows, op.id, op.data, op.actor, op.queues, now).Ok?
    ensures op.id in rows
    ensures var t := UpdateResult(rows, op.id, op.data, op.actor, op.queues, now).value;
            && t.contact == rows[op.id].contact && t.whatsapp == rows[op.id].whatsapp
            && t.createdAt == rows[op.id].createdAt && (t == rows[op.id] || t.updatedAt == now)
            && t.status == if op.data.status.To? then op.data.status.status else rows[op.id].status
  {
  }

  lemma DecidedKeepsOneActive(w: World, contact: nat, whatsapp: nat, isGroup: bool, unread: int, now: int,
                              o: Outcome)
    requires OneActive(w.rows) && Decided(w, contact, whatsapp, isGroup, unread, now, o)
    ensures OneActive(o.rows)
  {
    forall id | id != o.id && id in w.rows && Active(w.rows[id])
      ensures !OfPair(w.rows[id], contact, whatsapp)
    {
      assert OfPair(w.rows[id], contact, whatsapp) ==> HasActive(w.rows, contact, whatsapp);
    }
  }

  lemma UpdateOneActive(rows: Rows, op: Op, now: int)
    requires op.Update? && OneActive(rows)
    ensures OneActive(Effect(rows, 0, op, now).0) <==> !ReopensBeside(rows, op)
  {
    var after := Effect(rows, 0, op, now).0;
    if UpdateResult(rows, op.id, op.data, op.actor, op.queues, now).Ok? {
      UpdateKeepsIdentity(rows, op, now);
      if ReopensBeside(rows, op) {
        var other :| other in rows && Active(rows[other])
                     && OfPair(rows[other], rows[op.id].contact, rows[op.id].whatsapp);
        assert other in after && op.id in after && Active(after[op.id]) && other != op.id;
      }
    }
  }

  /**
   Exactly which operations keep at most one active ticket per pair: all of them, except an update
   that reopens a closed ticket beside an active one.
   */
  lemma OneActiveKeptIff(w: World, op: Op, now: int)
    requires WellFormed(w) && w.now <= now && OneActive(w.rows)
    ensures OneActive(Effect(w.rows, w.nextId, op, now).0) <==> !ReopensBeside(w.rows, op)
  {
    hide FoundOrCreated, UpdateResult;
    var rows, after := w.rows, Effect(w.rows, w.nextId, op, now).0;
    match op {
      case FindOrCreate(contact, whatsapp, isGroup, unread) =>
        FindOrCreateDecides(w, contact, whatsapp, isGroup, unread, now);
        DecidedKeepsOneActive(w, contact, whatsapp, isGroup, unread, now,
                              FoundOrCreated(rows, w.nextId, contact, whatsapp, isGroup, unread, now));
      case Update(id, data, actor, queues) =>
        UpdateOneActive(rows, op, now);
      case _ =>
    }
  }

  /** The exception is real: an admin may reopen any closed ticket whose pair has an active one. */
  lemma ReopeningBreaks(rows: Rows, closed: nat, active: nat, admin: nat, now: int)
    requires OneActive(rows) && closed in rows && active in rows
    requires !Active(rows[closed]) && Active(rows[active])
    requires OfPair(rows[active], rows[closed].contact, rows[closed].whatsapp)
    ensures var reopen := UpdateData(To(Open), None, None, None, None);
            !OneActive(Effect(rows, 0, Op.Update(closed, reopen, Actor(admin, true), {}), now).0)
  {
    UpdateOneActive(rows, Op.Update(closed, UpdateData(To(Open), None, None, None, None), Actor(admin, true), {}), now);
  }

  lemma StepKeepsWellFormed(w: World, e: Event)
    requires WellFormed(w)
    ensures WellFormed(Step(w, e))
  {
    hide FoundOrCreated, UpdateResult;
    if e.op.FindOrCreate? {
      FindOrCreateDecides(w, e.op.contact, e.op.whatsapp, e.op.isGroup, e.op.unreadMessages,
                          w.now + e.elapsed);
    } else if e.op.Update? && UpdateResult(w.rows, e.op.id, e.op.data, e.op.actor, e.op.queues, w.now + e.elapsed).Ok? {
      UpdateKeepsIdentity(w.rows, e.op, w.now + e.elapsed);
    }
  }

  ghost predicate NeverReopensBeside(w: World, run: seq<Event>)
    decreases |run|
  {
    run == [] || (!ReopensBeside(w.rows, run[0].op) && NeverReopensBeside(Step(w, run[0]), run[1..]))
  }

  lemma StepKeepsOneActive(w: World, e: Event)
    requires WellFormed(w) && OneActive(w.rows) && !ReopensBeside(w.rows, e.op)
    ensures WellFormed(Step(w, e)) && OneActive(Step(w, e).rows)
  {
    hide WellFormed, OneActive, Effect, ReopensBeside;
    OneActiveKeptIff(w, e.op, w.now + e.elapsed);
    StepKeepsWellFormed(w, e);
  }

  /** Over every run: at most one pending or open ticket per contact and connection. */
  lemma {:induction false} ActiveStaysUnique(w: World, run: seq<Event>)
    requires WellFormed(w) && OneActive(w.rows) && NeverReopensBeside(w, run)
    ensures OneActive(Run(w, run).rows)
    decreases |run|
  {
    if run == [] {
    } else {
      StepKeepsOneActive(w, run[0]);
      ActiveStaysUnique(Step(w, run[0]), run[1..]);
    }
  }

  ghost function Answer(w: World, e: Event): nat
    requires e.op.FindOrCreate?
  {
    FoundOrCreated(w.rows, w.nextId, e.op.contact, e.op.whatsapp, e.op.isGroup, e.op.unreadMessages,
                   w.now + e.elapsed).id
  }

  ghost predicate IsTheActiveTicket(rows: Rows, contact: nat, whatsapp: nat, id: nat) {
    && id in rows && Active(rows[id]) && OfPair(rows[id], contact, whatsapp)
    && forall other | other in rows && Active(rows[other]) && OfPair(rows[other], contact, whatsapp) ::
         other == id
  }

  lemma AnswerIsTheActiveTicket(w: World, e: Event)
    requires WellFormed(w) && OneActive(w.rows) && e.op.FindOrCreate?
    ensures IsTheActiveTicket(Step(w, e).rows, e.op.contact, e.op.whatsapp, Answer(w, e))
  {
    hide FoundOrCreated, UpdateResult;
    OneActiveKeptIff(w, e.op, w.now + e.elapsed);
    FindOrCreateDecides(w, e.op.contact, e.op.whatsapp, e.op.isGroup, e.op.unreadMessages,
                        w.now + e.elapsed);
  }

  lemma ActiveTicketIsAnswered(w: World, e: Event, id: nat)
    requires WellFormed(w) && e.op.FindOrCreate?
    requires IsTheActiveTicket(w.rows, e.op.contact, e.op.whatsapp, id)
    ensures Answer(w, e) == id
  {
    assert Accepts(ActiveQuery(e.op.contact, e.op.whatsapp), w.rows[id]);
  }

  lemma {:induction false} RunKeepsWellFormed(w: World, run: seq<Event>)
    requires WellFormed(w)
    ensures WellFormed(Run(w, run))
    decreases |run|
  {
    if run == [] {
    } else {
      StepKeepsWellFormed(w, run[0]);
      RunKeepsWellFormed(Step(w, run[0]), run[1..]);
    }
  }

  /** After any such run a lookup answers the pair's one active ticket, and so does the next. */
  lemma LookupAnswersTheActiveTicket(w: World, run: seq<Event>, first: Event, second: Event)
    requires WellFormed(w) && OneActive(w.rows) && NeverReopensBeside(w, run)
    requires first.op.FindOrCreate? && second.op.FindOrCreate?
    requires first.op.contact == second.op.contact && first.op.whatsapp == second.op.whatsapp
    ensures var v := Run(w, run);
            && IsTheActiveTicket(Step(v, first).rows, first.op.contact, first.op.whatsapp, Answer(v, first))
            && Answer(Step(v, first), second) == Answer(v, first)
  {
    ActiveStaysUnique(w, run);
    RunKeepsWellFormed(w, run);
    var v := Run(w, run);
    AnswerIsTheActiveTicket(v, first);
    StepKeepsWellFormed(v, first);
    ActiveTicketIsAnswered(Step(v, first), second, Answer(v, first));
  }

  /* ---- More than two hours between tickets ---- */

  ghost predicate Spaced(rows: Rows) {
    forall i, j :: i in rows && j in rows && i < j && OfPair(rows[i], rows[j].contact, rows[j].whatsapp) ==>
      rows[j].createdAt > rows[i].createdAt + REOPEN_WINDOW
  }

  /** A row that was there keeps its pair and its creation time. */
  ghost predicate BirthKept(rows: Rows, after: Rows, id: nat)
    requires id in rows && id in after
  {
    OfPair(after[id], rows[id].contact, rows[id].whatsapp) && after[id].createdAt == rows[id].createdAt
  }

  /** A row that is new comes long after every other ticket of its pair. */
  ghost predicate BornLate(w: World, after: Rows, id: nat)
    requires id in after
  {
    && id == w.nextId
    && forall i | i in w.rows && OfPair(w.rows[i], after[id].contact, after[id].whatsapp) ::
         after[id].createdAt > w.rows[i].createdAt + REOPEN_WINDOW
  }

  lemma StepBirths(w: World, e: Event)
    requires WellFormed(w)
    ensures var after := Step(w, e).rows;
            forall id | id in after ::
              if id in w.rows then BirthKept(w.rows, after, id) else BornLate(w, after, id)
  {
    hide FoundOrCreated, UpdateResult;
    var now := w.now + e.elapsed;
    if e.op.FindOrCreate? {
      FindOrCreateDecides(w, e.op.contact, e.op.whatsapp, e.op.isGroup, e.op.unreadMessages, now);
    } else if e.op.Update? && UpdateResult(w.rows, e.op.id, e.op.data, e.op.actor, e.op.queues, now).Ok? {
      UpdateKeepsIdentity(w.rows, e.op, now);
    }
  }

  lemma StepKeepsSpacing(w: World, e: Event)
    requires WellFormed(w) && Spaced(w.rows)
    ensures Spaced(Step(w, e).rows)
  {
    StepBirths(w, e);
    var after := Step(w, e).rows;
    forall i, j | i in after && j in after && i < j && OfPair(after[i], after[j].contact, after[j].whatsapp)
      ensures after[j].createdAt > after[i].createdAt + REOPEN_WINDOW
    {
      if j in w.rows {
        assert i in w.rows by { assert j < w.nextId; }
        assert BirthKept(w.rows, after, i) && BirthKept(w.rows, after, j);
      } else {
        assert BornLate(w, after, j);
        assert i in w.rows && BirthKept(w.rows, after, i);
      }
    }
  }

  /** Over every run: the later of two tickets of a pair was created more than two hours after. */
  lemma {:induction false} TicketsStaySpaced(w: World, run: seq<Event>)
    requires WellFormed(w) && Spaced(w.rows)
    ensures Spaced(Run(w, run).rows)
    decreases |run|
  {
    if run == [] {
    } else {
      StepKeepsSpacing(w, run[0]);
      StepKeepsWellFormed(w, run[0]);
      TicketsStaySpaced(Step(w, run[0]), run[1..]);
    }
  }

  /* ---- A group has one ticket ---- */

  ghost predicate AtMostOneRow(rows: Rows, contact: nat, whatsapp: nat) {
    forall i, j | i in rows && j in rows && OfPair(rows[i], contact, whatsapp)
                  && OfPair(rows[j], contact, whatsapp) :: i == j
  }

  /** Every lookup of this pair says it is a group. */
  ghost predicate OnlyGroupLookups(run: seq<Event>, contact: nat, whatsapp: nat) {
    forall e :: e in run && e.op.FindOrCreate? && e.op.contact == contact && e.op.whatsapp == whatsapp ==>
      e.op.isGroup
  }

  lemma StepKeepsOneRow(w: World, e: Event, contact: nat, whatsapp: nat)
    requires WellFormed(w) && AtMostOneRow(w.rows, contact, whatsapp)
    requires OnlyGroupLookups([e], contact, whatsapp)
    ensures AtMostOneRow(Step(w, e).rows, contact, whatsapp)
  {
    hide FoundOrCreated, UpdateResult;
    assert e in [e];
    var now := w.now + e.elapsed;
    if e.op.FindOrCreate? {
      FindOrCreateDecides(w, e.op.contact, e.op.whatsapp, e.op.isGroup, e.op.unreadMessages, now);
    } else if e.op.Update? && UpdateResult(w.rows, e.op.id, e.op.data, e.op.actor, e.op.queues, now).Ok? {
      UpdateKeepsIdentity(w.rows, e.op, now);
    }
  }

  /** Over every run: a group that starts with no ticket, or one, never has a second. */
  lemma {:induction false} GroupKeepsOneTicket(w: World, run: seq<Event>, contact: nat, whatsapp: nat)
    requires WellFormed(w) && AtMostOneRow(w.rows, contact, whatsapp)
    requires OnlyGroupLookups(run, contact, whatsapp)
    ensures AtMostOneRow(Run(w, run).rows, contact, whatsapp)
    decreases |run|
  {
    if run == [] {
    } else {
      assert run[0] in run;
      StepKeepsOneRow(w, run[0], contact, whatsapp);
      StepKeepsWellFormed(w, run[0]);
      GroupKeepsOneTicket(Step(w, run[0]), run[1..], contact, whatsapp);
    }
  }
}
