/**
 The ticket table and the operations on it: find, reopen or create under the advisory lock of a
 (contact, connection) pair, update, delete and the rest, with the frames each one emits. A
 transaction is one step, and time never runs backwards.
 */
module Tickets {
  import opened Wrappers

  datatype Status = Pending | Open | Closed

  datatype Ticket = Ticket(
    contact: nat, whatsapp: nat, status: Status, isGroup: bool, user: Option<nat>,
    queue: Option<nat>, unread: int, lastMessage: string, createdAt: int, updatedAt: int)

  type Rows = map<nat, Ticket>

  /** Two hours, in seconds. */
  const REOPEN_WINDOW := 2 * 60 * 60

  datatype Error = InvalidInput | InvalidStatus | TicketNotFound | NoPermission

  predicate Active(t: Ticket) { t.status != Closed }

  predicate OfPair(t: Ticket, contact: nat, whatsapp: nat) {
    t.contact == contact && t.whatsapp == whatsapp
  }

  /* ---- Frames ---- */

  datatype Channel = StatusChannel(status: Status) | TicketChannel(id: nat) | Notification

  /** MessageCreated is the frame of the message service, which carries the ticket along. */
  datatype Payload =
    | Created(id: nat, ticket: Ticket) | Updated(id: nat, ticket: Ticket) | Deleted(id: nat)
    | MessageCreated(id: nat, ticket: Ticket)

  datatype Frame = Frame(channel: Channel, payload: Payload)

  function EmitCreate(id: nat, t: Ticket): seq<Frame> {
    [Frame(StatusChannel(t.status), Created(id, t)), Frame(Notification, Created(id, t))]
  }

  function EmitUpdate(id: nat, t: Ticket, oldStatus: Status): seq<Frame> {
    var p := Updated(id, t);
    if oldStatus != t.status then
      [Frame(StatusChannel(oldStatus), p), Frame(StatusChannel(t.status), p),
       Frame(TicketChannel(id), p), Frame(Notification, p)]
    else
      [Frame(StatusChannel(t.status), p), Frame(TicketChannel(id), p)]
  }

  function EmitDelete(id: nat, t: Ticket): seq<Frame> {
    [Frame(StatusChannel(t.status), Deleted(id)), Frame(TicketChannel(id), Deleted(id)),
     Frame(Notification, Deleted(id))]
  }

  /** The channels of these frames, each frame with this payload. */
  ghost predicate Reaches(frames: seq<Frame>, p: Payload, channels: set<Channel>) {
    && (forall i :: 0 <= i < |frames| ==> frames[i].payload == p && frames[i].channel in channels)
    && (forall ch :: ch in channels ==> Frame(ch, p) in frames)
    && (forall i, j :: 0 <= i < j < |frames| ==> frames[i] != frames[j])
  }

  lemma CreateReaches(id: nat, t: Ticket)
    ensures Reaches(EmitCreate(id, t), Created(id, t), {StatusChannel(t.status), Notification})
  {
    var frames, p := EmitCreate(id, t), Created(id, t);
    assert frames[0] == Frame(StatusChannel(t.status), p) && frames[1] == Frame(Notification, p);
  }

  lemma DeleteReaches(id: nat, t: Ticket)
    ensures Reaches(EmitDelete(id, t), Deleted(id), {StatusChannel(t.status), TicketChannel(id), Notification})
  {
    var frames, p := EmitDelete(id, t), Payload.Deleted(id);
    assert frames[0] == Frame(StatusChannel(t.status), p) && frames[1] == Frame(TicketChannel(id), p);
    assert frames[2] == Frame(Notification, p);
  }

  /** Who hears of a ticket: its tab, an update also the chat box and, when it changes tabs, everyone. */
  lemma EmitsReach(id: nat, t: Ticket, oldStatus: Status)
    ensures Reaches(EmitCreate(id, t), Created(id, t), {StatusChannel(t.status), Notification})
    ensures Reaches(EmitUpdate(id, t, oldStatus), Updated(id, t),
                    {StatusChannel(oldStatus), StatusChannel(t.status), TicketChannel(id)}
                    + if oldStatus != t.status then {Notification} else {})
    ensures Reaches(EmitDelete(id, t), Deleted(id), {StatusChannel(t.status), TicketChannel(id), Notification})
  {
    CreateReaches(id, t);
    DeleteReaches(id, t);
    var p := Updated(id, t);
    var frames := EmitUpdate(id, t, oldStatus);
    assert frames[0] == Frame(StatusChannel(oldStatus), p);
    if oldStatus != t.status {
      assert frames[1] == Frame(StatusChannel(t.status), p) && frames[2] == Frame(TicketChannel(id), p);
      assert frames[3] == Frame(Notification, p);
    } else {
      assert frames[1] == Frame(TicketChannel(id), p);
    }
  }

  /* ---- Queries ---- */

  /** Which tickets a lookup accepts: of the pair, active if asked for, updated since the cutoff. */
  datatype Query = Query(contact: nat, whatsapp: nat, activeOnly: bool, since: Option<int>)

  predicate Accepts(q: Query, t: Ticket) {
    && OfPair(t, q.contact, q.whatsapp)
    && (q.activeOnly ==> Active(t))
    && (q.since.Some? ==> t.updatedAt >= q.since.value)
  }

  /** ORDER BY updated_at DESC, then the primary key. */
  predicate ComesFirst(rows: Rows, a: nat, b: nat)
    requires a in rows && b in rows
  {
    rows[a].updatedAt > rows[b].updatedAt || (rows[a].updatedAt == rows[b].updatedAt && a <= b)
  }

  ghost predicate IsFirst(rows: Rows, q: Query, r: Option<nat>) {
    match r
    case None => forall id :: id in rows ==> !Accepts(q, rows[id])
    case Some(id) =>
      && id in rows && Accepts(q, rows[id])
      && forall other :: other in rows && Accepts(q, rows[other]) ==> ComesFirst(rows, id, other)
  }

  lemma FirstIsUnique(rows: Rows, q: Query, a: Option<nat>, b: Option<nat>)
    requires IsFirst(rows, q, a) && IsFirst(rows, q, b)
    ensures a == b
  {
    if a.Some? && b.Some? {
      assert ComesFirst(rows, a.value, b.value) && ComesFirst(rows, b.value, a.value);
    }
  }

  lemma {:induction false} FirstExists(rows: Rows, q: Query) returns (r: Option<nat>)
    ensures IsFirst(rows, q, r)
    decreases |rows|
  {
    if rows == map[] {
      return None;
    }
    var id :| id in rows;
    var rest := rows - {id};
    assert rest.Keys == rows.Keys - {id};
    assert forall x :: x in rows <==> x == id || x in rest;
    r := FirstExists(rest, q);
    if Accepts(q, rows[id]) && (r.None? || ComesFirst(rows, id, r.value)) {
      r := Some(id);
    }
  }

  ghost function First(rows: Rows, q: Query): (r: Option<nat>)
    ensures IsFirst(rows, q, r)
  {
    assert exists r :: IsFirst(rows, q, r) by { var r := FirstExists(rows, q); }
    var r :| IsFirst(rows, q, r);
    r
  }

  /** The database's answer to a lookup. */
  method Find(rows: Rows, q: Query) returns (r: Option<nat>)
    ensures r == First(rows, q)
  {
    r := None;
    var left := rows.Keys;
    while left != {}
      invariant left <= rows.Keys
      invariant r.Some? ==> r.value in rows && Accepts(q, rows[r.value])
      invariant forall other :: other in rows && other !in left && Accepts(q, rows[other]) ==>
                  r.Some? && ComesFirst(rows, r.value, other)
      decreases left
    {
      var id :| id in left;
      if Accepts(q, rows[id]) && (r.None? || ComesFirst(rows, id, r.value)) {
        r := Some(id);
      }
      left := left - {id};
    }
    FirstIsUnique(rows, q, r, First(rows, q));
  }

  /* ---- Find, reopen or create ---- */

  datatype Action = WasCreated | Reopened | Bumped

  /** The table after an operation, the ticket it is about, and the frames it emits. */
  datatype Outcome = Outcome(rows: Rows, nextId: nat, id: nat, action: Action, frames: seq<Frame>)

  function ActiveQuery(contact: nat, whatsapp: nat): Query { Query(contact, whatsapp, true, None) }

  function ReopenQuery(contact: nat, whatsapp: nat, isGroup: bool, now: int): Query {
    Query(contact, whatsapp, false, if isGroup then None else Some(now - REOPEN_WINDOW))
  }

  ghost function FoundOrCreated(rows: Rows, nextId: nat, contact: nat, whatsapp: nat, isGroup: bool,
                                unread: int, now: int): Outcome
  {
    var existing := First(rows, ActiveQuery(contact, whatsapp));
    var reopenable := First(rows, ReopenQuery(contact, whatsapp, isGroup, now));
    if existing.Some? then
      var t := rows[existing.value].(unread := unread, updatedAt := now);
      Outcome(rows[existing.value := t], nextId, existing.value, Bumped,
              EmitUpdate(existing.value, t, t.status))
    else if reopenable.Some? then
      var t := rows[reopenable.value].(status := Pending, user := None, unread := unread, updatedAt := now);
      Outcome(rows[reopenable.value := t], nextId, reopenable.value, Reopened,
              EmitUpdate(reopenable.value, t, rows[reopenable.value].status))
    else
      var t := Ticket(contact, whatsapp, Pending, isGroup, None, None, unread, "", now, now);
      Outcome(rows[nextId := t], nextId + 1, nextId, WasCreated, EmitCreate(nextId, t))
  }

  /**
   What a lookup writes, column by column: a bump sets the unread count alone; a reopening puts the
   ticket back to pending without a user; a new ticket is pending, of the kind asked for, and has
   neither user nor queue. One row is written, and its creation or update is emitted.
   */
  lemma FindOrCreateWrites(rows: Rows, nextId: nat, contact: nat, whatsapp: nat, isGroup: bool, unread: int, now: int)
    requires nextId !in rows
    ensures var o := FoundOrCreated(rows, nextId, contact, whatsapp, isGroup, unread, now);
            && o.rows.Keys == rows.Keys + {o.id} && o.id in o.rows
            && (forall id :: id in rows && id != o.id ==> o.rows[id] == rows[id])
            && o.nextId == nextId + (if o.action == WasCreated then 1 else 0)
            && (o.action == WasCreated <==> o.id !in rows)
            && (var t := o.rows[o.id];
                if o.action == WasCreated then
                  && o.id == nextId && t.contact == contact && t.whatsapp == whatsapp && t.status == Pending
                  && t.isGroup == isGroup && t.user.None? && t.queue.None? && t.unread == unread
                  && t.lastMessage == "" && t.createdAt == t.updatedAt == now
                  && o.frames == EmitCreate(o.id, t)
                else
                  var was := rows[o.id];
                  && t.contact == was.contact && t.whatsapp == was.whatsapp && t.isGroup == was.isGroup
                  && t.queue == was.queue && t.lastMessage == was.lastMessage && t.createdAt == was.createdAt
                  && t.unread == unread && t.updatedAt == now
                  && t.status == (if o.action == Bumped then was.status else Pending)
                  && t.user == (if o.action == Bumped then was.user else None)
                  && o.frames == EmitUpdate(o.id, t, was.status))
  {
  }

  /* ---- Updates ---- */

  datatype Actor = Actor(id: nat, admin: bool)

  datatype StatusRequest = Unset | Unknown | To(status: Status)

  /** A missing field is None; for user and queue, Some(None) asks for NULL. */
  datatype UpdateData = UpdateData(
    status: StatusRequest, lastMessage: Option<string>, user: Option<Option<nat>>,
    queue: Option<Option<nat>>, unread: Option<int>)

  predicate CanSee(actor: Actor, t: Ticket, queues: set<nat>) {
    || actor.admin
    || t.user == Some(actor.id)
    || (t.queue.Some? && t.queue.value in queues)
    || (t.status == Pending && t.queue.None?)
  }

  predicate CanModify(actor: Actor, t: Ticket, queues: set<nat>) {
    actor.admin || (CanSee(actor, t, queues) && (t.status == Pending || t.user == Some(actor.id)))
  }

  /** A user may be assigned only to oneself, and unassigned by nobody, unless an admin asks. */
  predicate AssignmentRejected(user: Option<Option<nat>>, actor: Actor) {
    user.Some? && !actor.admin && (user.value.None? || user.value.value != actor.id)
  }

  /** The columns that the request sets; None means the column is left alone. */
  datatype Changes = Changes(
    status: Option<Status>, lastMessage: Option<string>, user: Option<Option<nat>>,
    queue: Option<Option<nat>>, unread: Option<int>, autoRead: bool)

  function ChangesOf(t: Ticket, data: UpdateData, actor: Actor): Changes {
    var to := if data.status.To? then Some(data.status.status) else None;
    var statusChange := to.Some? && to.value != t.status;
    var user :=
      if to == Some(Open) then
        if data.user.Some? then data.user
        else if t.user != Some(actor.id) then Some(Some(actor.id)) else None
      else if to == Some(Pending) then
        if statusChange then Some(None) else None
      else data.user;
    Changes(if statusChange then to else None, data.lastMessage, user, data.queue, data.unread,
            to == Some(Open) && statusChange && t.unread > 0)
  }

  predicate Nothing(c: Changes) {
    c.status.None? && c.lastMessage.None? && c.user.None? && c.queue.None? && c.unread.None?
  }

  function OrElse<T>(o: Option<T>, t: T): T { if o.Some? then o.value else t }

  function Changed(t: Ticket, c: Changes, now: int): Ticket {
    t.(status := OrElse(c.status, t.status), lastMessage := OrElse(c.lastMessage, t.lastMessage),
       user := OrElse(c.user, t.user), queue := OrElse(c.queue, t.queue),
       unread := if c.autoRead then 0 else OrElse(c.unread, t.unread), updatedAt := now)
  }

  /** Update, up to the row it leaves; a request for pending never looks at the user it names. */
  function UpdateResult(rows: Rows, id: nat, data: UpdateData, actor: Actor, queues: set<nat>, now: int)
    : Result<Ticket, Error>
  {
    if data.status == Unknown then Err(InvalidStatus)
    else if id !in rows then Err(TicketNotFound)
    else if !CanModify(actor, rows[id], queues) then Err(NoPermission)
    else if data.status != To(Pending) && AssignmentRejected(data.user, actor) then Err(NoPermission)
    else
      var c := ChangesOf(rows[id], data, actor);
      Ok(if Nothing(c) then rows[id] else Changed(rows[id], c, now))
  }

  /** The row of a successful update, and what is emitted: nothing at all when nothing changed. */
  function UpdateFrames(rows: Rows, id: nat, data: UpdateData, actor: Actor, t: Ticket): seq<Frame> {
    if id !in rows || Nothing(ChangesOf(rows[id], data, actor)) then []
    else EmitUpdate(id, t, rows[id].status)
  }

  /* ---- What an update comes to ---- */

  /** Who may change a ticket: an admin, its user, or, while it is pending, who can see it. */
  predicate Allowed(actor: Actor, t: Ticket, queues: set<nat>) {
    || actor.admin || t.user == Some(actor.id)
    || (t.status == Pending && (t.queue.None? || t.queue.value in queues))
  }

  /** Nobody but an admin assigns someone else, or nobody at all. */
  predicate MayAssign(actor: Actor, user: Option<Option<nat>>) {
    actor.admin || user.None? || user.value == Some(actor.id)
  }

  /** Exactly which updates are refused, and how. */
  lemma UpdateRefuses(rows: Rows, id: nat, data: UpdateData, actor: Actor, queues: set<nat>, now: int)
    ensures var r := UpdateResult(rows, id, data, actor, queues, now);
            && (r == Err(InvalidStatus) <==> data.status == Unknown)
            && (r == Err(TicketNotFound) <==> data.status != Unknown && id !in rows)
            && (r == Err(NoPermission) <==>
                  && data.status != Unknown && id in rows
                  && (!Allowed(actor, rows[id], queues)
                      || (data.status != To(Pending) && !MayAssign(actor, data.user))))
            && r != Err(InvalidInput)
  {
  }

  /** The user after an update: none for a ticket sent back, the actor for one opened without a name. */
  function UserAfter(t: Ticket, data: UpdateData, actor: Actor): Option<nat> {
    if data.status == To(Pending) then (if t.status == Pending then t.user else None)
    else if data.user.Some? then data.user.value
    else if data.status == To(Open) then Some(actor.id)
    else t.user
  }

  /** No column is named, the status is as asked, and the user need not change. */
  predicate AsksNothing(t: Ticket, data: UpdateData, actor: Actor) {
    && data.lastMessage.None? && data.queue.None? && data.unread.None?
    && (data.status.To? ==> data.status.status == t.status)
    && (data.status == To(Pending)
        || (data.user.None? && (data.status == To(Open) ==> t.user == Some(actor.id))))
  }

  /**
   Column by column what an accepted update writes. A request that asks for nothing leaves the row
   as it is, its update time included.
   */
  ghost predicate UpdateWrote(t: Ticket, data: UpdateData, actor: Actor, now: int, u: Ticket) {
    var opens := data.status == To(Open) && t.status != Open;
    && u.contact == t.contact && u.whatsapp == t.whatsapp && u.isGroup == t.isGroup
    && u.createdAt == t.createdAt
    && u.status == (if data.status.To? then data.status.status else t.status)
    && u.user == UserAfter(t, data, actor)
    && u.queue == (if data.queue.Some? then data.queue.value else t.queue)
    && u.lastMessage == (if data.lastMessage.Some? then data.lastMessage.value else t.lastMessage)
    && u.unread == (if opens && t.unread > 0 then 0
                    else if data.unread.Some? then data.unread.value else t.unread)
    && u.updatedAt == (if AsksNothing(t, data, actor) then t.updatedAt else now)
  }

  lemma UpdateWrites(rows: Rows, id: nat, data: UpdateData, actor: Actor, queues: set<nat>, now: int)
    requires UpdateResult(rows, id, data, actor, queues, now).Ok?
    ensures var u := UpdateResult(rows, id, data, actor, queues, now).value;
            && UpdateWrote(rows[id], data, actor, now, u)
            && UpdateFrames(rows, id, data, actor, u)
               == if AsksNothing(rows[id], data, actor) then [] else EmitUpdate(id, u, rows[id].status)
  {
  }

  /* ---- The service ---- */

  class Service {
    var rows: Rows
    var nextId: nat
    var frames: seq<Frame>

    constructor (rows: Rows, nextId: nat)
      ensures this.rows == rows && this.nextId == nextId && frames == []
    {
      this.rows, this.nextId, frames := rows, nextId, [];
    }

    method FindOrCreate(contactRef: Option<nat>, whatsapp: nat, unread: int,
                        groupContact: Option<nat>, now: int)
      returns (r: Result<nat, Error>)
      modifies this
      ensures (contactRef.None? && groupContact.None?) || whatsapp == 0 ==>
                r == Err(InvalidInput) && rows == old(rows) && nextId == old(nextId)
                && frames == old(frames)
      ensures (contactRef.Some? || groupContact.Some?) && whatsapp != 0 ==>
                var contact := if groupContact.Some? then groupContact.value else contactRef.value;
                var o := FoundOrCreated(old(rows), old(nextId), contact, whatsapp,
                                        groupContact.Some?, unread, now);
                r == Ok(o.id) && rows == o.rows && nextId == o.nextId
                && frames == old(frames) + o.frames
    {
      if contactRef.None? && groupContact.None? {
        return Err(InvalidInput);
      }
      if whatsapp == 0 {
        return Err(InvalidInput);
      }
      var isGroup := groupContact.Some?;
      var contact := if isGroup then groupContact.value else contactRef.value;
      var existing := Find(rows, ActiveQuery(contact, whatsapp));
      if existing.Some? {
        var id := existing.value;
        var t := rows[id].(unread := unread, updatedAt := now);
        rows := rows[id := t];
        frames := frames + EmitUpdate(id, t, t.status);
        return Ok(id);
      }
      var reopenable := Find(rows, ReopenQuery(contact, whatsapp, isGroup, now));
      if reopenable.Some? {
        var id := reopenable.value;
        var oldStatus := rows[id].status;
        var t := rows[id].(status := Pending, user := None, unread := unread, updatedAt := now);
        rows := rows[id := t];
        frames := frames + EmitUpdate(id, t, oldStatus);
        return Ok(id);
      }
      var created := Ticket(contact, whatsapp, Pending, isGroup, None, None, unread, "", now, now);
      var id := nextId;
      rows := rows[id := created];
      nextId := nextId + 1;
      frames := frames + EmitCreate(id, created);
      return Ok(id);
    }

    method Update(id: nat, data: UpdateData, actor: Actor, queues: set<nat>, now: int)
      returns (r: Result<Ticket, Error>)
      modifies this`rows, this`frames
      ensures r == UpdateResult(old(rows), id, data, actor, queues, now)
      ensures r.Err? ==> rows == old(rows) && frames == old(frames)
      ensures r.Ok? ==> id in old(rows) && rows == old(rows)[id := r.value]
                        && frames == old(frames) + UpdateFrames(old(rows), id, data, actor, r.value)
    {
      if data.status == Unknown {
        return Err(InvalidStatus);
      }
      if id !in rows {
        return Err(TicketNotFound);
      }
      var t := rows[id];
      if !CanModify(actor, t, queues) {
        return Err(NoPermission);
      }
      var oldStatus := t.status;
      var updates := Changes(None, data.lastMessage, None, data.queue, data.unread, false);
      match data.status {
        case To(to) =>
          var statusChange := to != t.status;
          match to {
            case Open =>
              if data.user.Some? {
                if data.user.value.None? {
                  if !actor.admin {
                    return Err(NoPermission);
                  }
                } else if data.user.value.value != actor.id && !actor.admin {
                  return Err(NoPermission);
                }
                updates := updates.(user := data.user);
              } else if t.user != Some(actor.id) {
                updates := updates.(user := Some(Some(actor.id)));
              }
              if statusChange {
                updates := updates.(status := Some(Open), autoRead := t.unread > 0);
              }
            case Pending =>
              if statusChange {
                updates := updates.(status := Some(Pending), user := Some(None));
              }
            case Closed =>
              if statusChange {
                updates := updates.(status := Some(Closed));
              }
              if AssignmentRejected(data.user, actor) {
                return Err(NoPermission);
              }
              updates := updates.(user := data.user);
          }
        case _ =>
          if AssignmentRejected(data.user, actor) {
            return Err(NoPermission);
          }
          updates := updates.(user := data.user);
      }
      assert updates == ChangesOf(t, data, actor);
      if Nothing(updates) {
        assert rows[id := t] == rows;
        return Ok(t);
      }
      var updated := Changed(t, updates, now);
      rows := rows[id := updated];
      frames := frames + EmitUpdate(id, updated, oldStatus);
      return Ok(updated);
    }

    method Delete(id: nat, actor: Actor) returns (r: Result<(), Error>)
      modifies this`rows, this`frames
      ensures r == if !actor.admin then Err(NoPermission)
                   else if id !in old(rows) then Err(TicketNotFound) else Ok(())
      ensures r.Err? ==> rows == old(rows) && frames == old(frames)
      ensures r.Ok? ==> rows == old(rows) - {id}
                        && frames == old(frames) + EmitDelete(id, old(rows)[id])
    {
      if !actor.admin {
        return Err(NoPermission);
      }
      if id !in rows {
        return Err(TicketNotFound);
      }
      var t := rows[id];
      rows := rows - {id};
      frames := frames + EmitDelete(id, t);
      return Ok(());
    }

    method UpdateLastMessage(id: nat, body: string, now: int) returns (r: Result<(), Error>)
      modifies this`rows, this`frames
      ensures r == if id in old(rows) then Ok(()) else Err(TicketNotFound)
      ensures r.Err? ==> rows == old(rows) && frames == old(frames)
      ensures r.Ok? ==> var t := old(rows)[id].(lastMessage := body, updatedAt := now);
                        rows == old(rows)[id := t] && frames == old(frames) + EmitUpdate(id, t, t.status)
    {
      if id !in rows {
        return Err(TicketNotFound);
      }
      var t := rows[id].(lastMessage := body, updatedAt := now);
      rows := rows[id := t];
      frames := frames + EmitUpdate(id, t, t.status);
      return Ok(());
    }
  }
}
