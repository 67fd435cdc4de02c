/**
 A tab of the ticket list in the browser, as a replica of the tickets with its status: it loads
 pages from the server and then follows the frames of the channels it hears.
 */
module TicketTab {
  import opened Wrappers
  import opened Tickets
  import opened TicketRuns

  datatype Shown = Shown(id: nat, ticket: Ticket)

  /* ---- The reducer ---- */

  function FindIndex(s: seq<Shown>, id: nat): (i: nat)
    ensures i <= |s|
  {
    if s == [] || s[0].id == id then 0 else 1 + FindIndex(s[1..], id)
  }

  function WithoutAt(s: seq<Shown>, i: nat): seq<Shown>
    requires i < |s|
  { s[..i] + s[i + 1..] }

  /** Replace the entry in its place, or put a new one in front. */
  function Upserted(s: seq<Shown>, x: Shown): seq<Shown> {
    var i := FindIndex(s, x.id);
    if i < |s| then s[i := x] else [x] + s
  }

  /** Replace the entry and move it to the front, or put a new one there. */
  function Raised(s: seq<Shown>, x: Shown): seq<Shown> {
    var i := FindIndex(s, x.id);
    if i < |s| then [x] + WithoutAt(s, i) else [x] + s
  }

  function Removed(s: seq<Shown>, id: nat): seq<Shown> {
    var i := FindIndex(s, id);
    if i < |s| then WithoutAt(s, i) else s
  }

  /** One loaded ticket: known ones with unread messages move to the front, new ones to the end. */
  function LoadedOne(s: seq<Shown>, x: Shown): seq<Shown> {
    var i := FindIndex(s, x.id);
    if i == |s| then s + [x]
    else if x.ticket.unread > 0 then [x] + WithoutAt(s, i)
    else s[i := x]
  }

  function Loaded(s: seq<Shown>, page: seq<Shown>): seq<Shown> {
    if page == [] then s else LoadedOne(Loaded(s, page[..|page| - 1]), page[|page| - 1])
  }

  /* ---- Where an entry goes, said without the reducer ---- */

  /** The first entry with this id. */
  predicate At(s: seq<Shown>, i: int, id: nat) {
    0 <= i < |s| && s[i].id == id && forall k :: 0 <= k < i ==> s[k].id != id
  }

  predicate Absent(s: seq<Shown>, id: nat) { forall i :: 0 <= i < |s| ==> s[i].id != id }

  /** x is in the place of the entry with its id, or first if there was none; the rest is as it was. */
  ghost predicate InPlace(s: seq<Shown>, x: Shown, u: seq<Shown>) {
    && (forall i | At(s, i, x.id) :: u == s[i := x])
    && (Absent(s, x.id) ==> u == [x] + s)
  }

  /** x is first, the entry with its id is gone from its old place, and the rest is as it was. */
  ghost predicate InFront(s: seq<Shown>, x: Shown, u: seq<Shown>) {
    && (forall i | At(s, i, x.id) :: u == [x] + (s[..i] + s[i + 1..]))
    && (Absent(s, x.id) ==> u == [x] + s)
  }

  /** The entry with the id is gone, and the rest is as it was. */
  ghost predicate TakenOut(s: seq<Shown>, id: nat, u: seq<Shown>) {
    && (forall i | At(s, i, id) :: u == s[..i] + s[i + 1..])
    && (Absent(s, id) ==> u == s)
  }

  lemma {:induction false} FindIndexFinds(s: seq<Shown>, id: nat)
    ensures var i := FindIndex(s, id);
            && (i < |s| ==> s[i].id == id)
            && forall k :: 0 <= k < i ==> s[k].id != id
  {
    if s == [] || s[0].id == id {
    } else {
      FindIndexFinds(s[1..], id);
      forall k | 0 < k < FindIndex(s, id) ensures s[k].id != id { assert s[k] == s[1..][k - 1]; }
    }
  }

  lemma OnlyPlace(s: seq<Shown>, id: nat)
    ensures forall i | At(s, i, id) :: i == FindIndex(s, id)
    ensures Absent(s, id) <==> FindIndex(s, id) == |s|
  {
    FindIndexFinds(s, id);
    var k := FindIndex(s, id);
    if k < |s| {
      assert At(s, k, id);
    }
  }

  /** Each change of the reducer, by what it does to the list. */
  lemma ChangesPlace(s: seq<Shown>, x: Shown)
    ensures InPlace(s, x, Upserted(s, x)) && InFront(s, x, Raised(s, x)) && TakenOut(s, x.id, Removed(s, x.id))
  {
    OnlyPlace(s, x.id);
    hide FindIndex;
  }

  /**
   A page in turn: a ticket that is not there yet goes to the end, a known one with unread messages
   to the front, and any other one keeps its place.
   */
  lemma LoadPlaces(s: seq<Shown>, page: seq<Shown>, x: Shown)
    ensures Loaded(s, []) == s
    ensures var before, u := Loaded(s, page), Loaded(s, page + [x]);
            if Absent(before, x.id) then u == before + [x]
            else if x.ticket.unread > 0 then InFront(before, x, u) else InPlace(before, x, u)
  {
    assert (page + [x])[..|page|] == page;
    OnlyPlace(Loaded(s, page), x.id);
    hide FindIndex;
  }

  class TicketsReducer {
    var state: seq<Shown>

    method LoadTickets(page: seq<Shown>)
      modifies this
      ensures state == Loaded(old(state), page)
    {
      for k := 0 to |page|
        invariant state == Loaded(old(state), page[..k])
      {
        assert page[..k + 1][..k] == page[..k];
        var x := page[k];
        var i := FindIndex(state, x.id);
        if i < |state| {
          state := state[i := x];
          if x.ticket.unread > 0 {
            var spliced := state[i];
            state := state[..i] + state[i + 1..];
            state := [spliced] + state;
          }
        } else {
          state := state + [x];
        }
      }
      assert page[..|page|] == page;
    }

    method UpdateTicket(x: Shown)
      modifies this
      ensures state == Upserted(old(state), x) && InPlace(old(state), x, state)
    {
      ChangesPlace(state, x);
      var i := FindIndex(state, x.id);
      if i < |state| {
        state := state[i := x];
      } else {
        state := [x] + state;
      }
    }

    method UpdateTicketUnreadMessages(x: Shown)
      modifies this
      ensures state == Raised(old(state), x) && InFront(old(state), x, state)
    {
      ChangesPlace(state, x);
      var i := FindIndex(state, x.id);
      if i < |state| {
        ghost var before := state;
        state := state[i := x];
        var spliced := state[i];
        state := state[..i] + state[i + 1..];
        assert state == WithoutAt(before, i);
        state := [spliced] + state;
      } else {
        state := [x] + state;
      }
    }

    method DeleteTicket(id: nat)
      modifies this
      ensures state == Removed(old(state), id) && TakenOut(old(state), id, state)
    {
      OnlyPlace(state, id);
      var i := FindIndex(state, id);
      if i < |state| {
        state := state[..i] + state[i + 1..];
      }
    }
  }

  /* ---- The event filters ---- */

  /** The props of the list: its status, the user, the chosen queues and the switches. */
  datatype Tab = Tab(status: Status, searching: bool, showAll: bool, user: Option<nat>, queues: set<nat>)

  predicate LeftThisTab(tab: Tab, t: Ticket) { t.status != tab.status }

  predicate NotBelongsToUserQueues(tab: Tab, t: Ticket) {
    t.queue.Some? && t.queue.value !in tab.queues
  }

  predicate ShouldUpdate(tab: Tab, t: Ticket) {
    && !tab.searching && t.status == tab.status
    && (t.user.None? || t.user == tab.user || tab.showAll)
    && !NotBelongsToUserQueues(tab, t)
  }

  /** What the tab's listeners do with one payload. */
  function OnPayload(tab: Tab, s: seq<Shown>, p: Payload): seq<Shown> {
    match p
    case Created(_, _) => s
    case Updated(id, t) =>
      var shown := if ShouldUpdate(tab, t) then Upserted(s, Shown(id, t)) else s;
      if NotBelongsToUserQueues(tab, t) || LeftThisTab(tab, t) then Removed(shown, id) else shown
    case Deleted(id) => Removed(s, id)
    case MessageCreated(id, t) => if ShouldUpdate(tab, t) then Raised(s, Shown(id, t)) else s
  }

  /** The frames of the channels the browser hears, in order. */
  function Received(tab: Tab, heard: set<Channel>, s: seq<Shown>, frames: seq<Frame>): seq<Shown> {
    if frames == [] then s
    else
      var before := Received(tab, heard, s, frames[..|frames| - 1]);
      var f := frames[|frames| - 1];
      if f.channel in heard then OnPayload(tab, before, f.payload) else before
  }

  /* ---- What each change does to the set of tickets shown ---- */

  ghost predicate Distinct(s: seq<Shown>) {
    forall i, j :: 0 <= i < j < |s| ==> s[i].id != s[j].id
  }

  /** Everything but id is as it was. */
  ghost predicate SameBut(s: seq<Shown>, t: seq<Shown>, id: nat) {
    forall x: Shown | x.id != id :: x in s <==> x in t
  }

  ghost predicate Hides(s: seq<Shown>, id: nat) { forall x | x in s :: x.id != id }

  lemma WithoutAtMeans(s: seq<Shown>, i: nat)
    requires Distinct(s) && i < |s|
    ensures var t := WithoutAt(s, i);
            Distinct(t) && SameBut(s, t, s[i].id) && Hides(t, s[i].id)
  {
    var t := WithoutAt(s, i);
    assert forall k :: 0 <= k < |t| ==> t[k] == if k < i then s[k] else s[k + 1];
    forall x | x in s && x.id != s[i].id ensures x in t {
      var k :| 0 <= k < |s| && s[k] == x;
      assert t[if k < i then k else k - 1] == x;
    }
  }

  lemma RemovedMeans(s: seq<Shown>, id: nat)
    requires Distinct(s)
    ensures Distinct(Removed(s, id)) && SameBut(s, Removed(s, id), id) && Hides(Removed(s, id), id)
  {
    FindIndexFinds(s, id);
    if FindIndex(s, id) < |s| {
      WithoutAtMeans(s, FindIndex(s, id));
    }
  }

  lemma PrependMeans(s: seq<Shown>, x: Shown)
    requires Distinct(s) && Hides(s, x.id)
    ensures Distinct([x] + s) && SameBut(s, [x] + s, x.id)
    ensures forall y | y in [x] + s && y.id == x.id :: y == x
  {
    assert forall k :: 0 <= k < |s| ==> s[k] in s;
  }

  lemma RaisedMeans(s: seq<Shown>, x: Shown)
    requires Distinct(s)
    ensures Distinct(Raised(s, x)) && SameBut(s, Raised(s, x), x.id)
    ensures forall y | y in Raised(s, x) && y.id == x.id :: y == x
  {
    RemovedMeans(s, x.id);
    FindIndexFinds(s, x.id);
    PrependMeans(Removed(s, x.id), x);
  }

  lemma ReplacedMeans(s: seq<Shown>, x: Shown)
    requires Distinct(s) && FindIndex(s, x.id) < |s|
    ensures var t := s[FindIndex(s, x.id) := x];
            && Distinct(t) && SameBut(s, t, x.id)
            && forall y | y in t && y.id == x.id :: y == x
  {
    FindIndexFinds(s, x.id);
    var i := FindIndex(s, x.id);
    var t := s[i := x];
    assert forall k :: 0 <= k < |s| && k != i ==> t[k] == s[k];
    assert t[i] == x;
  }

  lemma UpdatedMeans(s: seq<Shown>, x: Shown)
    requires Distinct(s)
    ensures Distinct(Upserted(s, x)) && SameBut(s, Upserted(s, x), x.id)
    ensures forall y | y in Upserted(s, x) && y.id == x.id :: y == x
  {
    FindIndexFinds(s, x.id);
    if FindIndex(s, x.id) < |s| {
      ReplacedMeans(s, x);
    } else {
      assert Hides(s, x.id);
      PrependMeans(s, x);
    }
  }

  lemma LoadedOneMeans(s: seq<Shown>, x: Shown)
    requires Distinct(s)
    ensures Distinct(LoadedOne(s, x)) && SameBut(s, LoadedOne(s, x), x.id)
    ensures forall y | y in LoadedOne(s, x) && y.id == x.id :: y == x
    ensures x in LoadedOne(s, x)
  {
    FindIndexFinds(s, x.id);
    if FindIndex(s, x.id) == |s| {
      assert forall k :: 0 <= k < |s| ==> (s + [x])[k] == s[k];
    } else if x.ticket.unread > 0 {
      RaisedMeans(s, x);
    } else {
      ReplacedMeans(s, x);
      assert LoadedOne(s, x)[FindIndex(s, x.id)] == x;
    }
  }

  /* ---- Frames about one ticket ---- */

  /** The tab would show every ticket of its status: nobody else's is filtered out. */
  predicate Unfiltered(tab: Tab) { tab.showAll && !tab.searching }

  /** The list is right about one stored ticket: shown only in its own tab, and, when the tab
      filters nothing out, in its stored version. */
  ghost predicate RightAbout(tab: Tab, s: seq<Shown>, id: nat, t: Ticket) {
    forall x | x in s && x.id == id :: t.status == tab.status && (Unfiltered(tab) ==> x.ticket == t)
  }

  /** Only stored tickets of its status, and only their stored versions when unfiltered. */
  ghost predicate Replica(tab: Tab, s: seq<Shown>, rows: Rows) {
    && Distinct(s)
    && forall x | x in s :: x.id in rows && rows[x.id].status == tab.status
                            && (Unfiltered(tab) ==> x.ticket == rows[x.id])
  }

  lemma PayloadMeans(tab: Tab, s: seq<Shown>, p: Payload)
    requires Distinct(s)
    ensures var u := OnPayload(tab, s, p);
            && Distinct(u) && SameBut(s, u, p.id)
            && (p.Updated? ==> RightAbout(tab, u, p.id, p.ticket))
            && (p.Deleted? ==> Hides(u, p.id))
            && (p.MessageCreated? && RightAbout(tab, s, p.id, p.ticket) ==>
                  RightAbout(tab, u, p.id, p.ticket))
            && (p.Created? ==> u == s)
  {
    match p {
      case Created(_, _) =>
      case Updated(id, t) =>
        UpdatedMeans(s, Shown(id, t));
        RemovedMeans(s, id);
        RemovedMeans(Upserted(s, Shown(id, t)), id);
        if !ShouldUpdate(tab, t) && !NotBelongsToUserQueues(tab, t) && !LeftThisTab(tab, t) {
          assert !Unfiltered(tab);
        }
      case Deleted(id) => RemovedMeans(s, id);
      case MessageCreated(id, t) => RaisedMeans(s, Shown(id, t));
    }
  }

  /** All frames carry this payload, as those of one emit do. */
  ghost predicate AllCarry(frames: seq<Frame>, p: Payload) {
    forall i :: 0 <= i < |frames| ==> frames[i].payload == p
  }

  ghost predicate AnyHeard(frames: seq<Frame>, heard: set<Channel>) {
    exists i :: 0 <= i < |frames| && frames[i].channel in heard
  }

  lemma AnyHeardSnoc(frames: seq<Frame>, heard: set<Channel>)
    requires frames != []
    ensures var n := |frames| - 1;
            AnyHeard(frames, heard) <==> AnyHeard(frames[..n], heard) || frames[n].channel in heard
  {
    var n := |frames| - 1;
    assert frames == frames[..n] + [frames[n]];
    if AnyHeard(frames[..n], heard) {
      var i :| 0 <= i < n && frames[..n][i].channel in heard;
      assert frames[i].channel in heard;
    }
    if AnyHeard(frames, heard) && frames[n].channel !in heard {
      var i :| 0 <= i < |frames| && frames[i].channel in heard;
      assert frames[..n][i].channel in heard;
    }
  }

  /** The frames of one emit, heard or not. */
  lemma {:induction false} EmitMeans(tab: Tab, heard: set<Channel>, s: seq<Shown>, frames: seq<Frame>, p: Payload)
    requires Distinct(s) && AllCarry(frames, p)
    ensures var u := Received(tab, heard, s, frames);
            && Distinct(u) && SameBut(s, u, p.id)
            && (!AnyHeard(frames, heard) ==> u == s)
            && (p.Updated? && (AnyHeard(frames, heard) || RightAbout(tab, s, p.id, p.ticket)) ==>
                  RightAbout(tab, u, p.id, p.ticket))
            && (p.Deleted? && (AnyHeard(frames, heard) || Hides(s, p.id)) ==> Hides(u, p.id))
            && (p.MessageCreated? && RightAbout(tab, s, p.id, p.ticket) ==>
                  RightAbout(tab, u, p.id, p.ticket))
            && (p.Created? ==> u == s)
  {
    if frames == [] {
    } else {
      var n := |frames| - 1;
      var before := Received(tab, heard, s, frames[..n]);
      EmitMeans(tab, heard, s, frames[..n], p);
      assert frames[n].payload == p;
      PayloadMeans(tab, before, p);
      assert AnyHeard(frames[..n], heard) ==> AnyHeard(frames, heard) by {
        if i :| 0 <= i < n && frames[..n][i].channel in heard { assert frames[i].channel in heard; }
      }
      assert frames[n].channel in heard ==> AnyHeard(frames, heard);
    }
  }

  /* ---- One operation on the table ---- */

  lemma SameButRest(tab: Tab, s: seq<Shown>, u: seq<Shown>, rows: Rows, after: Rows, id: nat)
    requires Replica(tab, s, rows) && Distinct(u) && SameBut(s, u, id)
    requires after - {id} == rows - {id}
    requires if id in after then RightAbout(tab, u, id, after[id]) else Hides(u, id)
    ensures Replica(tab, u, after)
  {
    forall x | x in u ensures x.id in after && after[x.id].status == tab.status
                              && (Unfiltered(tab) ==> x.ticket == after[x.id])
    {
      if x.id != id {
        assert x in s && x.id in rows - {id};
        assert (after - {id})[x.id] == (rows - {id})[x.id];
      }
    }
  }

  /** One row changes and its update is emitted, from the status it had. */
  lemma UpdateKeepsReplica(tab: Tab, heard: set<Channel>, s: seq<Shown>, rows: Rows, id: nat, t: Ticket)
    requires Replica(tab, s, rows) && StatusChannel(tab.status) in heard && id in rows
    ensures Replica(tab, Received(tab, heard, s, EmitUpdate(id, t, rows[id].status)), rows[id := t])
  {
    var frames, p := EmitUpdate(id, t, rows[id].status), Payload.Updated(id, t);
    assert AllCarry(frames, p);
    EmitMeans(tab, heard, s, frames, p);
    assert frames[0].channel == StatusChannel(rows[id].status);
    if rows[id].status == tab.status {
      assert AnyHeard(frames, heard);
    } else {
      assert Hides(s, id);
    }
    SameButRest(tab, s, Received(tab, heard, s, frames), rows, rows[id := t], id);
  }

  lemma DeleteKeepsReplica(tab: Tab, heard: set<Channel>, s: seq<Shown>, rows: Rows, id: nat)
    requires Replica(tab, s, rows) && StatusChannel(tab.status) in heard && id in rows
    ensures Replica(tab, Received(tab, heard, s, EmitDelete(id, rows[id])), rows - {id})
  {
    var frames, p := EmitDelete(id, rows[id]), Payload.Deleted(id);
    assert AllCarry(frames, p);
    EmitMeans(tab, heard, s, frames, p);
    assert frames[0].channel == StatusChannel(rows[id].status);
    if rows[id].status == tab.status {
      assert AnyHeard(frames, heard);
    } else {
      assert Hides(s, id);
    }
    SameButRest(tab, s, Received(tab, heard, s, frames), rows, rows - {id}, id);
  }

  lemma CreateKeepsReplica(tab: Tab, heard: set<Channel>, s: seq<Shown>, rows: Rows, id: nat, t: Ticket)
    requires Replica(tab, s, rows) && id !in rows
    ensures Replica(tab, Received(tab, heard, s, EmitCreate(id, t)), rows[id := t])
  {
    var frames, p := EmitCreate(id, t), Payload.Created(id, t);
    assert AllCarry(frames, p);
    EmitMeans(tab, heard, s, frames, p);
  }

  lemma OpKeepsReplica(tab: Tab, heard: set<Channel>, s: seq<Shown>, w: World, op: Op, now: int)
    requires WellFormed(w) && w.now <= now
    requires Replica(tab, s, w.rows) && StatusChannel(tab.status) in heard
    ensures var (rows, frames) := Effect(w.rows, w.nextId, op, now);
            Replica(tab, Received(tab, heard, s, frames), rows)
  {
    var (rows, frames) := Effect(w.rows, w.nextId, op, now);
    match op {
      case FindOrCreate(contact, whatsapp, isGroup, unread) =>
        FindOrCreateDecides(w, contact, whatsapp, isGroup, unread, now);
        var o := FoundOrCreated(w.rows, w.nextId, contact, whatsapp, isGroup, unread, now);
        if o.action == WasCreated {
          CreateKeepsReplica(tab, heard, s, w.rows, o.id, o.rows[o.id]);
        } else {
          UpdateKeepsReplica(tab, heard, s, w.rows, o.id, o.rows[o.id]);
        }
      case Update(id, data, actor, queues) =>
        var r := UpdateResult(w.rows, id, data, actor, queues, now);
        if r.Ok? {
          if Nothing(ChangesOf(w.rows[id], data, actor)) {
            assert w.rows[id := r.value] == w.rows;
          } else {
            UpdateKeepsReplica(tab, heard, s, w.rows, id, r.value);
          }
        }
      case Remove(id, actor) =>
        if actor.admin && id in w.rows { DeleteKeepsReplica(tab, heard, s, w.rows, id); }
      case _ =>
        if op.id in w.rows { UpdateKeepsReplica(tab, heard, s, w.rows, op.id, rows[op.id]); }
    }
  }

  /* ---- Runs ---- */

  /** An operation on the table, a message for a ticket, or a page that the server answers. */
  datatype TabEvent = Operate(e: Event) | MessageFor(id: nat) | LoadPage(page: seq<Shown>)

  datatype Screen = Screen(w: World, s: seq<Shown>)

  /**
   A page that comes late may hold tickets that have changed since it was answered, as long as they
   still are in the tab; a tab that filters nothing needs their stored versions.
   */
  ghost predicate FitsTab(tab: Tab, rows: Rows, page: seq<Shown>) {
    forall x | x in page :: x.id in rows && rows[x.id].status == tab.status
                            && (Unfiltered(tab) ==> x.ticket == rows[x.id])
  }

  ghost predicate Allowed(tab: Tab, v: Screen, e: TabEvent) {
    e.LoadPage? ==> FitsTab(tab, v.w.rows, e.page)
  }

  ghost function Next(tab: Tab, heard: set<Channel>, v: Screen, e: TabEvent): Screen {
    match e
    case Operate(op) =>
      var (_, frames) := Effect(v.w.rows, v.w.nextId, op.op, v.w.now + op.elapsed);
      Screen(Step(v.w, op), Received(tab, heard, v.s, frames))
    case MessageFor(id) =>
      if id !in v.w.rows then v
      else
        var p := MessageCreated(id, v.w.rows[id]);
        v.(s := Received(tab, heard, v.s, [Frame(TicketChannel(id), p), Frame(Notification, p)]))
    case LoadPage(page) => v.(s := Loaded(v.s, page))
  }

  ghost predicate AllowedRun(tab: Tab, heard: set<Channel>, v: Screen, run: seq<TabEvent>)
    decreases |run|
  {
    run == [] || (Allowed(tab, v, run[0]) && AllowedRun(tab, heard, Next(tab, heard, v, run[0]), run[1..]))
  }

  ghost function RunTab(tab: Tab, heard: set<Channel>, v: Screen, run: seq<TabEvent>): Screen
    decreases |run|
  {
    if run == [] then v else RunTab(tab, heard, Next(tab, heard, v, run[0]), run[1..])
  }

  lemma {:induction false} LoadKeepsReplica(tab: Tab, s: seq<Shown>, rows: Rows, page: seq<Shown>)
    requires Replica(tab, s, rows)
    requires FitsTab(tab, rows, page)
    ensures Replica(tab, Loaded(s, page), rows)
  {
    if page == [] {
    } else {
      var n := |page| - 1;
      var before, x := Loaded(s, page[..n]), page[n];
      assert forall y | y in page[..n] :: y in page;
      LoadKeepsReplica(tab, s, rows, page[..n]);
      LoadedOneMeans(before, x);
      assert x in page;
      SameButRest(tab, before, LoadedOne(before, x), rows, rows, x.id);
    }
  }

  lemma {:induction false} LoadedIsDistinct(s: seq<Shown>, page: seq<Shown>)
    requires Distinct(s)
    ensures Distinct(Loaded(s, page))
    decreases |page|
  {
    if page == [] {
    } else {
      LoadedIsDistinct(s, page[..|page| - 1]);
      LoadedOneMeans(Loaded(s, page[..|page| - 1]), page[|page| - 1]);
    }
  }

  lemma {:induction false} PageIsShown(s: seq<Shown>, page: seq<Shown>, x: Shown)
    requires Distinct(s) && Distinct(page) && x in page
    ensures x in Loaded(s, page) && Distinct(Loaded(s, page))
    decreases |page|
  {
    var n := |page| - 1;
    assert page == page[..n] + [page[n]];
    LoadedIsDistinct(s, page[..n]);
    LoadedOneMeans(Loaded(s, page[..n]), page[n]);
    if x == page[n] {
    } else {
      PageIsShown(s, page[..n], x);
    }
  }

  /** Exactly which pages, however late, keep the tab a replica. */
  lemma LoadKeepsReplicaIff(tab: Tab, s: seq<Shown>, rows: Rows, page: seq<Shown>)
    requires Replica(tab, s, rows) && Distinct(page)
    ensures Replica(tab, Loaded(s, page), rows) <==> FitsTab(tab, rows, page)
  {
    if FitsTab(tab, rows, page) {
      LoadKeepsReplica(tab, s, rows, page);
    }
    if Replica(tab, Loaded(s, page), rows) {
      forall x | x in page ensures x in Loaded(s, page) {
        PageIsShown(s, page, x);
      }
    }
  }

  lemma MessageKeepsReplica(tab: Tab, heard: set<Channel>, s: seq<Shown>, rows: Rows, id: nat)
    requires Replica(tab, s, rows) && id in rows
    ensures var p := MessageCreated(id, rows[id]);
            Replica(tab, Received(tab, heard, s, [Frame(TicketChannel(id), p), Frame(Notification, p)]), rows)
  {
    var p := MessageCreated(id, rows[id]);
    var frames := [Frame(TicketChannel(id), p), Frame(Notification, p)];
    assert AllCarry(frames, p);
    EmitMeans(tab, heard, s, frames, p);
    SameButRest(tab, s, Received(tab, heard, s, frames), rows, rows, id);
  }

  lemma NextKeepsReplica(tab: Tab, heard: set<Channel>, v: Screen, e: TabEvent)
    requires WellFormed(v.w) && Replica(tab, v.s, v.w.rows) && StatusChannel(tab.status) in heard
    requires Allowed(tab, v, e)
    ensures WellFormed(Next(tab, heard, v, e).w)
    ensures Replica(tab, Next(tab, heard, v, e).s, Next(tab, heard, v, e).w.rows)
  {
    hide Replica, WellFormed, Received, Effect, Loaded;
    match e {
      case Operate(op) =>
        OpKeepsReplica(tab, heard, v.s, v.w, op.op, v.w.now + op.elapsed);
        StepKeepsWellFormed(v.w, op);
      case MessageFor(id) =>
        if id in v.w.rows { MessageKeepsReplica(tab, heard, v.s, v.w.rows, id); }
      case LoadPage(page) => LoadKeepsReplica(tab, v.s, v.w.rows, page);
    }
  }

  /**
   The main theorem: whatever channels the browser hears besides the tab's own, after every run of
   table operations, messages and page loads the tab shows each ticket once, only tickets whose
   stored status is the tab's, and, when it filters nobody's tickets out, exactly their stored rows.
   */
  lemma {:induction false} TabIsReplica(tab: Tab, heard: set<Channel>, v: Screen, run: seq<TabEvent>)
    requires WellFormed(v.w) && Replica(tab, v.s, v.w.rows) && StatusChannel(tab.status) in heard
    requires AllowedRun(tab, heard, v, run)
    ensures var u := RunTab(tab, heard, v, run);
            && Distinct(u.s)
            && forall x | x in u.s :: x.id in u.w.rows && u.w.rows[x.id].status == tab.status
                                      && (tab.showAll && !tab.searching ==> x.ticket == u.w.rows[x.id])
    decreases |run|
  {
    if run == [] {
    } else {
      NextKeepsReplica(tab, heard, v, run[0]);
      TabIsReplica(tab, heard, Next(tab, heard, v, run[0]), run[1..]);
    }
  }

  /* ---- What is shown, and where ---- */

  /** The tab takes this version in: of its status, of its queues, and somebody's whom it shows. */
  predicate Fits(tab: Tab, t: Ticket) {
    && !tab.searching && t.status == tab.status
    && (t.user.None? || t.user == tab.user || tab.showAll)
    && (t.queue.None? || t.queue.value in tab.queues)
  }

  /** The ticket has left the tab, by its status or its queue. */
  predicate Leaves(tab: Tab, t: Ticket) {
    t.status != tab.status || (t.queue.Some? && t.queue.value !in tab.queues)
  }

  /** What one heard payload does to the list, said without the reducer. */
  ghost predicate Listens(tab: Tab, s: seq<Shown>, p: Payload, u: seq<Shown>) {
    match p
    case Created(_, _) => u == s
    case Updated(id, t) =>
      if Fits(tab, t) then InPlace(s, Shown(id, t), u)
      else if Leaves(tab, t) then TakenOut(s, id, u) else u == s
    case Deleted(id) => TakenOut(s, id, u)
    case MessageCreated(id, t) => if Fits(tab, t) then InFront(s, Shown(id, t), u) else u == s
  }

  lemma PayloadListens(tab: Tab, s: seq<Shown>, p: Payload)
    requires Distinct(s)
    ensures Listens(tab, s, p, OnPayload(tab, s, p))
  {
    OnlyPlace(s, p.id);
    hide FindIndex, Distinct;
  }

  lemma OnPayloadDistinct(tab: Tab, s: seq<Shown>, p: Payload)
    requires Distinct(s)
    ensures Distinct(OnPayload(tab, s, p))
  {
    PayloadMeans(tab, s, p);
  }

  lemma FindInFront(s: seq<Shown>, x: Shown)
    ensures FindIndex([x] + s, x.id) == 0
  {
  }

  lemma FindAfterUpdate(s: seq<Shown>, x: Shown)
    requires Distinct(s)
    ensures FindIndex(Upserted(s, x), x.id) < |Upserted(s, x)|
    ensures Upserted(s, x)[FindIndex(Upserted(s, x), x.id)] == x
  {
    UpdatedMeans(s, x);
    FindIndexFinds(s, x.id);
    var u := Upserted(s, x);
    FindIndexFinds(u, x.id);
    if FindIndex(s, x.id) < |s| {
      assert u[FindIndex(s, x.id)] == x;
    } else {
      assert u[0] == x;
    }
  }

  lemma FindAfterRemoval(s: seq<Shown>, id: nat)
    requires Distinct(s)
    ensures FindIndex(Removed(s, id), id) == |Removed(s, id)|
  {
    RemovedMeans(s, id);
    FindIndexFinds(Removed(s, id), id);
  }

  /** Hearing the same payload twice is hearing it once. */
  lemma HearingTwice(tab: Tab, s: seq<Shown>, p: Payload)
    requires Distinct(s)
    ensures OnPayload(tab, OnPayload(tab, s, p), p) == OnPayload(tab, s, p)
  {
    match p {
      case Created(_, _) =>
      case Updated(id, t) =>
        FindAfterUpdate(s, Shown(id, t));
        FindAfterRemoval(s, id);
      case Deleted(id) => FindAfterRemoval(s, id);
      case MessageCreated(id, t) =>
        FindInFront(s, Shown(id, t));
        FindIndexFinds(s, id);
        if FindIndex(s, id) < |s| {
          FindInFront(WithoutAt(s, FindIndex(s, id)), Shown(id, t));
        }
    }
  }

  lemma {:induction false} HearingSome(tab: Tab, heard: set<Channel>, s: seq<Shown>, frames: seq<Frame>, p: Payload)
    requires Distinct(s) && AllCarry(frames, p)
    ensures Received(tab, heard, s, frames) == if AnyHeard(frames, heard) then OnPayload(tab, s, p) else s
  {
    if frames == [] {
    } else {
      var n := |frames| - 1;
      HearingSome(tab, heard, s, frames[..n], p);
      AnyHeardSnoc(frames, heard);
      assert frames[n].payload == p;
      HearingTwice(tab, s, p);
      hide OnPayload;
    }
  }

  /**
   The frames of one emit, if any is heard: a version that fits is shown, at its old place or first;
   a ticket that has left or is deleted goes; one with a new message comes first if it fits. All
   other tickets stay where they are.
   */
  lemma HeardFramesPlace(tab: Tab, heard: set<Channel>, s: seq<Shown>, frames: seq<Frame>, p: Payload)
    requires Distinct(s) && AllCarry(frames, p) && AnyHeard(frames, heard)
    ensures Listens(tab, s, p, Received(tab, heard, s, frames))
  {
    HearingSome(tab, heard, s, frames, p);
    PayloadListens(tab, s, p);
    hide *;
  }

  /* ---- All that is due is shown ---- */

  /** The last version of each ticket that was loaded or heard as fitting, until it leaves. */
  type Due = map<nat, Ticket>

  function DueAfter(tab: Tab, due: Due, p: Payload): Due {
    match p
    case Created(_, _) => due
    case Updated(id, t) => if Fits(tab, t) then due[id := t] else if Leaves(tab, t) then due - {id} else due
    case Deleted(id) => due - {id}
    case MessageCreated(id, t) => if Fits(tab, t) then due[id := t] else due
  }

  function DueFrames(tab: Tab, heard: set<Channel>, due: Due, frames: seq<Frame>): Due {
    if frames == [] then due
    else
      var before, f := DueFrames(tab, heard, due, frames[..|frames| - 1]), frames[|frames| - 1];
      if f.channel in heard then DueAfter(tab, before, f.payload) else before
  }

  function DuePage(due: Due, page: seq<Shown>): Due {
    if page == [] then due
    else DuePage(due, page[..|page| - 1])[page[|page| - 1].id := page[|page| - 1].ticket]
  }

  ghost function DueNext(tab: Tab, heard: set<Channel>, w: World, due: Due, e: TabEvent): Due {
    match e
    case Operate(op) =>
      DueFrames(tab, heard, due, Effect(w.rows, w.nextId, op.op, w.now + op.elapsed).1)
    case MessageFor(id) =>
      if id !in w.rows then due
      else
        var p := MessageCreated(id, w.rows[id]);
        DueFrames(tab, heard, due, [Frame(TicketChannel(id), p), Frame(Notification, p)])
    case LoadPage(page) => DuePage(due, page)
  }

  ghost function DueRun(tab: Tab, heard: set<Channel>, v: Screen, due: Due, run: seq<TabEvent>): Due
    decreases |run|
  {
    if run == [] then due
    else DueRun(tab, heard, Next(tab, heard, v, run[0]), DueNext(tab, heard, v.w, due, run[0]), run[1..])
  }

  /** The list shows exactly what is due, each ticket once. */
  ghost predicate ShowsDue(s: seq<Shown>, due: Due) {
    Distinct(s) && forall x: Shown :: x in s <==> x.id in due && due[x.id] == x.ticket
  }

  lemma PutKeepsDue(s: seq<Shown>, u: seq<Shown>, due: Due, x: Shown)
    requires ShowsDue(s, due) && Distinct(u) && SameBut(s, u, x.id) && x in u
    requires forall y | y in u && y.id == x.id :: y == x
    ensures ShowsDue(u, due[x.id := x.ticket])
  {
    forall y: Shown ensures y in u <==> y.id in due[x.id := x.ticket] && due[x.id := x.ticket][y.id] == y.ticket {
      if y.id != x.id {
        assert y in u <==> y in s;
      }
    }
  }

  lemma HideKeepsDue(s: seq<Shown>, u: seq<Shown>, due: Due, id: nat)
    requires ShowsDue(s, due) && Distinct(u) && SameBut(s, u, id) && Hides(u, id)
    ensures ShowsDue(u, due - {id})
  {
    forall y: Shown ensures y in u <==> y.id in due - {id} && (due - {id})[y.id] == y.ticket {
      if y.id != id {
        assert y in u <==> y in s;
      }
    }
  }

  lemma UpsertedShows(s: seq<Shown>, x: Shown)
    requires Distinct(s)
    ensures x in Upserted(s, x) && x in Raised(s, x)
  {
    FindAfterUpdate(s, x);
    assert Raised(s, x)[0] == x;
  }

  lemma DueIsDistinct(s: seq<Shown>, due: Due)
    requires ShowsDue(s, due)
    ensures Distinct(s)
  {
  }

  lemma PayloadKeepsDue(tab: Tab, s: seq<Shown>, due: Due, p: Payload)
    requires ShowsDue(s, due)
    ensures ShowsDue(OnPayload(tab, s, p), DueAfter(tab, due, p))
  {
    match p {
      case Created(_, _) =>
      case Updated(id, t) =>
        var x := Shown(id, t);
        UpdatedMeans(s, x);
        UpsertedShows(s, x);
        RemovedMeans(s, id);
        hide Upserted, Removed, ShowsDue, SameBut, Hides, Distinct;
        if Fits(tab, t) {
          DueIsDistinct(s, due);
          PutKeepsDue(s, Upserted(s, x), due, x);
        } else if Leaves(tab, t) {
          HideKeepsDue(s, Removed(s, id), due, id);
        }
      case Deleted(id) =>
        RemovedMeans(s, id);
        HideKeepsDue(s, Removed(s, id), due, id);
      case MessageCreated(id, t) =>
        var x := Shown(id, t);
        RaisedMeans(s, x);
        UpsertedShows(s, x);
        if Fits(tab, t) {
          PutKeepsDue(s, Raised(s, x), due, x);
        }
    }
  }

  lemma {:induction false} FramesKeepDue(tab: Tab, heard: set<Channel>, s: seq<Shown>, due: Due, frames: seq<Frame>)
    requires ShowsDue(s, due)
    ensures ShowsDue(Received(tab, heard, s, frames), DueFrames(tab, heard, due, frames))
    decreases |frames|
  {
    if frames == [] {
    } else {
      hide ShowsDue, OnPayload, DueAfter;
      var n := |frames| - 1;
      FramesKeepDue(tab, heard, s, due, frames[..n]);
      PayloadKeepsDue(tab, Received(tab, heard, s, frames[..n]), DueFrames(tab, heard, due, frames[..n]),
                      frames[n].payload);
    }
  }

  lemma {:induction false} PageKeepsDue(s: seq<Shown>, due: Due, page: seq<Shown>)
    requires ShowsDue(s, due)
    ensures ShowsDue(Loaded(s, page), DuePage(due, page))
    decreases |page|
  {
    if page == [] {
    } else {
      var n := |page| - 1;
      var before := Loaded(s, page[..n]);
      PageKeepsDue(s, due, page[..n]);
      LoadedOneMeans(before, page[n]);
      hide LoadedOne;
      PutKeepsDue(before, LoadedOne(before, page[n]), DuePage(due, page[..n]), page[n]);
    }
  }

  lemma NextKeepsDue(tab: Tab, heard: set<Channel>, v: Screen, due: Due, e: TabEvent)
    requires ShowsDue(v.s, due)
    ensures ShowsDue(Next(tab, heard, v, e).s, DueNext(tab, heard, v.w, due, e))
  {
    hide ShowsDue, Received, DueFrames, Loaded, DuePage, Effect, Step;
    match e {
      case Operate(op) =>
        FramesKeepDue(tab, heard, v.s, due, Effect(v.w.rows, v.w.nextId, op.op, v.w.now + op.elapsed).1);
      case MessageFor(id) =>
        if id in v.w.rows {
          var p := MessageCreated(id, v.w.rows[id]);
          FramesKeepDue(tab, heard, v.s, due, [Frame(TicketChannel(id), p), Frame(Notification, p)]);
        }
      case LoadPage(page) => PageKeepsDue(v.s, due, page);
    }
  }

  /**
   The other half of the replica, over every run of operations, messages and pages of any age: the
   tab shows exactly the tickets that were last loaded or heard as fitting and have not left since,
   each once and in that version. None is missing.
   */
  lemma {:induction false} TabShowsAllThatIsDue(tab: Tab, heard: set<Channel>, v: Screen, due: Due, run: seq<TabEvent>)
    requires ShowsDue(v.s, due)
    ensures ShowsDue(RunTab(tab, heard, v, run).s, DueRun(tab, heard, v, due, run))
    decreases |run|
  {
    if run == [] {
    } else {
      hide ShowsDue, Next, DueNext;
      var e := run[0];
      NextKeepsDue(tab, heard, v, due, e);
      TabShowsAllThatIsDue(tab, heard, Next(tab, heard, v, e), DueNext(tab, heard, v.w, due, e), run[1..]);
    }
  }

  /* ---- When a tab shows old versions ---- */

  /** An update the tab neither takes over nor drops the ticket for. */
  predicate Ignores(tab: Tab, t: Ticket) {
    t.status == tab.status && !NotBelongsToUserQueues(tab, t) && !ShouldUpdate(tab, t)
  }

  lemma PayloadLeavesStaleIff(tab: Tab, s: seq<Shown>, id: nat, prev: Ticket, t: Ticket)
    requires Distinct(s) && prev != t
    ensures Shown(id, prev) in OnPayload(tab, s, Payload.Updated(id, t))
            <==> Shown(id, prev) in s && Ignores(tab, t)
  {
    UpdatedMeans(s, Shown(id, t));
    RemovedMeans(s, id);
    RemovedMeans(Upserted(s, Shown(id, t)), id);
  }

  /**
   Exactly when an old version survives the frames of an update: the tab hears none of them or
   ignores what they carry.
   */
  lemma {:induction false} UpdateLeavesStaleIff(tab: Tab, heard: set<Channel>, s: seq<Shown>, frames: seq<Frame>,
                                                id: nat, prev: Ticket, t: Ticket)
    requires Distinct(s) && prev != t && AllCarry(frames, Payload.Updated(id, t))
    ensures Shown(id, prev) in Received(tab, heard, s, frames)
            <==> Shown(id, prev) in s && (Ignores(tab, t) || !AnyHeard(frames, heard))
  {
    if frames == [] {
    } else {
      var n := |frames| - 1;
      var before := Received(tab, heard, s, frames[..n]);
      EmitMeans(tab, heard, s, frames[..n], Payload.Updated(id, t));
      UpdateLeavesStaleIff(tab, heard, s, frames[..n], id, prev, t);
      assert frames[n].payload == Payload.Updated(id, t);
      PayloadLeavesStaleIff(tab, before, id, prev, t);
      AnyHeardSnoc(frames, heard);
    }
  }

  /** Every ticket shown has the tab's status and is shown as it is stored. */
  ghost predicate Faithful(tab: Tab, v: Screen) {
    && WellFormed(v.w) && Distinct(v.s)
    && forall x | x in v.s :: x.id in v.w.rows && x.ticket == v.w.rows[x.id] && x.ticket.status == tab.status
  }

  ghost predicate StaysFaithful(tab: Tab, heard: set<Channel>, v: Screen, op: Event) {
    Faithful(tab, v) ==> Faithful(tab, Next(tab, heard, v, Operate(op)))
  }

  /** A screen with one unassigned ticket, and an operation on it that the tab ignores. */
  lemma IgnoredUpdateGoesStale(tab: Tab, heard: set<Channel>, v: Screen, op: Event, prev: Ticket, t: Ticket)
    requires v.s == [Shown(0, prev)] && prev != t && Ignores(tab, t)
    requires var (rows, frames) := Effect(v.w.rows, v.w.nextId, op.op, v.w.now + op.elapsed);
             0 in rows && rows[0] == t && AllCarry(frames, Payload.Updated(0, t))
    ensures !Faithful(tab, Next(tab, heard, v, Operate(op)))
  {
    hide WellFormed, Received, Effect, Ignores;
    var (rows, frames) := Effect(v.w.rows, v.w.nextId, op.op, v.w.now + op.elapsed);
    assert Shown(0, prev) in v.s;
    UpdateLeavesStaleIff(tab, heard, v.s, frames, 0, prev, t);
    var u := Next(tab, heard, v, Operate(op));
    assert Shown(0, prev) in u.s && u.w.rows == rows;
  }

  /** Every tab that filters goes stale: by any update if it searches, else by a ticket given away. */
  lemma FilteredTabMayBeStale(tab: Tab, heard: set<Channel>)
    requires !Unfiltered(tab)
    ensures exists v, op :: !StaysFaithful(tab, heard, v, op)
  {
    var prev := Ticket(0, 0, tab.status, false, None, None, 0, "", 0, 0);
    var v := Screen(World(map[0 := prev], 1, 0), [Shown(0, prev)]);
    if tab.searching {
      var op, t := Event(1, Op.UpdateLastMessage(0, "")), prev.(updatedAt := 1);
      var frames := EmitUpdate(0, t, prev.status);
      IgnoredUpdateGoesStale(tab, heard, v, op, prev, t);
      assert !StaysFaithful(tab, heard, v, op);
    } else {
      var other := if tab.user == Some(0) then 1 else 0;
      var data := UpdateData(Unset, None, Some(Some(other)), None, None);
      var op, t := Event(1, Op.Update(0, data, Actor(0, true), {})), prev.(user := Some(other), updatedAt := 1);
      IgnoredUpdateGoesStale(tab, heard, v, op, prev, t);
      assert !StaysFaithful(tab, heard, v, op);
    }
  }

  lemma UnfilteredIsFaithful(tab: Tab, v: Screen)
    requires Unfiltered(tab)
    ensures Faithful(tab, v) <==> WellFormed(v.w) && Replica(tab, v.s, v.w.rows)
  {
  }

  /** Exactly which tabs always show stored versions: those that filter nothing out. */
  lemma NeverStaleIffUnfiltered(tab: Tab, heard: set<Channel>)
    requires StatusChannel(tab.status) in heard
    ensures (forall v, op :: StaysFaithful(tab, heard, v, op)) <==> Unfiltered(tab)
  {
    if Unfiltered(tab) {
      forall v, op | Faithful(tab, v) ensures Faithful(tab, Next(tab, heard, v, Operate(op))) {
        UnfilteredIsFaithful(tab, v);
        NextKeepsReplica(tab, heard, v, Operate(op));
        UnfilteredIsFaithful(tab, Next(tab, heard, v, Operate(op)));
      }
    } else {
      FilteredTabMayBeStale(tab, heard);
    }
  }
}
