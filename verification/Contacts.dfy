/**
 Contacts are known by number, by LID or by both. CreateOrUpdate finds what is known under either
 key and inserts, updates or merges in one transaction, on tables with the references and unique
 indexes that the migrations declare. `indexed` says whether the two unique indexes exist.
 */
module Contacts {
  import opened Wrappers
  import opened Text

  datatype Contact = Contact(
    name: string, number: string, lid: string, email: string, picture: string, isGroup: bool)

  /** A message belongs to a ticket, and to a contact unless it was sent from here. */
  datatype MessageRow = MessageRow(ticket: nat, contact: Option<nat>)

  /** tickets and fields give the contact of each ticket and each custom field. */
  datatype Db = Db(
    contacts: map<nat, Contact>, nextId: nat, tickets: map<nat, nat>,
    messages: map<nat, MessageRow>, fields: map<nat, nat>)

  datatype Request = Request(
    number: string, name: string, lid: string, email: string, picture: string, isGroup: bool)

  datatype Error = InvalidNumber | UniqueViolation

  /* ---- Keys ---- */

  function Digits(s: string): string {
    if s == "" then "" else (if '0' <= s[0] <= '9' then [s[0]] else []) + Digits(s[1..])
  }

  function NormalizeNumber(input: string, isGroup: bool): string {
    if isGroup then TrimSpace(input) else Digits(TrimSpace(input))
  }

  function Normalized(req: Request): Request {
    req.(number := NormalizeNumber(req.number, req.isGroup), name := TrimSpace(req.name))
  }

  datatype Key = ByNumber | ByLid

  function KeyOf(c: Contact, key: Key): string {
    match key case ByNumber => c.number case ByLid => c.lid
  }

  /** WHERE column = value, lowest id first; an empty value is never looked up. */
  ghost predicate IsFound(contacts: map<nat, Contact>, key: Key, value: string, r: Option<nat>) {
    match r
    case None => value == "" || forall id :: id in contacts ==> KeyOf(contacts[id], key) != value
    case Some(id) =>
      && value != "" && id in contacts && KeyOf(contacts[id], key) == value
      && forall other :: other in contacts && KeyOf(contacts[other], key) == value ==> id <= other
  }

  lemma FoundIsUnique(contacts: map<nat, Contact>, key: Key, value: string, a: Option<nat>, b: Option<nat>)
    requires IsFound(contacts, key, value, a) && IsFound(contacts, key, value, b)
    ensures a == b
  {
  }

  lemma {:induction false} FoundExists(contacts: map<nat, Contact>, key: Key, value: string)
    returns (r: Option<nat>)
    ensures IsFound(contacts, key, value, r)
    decreases |contacts|
  {
    if contacts == map[] || value == "" {
      return None;
    }
    var id :| id in contacts;
    var rest := contacts - {id};
    assert rest.Keys == contacts.Keys - {id};
    assert forall x :: x in contacts <==> x == id || x in rest;
    r := FoundExists(rest, key, value);
    if KeyOf(contacts[id], key) == value && (r.None? || id < r.value) {
      r := Some(id);
    }
  }

  ghost function Lookup(contacts: map<nat, Contact>, key: Key, value: string): (r: Option<nat>)
    ensures IsFound(contacts, key, value, r)
  {
    assert exists r :: IsFound(contacts, key, value, r) by { var r := FoundExists(contacts, key, value); }
    var r :| IsFound(contacts, key, value, r);
    r
  }

  method FindOneByField(contacts: map<nat, Contact>, key: Key, value: string) returns (r: Option<nat>)
    ensures r == Lookup(contacts, key, value)
  {
    r := None;
    if value == "" {
      return;
    }
    var left := contacts.Keys;
    while left != {}
      invariant left <= contacts.Keys
      invariant r.Some? ==> r.value in contacts && KeyOf(contacts[r.value], key) == value
      invariant forall id :: id in contacts && id !in left && KeyOf(contacts[id], key) == value ==>
                  r.Some? && r.value <= id
      decreases left
    {
      var id :| id in left;
      if KeyOf(contacts[id], key) == value && (r.None? || id < r.value) {
        r := Some(id);
      }
      left := left - {id};
    }
    FoundIsUnique(contacts, key, value, r, Lookup(contacts, key, value));
  }

  /* ---- The tables ---- */

  predicate SharesKey(a: Contact, b: Contact) {
    (a.number != "" && a.number == b.number) || (a.lid != "" && a.lid == b.lid)
  }

  /** What a unique index refuses: a row that shares a key with another row. */
  predicate Violates(contacts: map<nat, Contact>, id: nat, row: Contact) {
    exists other :: other in contacts && other != id && SharesKey(row, contacts[other])
  }

  function Written(db: Db, id: nat, row: Contact, indexed: bool): Result<Db, Error> {
    if indexed && Violates(db.contacts, id, row) then Err(UniqueViolation)
    else Ok(db.(contacts := db.contacts[id := row]))
  }

  /** The two UPDATE statements that move tickets and messages to another contact. */
  function Reassigned(db: Db, from: nat, to: nat): Db {
    db.(tickets := map t | t in db.tickets :: if db.tickets[t] == from then to else db.tickets[t],
        messages := map m | m in db.messages ::
          if db.messages[m].contact == Some(from) then db.messages[m].(contact := Some(to))
          else db.messages[m])
  }

  /** DELETE of a contact cascades to its tickets, messages and custom fields. */
  function Deleted(db: Db, id: nat): Db {
    var tickets := map t | t in db.tickets && db.tickets[t] != id :: db.tickets[t];
    db.(contacts := db.contacts - {id},
        tickets := tickets,
        messages := map m | m in db.messages && db.messages[m].contact != Some(id)
                            && (db.messages[m].ticket in db.tickets ==> db.messages[m].ticket in tickets)
                        :: db.messages[m],
        fields := map f | f in db.fields && db.fields[f] != id :: db.fields[f])
  }

  /* ---- The merge ---- */

  function KeepIfEmpty(existing: string, incoming: string): string {
    if incoming == "" then existing else incoming
  }

  /** The row with what updatesFromReq puts into the update. */
  function Refreshed(c: Contact, req: Request): Contact {
    c.(name := KeepIfEmpty(c.name, req.name), picture := KeepIfEmpty(c.picture, req.picture),
       email := KeepIfEmpty(c.email, req.email))
  }

  /** The row with the key under which it was not found, if the request has one. */
  function Completed(c: Contact, byNumber: Option<nat>, byLid: Option<nat>, req: Request): Contact {
    if byLid.None? then c.(lid := KeepIfEmpty(c.lid, req.lid))
    else if byNumber.None? then c.(number := KeepIfEmpty(c.number, req.number)) else c
  }

  function NewRow(req: Request): Contact {
    Contact(req.name, req.number, req.lid, req.email, req.picture, req.isGroup)
  }

  /** The five cases, given what is known under each key. */
  function Merged(db: Db, byNumber: Option<nat>, byLid: Option<nat>, req: Request, indexed: bool)
    : Result<(Db, nat), Error>
    requires byNumber.Some? ==> byNumber.value in db.contacts
    requires byLid.Some? ==> byLid.value in db.contacts
  {
    if byNumber.None? && byLid.None? then
      match Written(db, db.nextId, NewRow(req), indexed)
      case Ok(d) => Ok((d.(nextId := db.nextId + 1), db.nextId))
      case Err(e) => Err(e)
    else if byNumber.Some? && byLid.Some? && byNumber != byLid then
      var row := Refreshed(db.contacts[byNumber.value], req).(lid := req.lid);
      match Written(Reassigned(db, byLid.value, byNumber.value), byNumber.value, row, indexed)
      case Ok(d) => Ok((Deleted(d, byLid.value), byNumber.value))
      case Err(e) => Err(e)
    else
      var id := if byNumber.Some? then byNumber.value else byLid.value;
      match Written(db, id, Completed(Refreshed(db.contacts[id], req), byNumber, byLid, req), indexed)
      case Ok(d) => Ok((d, id))
      case Err(e) => Err(e)
  }

  /** The whole operation: what it answers, and the tables afterwards. */
  ghost function Requested(db: Db, raw: Request, indexed: bool): (Result<nat, Error>, Db) {
    var req := Normalized(raw);
    if req.number == "" && req.lid == "" then (Err(InvalidNumber), db)
    else
      match Merged(db, Lookup(db.contacts, ByNumber, req.number), Lookup(db.contacts, ByLid, req.lid),
                   req, indexed)
      case Ok((after, id)) => (Ok(id), after)
      case Err(e) => (Err(e), db)
  }

  class Service {
    var db: Db
    const indexed: bool

    constructor (db: Db, indexed: bool)
      ensures this.db == db && this.indexed == indexed
    {
      this.db := db;
      this.indexed := indexed;
    }

    /** One UPDATE or INSERT of a contact row. */
    method Write(id: nat, row: Contact) returns (r: Result<(), Error>)
      modifies this
      ensures match Written(old(db), id, row, indexed)
              case Ok(d) => r == Ok(()) && db == d
              case Err(e) => r == Err(e) && db == old(db)
    {
      if indexed && Violates(db.contacts, id, row) {
        return Err(UniqueViolation);
      }
      db := db.(contacts := db.contacts[id := row]);
      return Ok(());
    }

    method CreateOrUpdate(raw: Request) returns (r: Result<nat, Error>)
      modifies this
      ensures (r, db) == Requested(old(db), raw, indexed)
    {
      var req := Normalized(raw);
      if req.number == "" && req.lid == "" {
        return Err(InvalidNumber);
      }
      var before := db;
      var byNumber := FindOneByField(db.contacts, ByNumber, req.number);
      var byLid := FindOneByField(db.contacts, ByLid, req.lid);
      var written;
      if byNumber.None? && byLid.None? {
        var id := db.nextId;
        written := Write(id, NewRow(req));
        db := if written.Ok? then db.(nextId := id + 1) else db;
        r := Ok(id);
      } else if byNumber.Some? && byLid.Some? && byNumber != byLid {
        db := Reassigned(db, byLid.value, byNumber.value);
        written := Write(byNumber.value, Refreshed(db.contacts[byNumber.value], req).(lid := req.lid));
        db := if written.Ok? then Deleted(db, byLid.value) else db;
        r := Ok(byNumber.value);
      } else {
        var id := if byNumber.Some? then byNumber.value else byLid.value;
        var row := Refreshed(db.contacts[id], req);
        if byLid.None? && req.lid != "" {
          row := row.(lid := req.lid);
        }
        if byNumber.None? && req.number != "" {
          row := row.(number := req.number);
        }
        written := Write(id, row);
        r := Ok(id);
      }
      if written.Err? {
        db := before;
        r := Err(written.error);
      }
    }
  }

  /* ---- What every request keeps ---- */

  ghost predicate UniqueKeys(contacts: map<nat, Contact>) {
    forall i, j :: i in contacts && j in contacts && SharesKey(contacts[i], contacts[j]) ==> i == j
  }

  /** Every reference points to a row, and ids are below the next one. */
  ghost predicate References(db: Db) {
    && (forall id :: id in db.contacts ==> id < db.nextId)
    && (forall t :: t in db.tickets ==> db.tickets[t] in db.contacts)
    && (forall m :: m in db.messages ==>
          && db.messages[m].ticket in db.tickets
          && (db.messages[m].contact.Some? ==> db.messages[m].contact.value in db.contacts))
    && (forall f :: f in db.fields ==> db.fields[f] in db.contacts)
  }

  ghost predicate Sound(db: Db) { UniqueKeys(db.contacts) && References(db) }

  predicate HoldsKeys(c: Contact, req: Request) {
    (req.number != "" ==> c.number == req.number) && (req.lid != "" ==> c.lid == req.lid)
  }

  /** The two keys of a request are known, and belong to different contacts. */
  ghost predicate TwoOwners(contacts: map<nat, Contact>, req: Request) {
    exists n, l :: n in contacts && l in contacts && n != l && req.number != "" && req.lid != ""
                   && contacts[n].number == req.number && contacts[l].lid == req.lid
  }

  lemma OneOwner(db: Db, key: Key, value: string, r: Option<nat>, id: nat)
    requires UniqueKeys(db.contacts) && IsFound(db.contacts, key, value, r)
    requires id in db.contacts && value != "" && KeyOf(db.contacts[id], key) == value
    ensures r == Some(id)
  {
    assert SharesKey(db.contacts[r.value], db.contacts[id]);
  }

  lemma TwoOwnersMeansTwoFound(db: Db, req: Request, n: Option<nat>, l: Option<nat>)
    requires UniqueKeys(db.contacts)
    requires IsFound(db.contacts, ByNumber, req.number, n) && IsFound(db.contacts, ByLid, req.lid, l)
    ensures TwoOwners(db.contacts, req) <==> n.Some? && l.Some? && n != l
  {
    if TwoOwners(db.contacts, req) {
      var i, j :| i in db.contacts && j in db.contacts && i != j && req.number != "" && req.lid != ""
                  && db.contacts[i].number == req.number && db.contacts[j].lid == req.lid;
      OneOwner(db, ByNumber, req.number, n, i);
      OneOwner(db, ByLid, req.lid, l, j);
    }
  }

  /* One request, case by case: first the contacts, then the other tables. */

  lemma InsertKeepsKeys(contacts: map<nat, Contact>, id: nat, row: Contact)
    requires UniqueKeys(contacts) && id !in contacts
    requires IsFound(contacts, ByNumber, row.number, None) && IsFound(contacts, ByLid, row.lid, None)
    ensures !Violates(contacts, id, row) && UniqueKeys(contacts[id := row])
  {
  }

  /** What an update in place may do to the keys: each is kept or set to one that nobody has. */
  predicate FreeKey(contacts: map<nat, Contact>, key: Key, before: string, after: string) {
    after == before || (after != "" && forall id :: id in contacts ==> KeyOf(contacts[id], key) != after)
  }

  lemma UpdateKeepsKeys(contacts: map<nat, Contact>, id: nat, row: Contact)
    requires UniqueKeys(contacts) && id in contacts
    requires FreeKey(contacts, ByNumber, contacts[id].number, row.number)
    requires FreeKey(contacts, ByLid, contacts[id].lid, row.lid)
    ensures !Violates(contacts, id, row) && UniqueKeys(contacts[id := row])
  {
    forall other | other in contacts && other != id
      ensures !SharesKey(row, contacts[other]) && !SharesKey(contacts[other], row)
    {
      assert !SharesKey(contacts[id], contacts[other]);
      assert KeyOf(contacts[other], ByNumber) == contacts[other].number;
      assert KeyOf(contacts[other], ByLid) == contacts[other].lid;
    }
  }

  lemma MergeKeepsKeys(contacts: map<nat, Contact>, n: nat, l: nat, row: Contact)
    requires UniqueKeys(contacts) && n in contacts && l in contacts && n != l
    requires row.number == contacts[n].number && row.lid == contacts[l].lid != ""
    ensures Violates(contacts, n, row) && UniqueKeys(contacts[n := row] - {l})
  {
    assert SharesKey(row, contacts[l]);
    forall other | other in contacts && other != n && other != l
      ensures !SharesKey(row, contacts[other]) && !SharesKey(contacts[other], row)
    {
      assert !SharesKey(contacts[n], contacts[other]) && !SharesKey(contacts[l], contacts[other]);
    }
    var after := contacts[n := row] - {l};
    forall i, j | i in after && j in after && SharesKey(after[i], after[j]) ensures i == j {
      if i != n && j != n { assert SharesKey(contacts[i], contacts[j]); }
    }
  }

  /** What a request does to the owners of tickets and messages. */
  ghost predicate OnlyMoves(db: Db, after: Db, gone: set<nat>, id: nat) {
    && after.tickets.Keys == db.tickets.Keys && after.messages.Keys == db.messages.Keys
    && (forall t :: t in db.tickets ==>
          after.tickets[t] == if db.tickets[t] in gone then id else db.tickets[t])
    && (forall m :: m in db.messages ==>
          var c := db.messages[m].contact;
          after.messages[m] == if c.Some? && c.value in gone then db.messages[m].(contact := Some(id))
                               else db.messages[m])
  }

  /** The tables after a merge that the indexes let pass. */
  function MergedAway(db: Db, n: nat, l: nat, row: Contact): Db {
    var d := Reassigned(db, l, n);
    Deleted(d.(contacts := d.contacts[n := row]), l)
  }

  /** Everything having moved from one contact to another first, the cascade takes nothing along. */
  lemma MergeKeepsRows(db: Db, n: nat, l: nat, row: Contact)
    requires References(db) && n in db.contacts && l in db.contacts && n != l
    ensures var after := MergedAway(db, n, l, row);
            && after.contacts == db.contacts[n := row] - {l} && after.nextId == db.nextId
            && References(after) && OnlyMoves(db, after, {l}, n)
  {
    var d := Reassigned(db, l, n);
    var after := MergedAway(db, n, l, row);
    assert after.tickets == d.tickets;
    assert after.messages == d.messages;
  }

  /** The contacts that are no longer there. */
  function Gone(db: Db, after: Db): set<nat> { db.contacts.Keys - after.contacts.Keys }

  /** The columns a request sets are as it asks, the keys included. */
  predicate ShowsRequest(c: Contact, req: Request) { Refreshed(c, req) == c && HoldsKeys(c, req) }

  /** What a request that is answered achieves. */
  ghost predicate Achieves(db: Db, req: Request, after: Db, id: nat) {
    && UniqueKeys(after.contacts) && References(after)
    && id in after.contacts && ShowsRequest(after.contacts[id], req)
    && OnlyMoves(db, after, Gone(db, after), id)
    && |Gone(db, after)| <= 1
  }

  /** Writing one row, new or old, moves nothing. */
  lemma PutKeepsRows(db: Db, id: nat, row: Contact, nextId: nat)
    requires References(db) && id < nextId && db.nextId <= nextId
    ensures var after := db.(contacts := db.contacts[id := row], nextId := nextId);
            References(after) && OnlyMoves(db, after, {}, id) && Gone(db, after) == {}
  {
    assert Gone(db, db.(contacts := db.contacts[id := row], nextId := nextId)) == {};
  }

  lemma NewRowShows(req: Request)
    ensures var row := NewRow(req);
            ShowsRequest(row, req) && row.number == req.number && row.lid == req.lid
  {
  }

  lemma InsertAchieves(db: Db, req: Request, indexed: bool)
    requires Sound(db) && IsFound(db.contacts, ByNumber, req.number, None)
    requires IsFound(db.contacts, ByLid, req.lid, None)
    ensures var r := Merged(db, None, None, req, indexed);
            r.Ok? && Achieves(db, req, r.value.0, r.value.1) && Gone(db, r.value.0) == {}
  {
    NewRowShows(req);
    assert db.nextId !in db.contacts;
    var row := NewRow(req);
    hide NewRow, ShowsRequest, UniqueKeys, References, OnlyMoves, Violates, IsFound, Gone;
    InsertKeepsKeys(db.contacts, db.nextId, row);
    PutKeepsRows(db, db.nextId, row, db.nextId + 1);
  }

  lemma CompletedKeys(db: Db, n: Option<nat>, l: Option<nat>, req: Request, id: nat)
    requires id == (if n.Some? then n.value else if l.Some? then l.value else 0)
    requires (n.Some? || l.Some?) && (n.Some? && l.Some? ==> n == l)
    requires IsFound(db.contacts, ByNumber, req.number, n) && IsFound(db.contacts, ByLid, req.lid, l)
    ensures var row := Completed(Refreshed(db.contacts[id], req), n, l, req);
            && ShowsRequest(row, req)
            && FreeKey(db.contacts, ByNumber, db.contacts[id].number, row.number)
            && FreeKey(db.contacts, ByLid, db.contacts[id].lid, row.lid)
  {
  }

  lemma UpdateAchieves(db: Db, n: Option<nat>, l: Option<nat>, req: Request, indexed: bool)
    requires Sound(db) && (n.Some? || l.Some?) && (n.Some? && l.Some? ==> n == l)
    requires IsFound(db.contacts, ByNumber, req.number, n) && IsFound(db.contacts, ByLid, req.lid, l)
    ensures var r := Merged(db, n, l, req, indexed);
            && r.Ok? && Achieves(db, req, r.value.0, r.value.1)
            && Gone(db, r.value.0) == {} && r.value.1 == if n.Some? then n.value else l.value
  {
    var id := if n.Some? then n.value else l.value;
    CompletedKeys(db, n, l, req, id);
    hide Completed, Refreshed, ShowsRequest, FreeKey, UniqueKeys, References, OnlyMoves, Violates, Gone;
    var row := Completed(Refreshed(db.contacts[id], req), n, l, req);
    UpdateKeepsKeys(db.contacts, id, row);
    PutKeepsRows(db, id, row, db.nextId);
  }

  lemma MergeAchieves(db: Db, n: nat, l: nat, req: Request)
    requires Sound(db) && n != l
    requires IsFound(db.contacts, ByNumber, req.number, Some(n))
    requires IsFound(db.contacts, ByLid, req.lid, Some(l))
    ensures var row := Refreshed(db.contacts[n], req).(lid := req.lid);
            var after := MergedAway(db, n, l, row);
            && Violates(db.contacts, n, row)
            && Achieves(db, req, after, n) && Gone(db, after) == {l}
  {
    var row := Refreshed(db.contacts[n], req).(lid := req.lid);
    MergeKeepsKeys(db.contacts, n, l, row);
    MergeKeepsRows(db, n, l, row);
    var after := MergedAway(db, n, l, row);
    assert after.contacts.Keys == db.contacts.Keys - {l};
    assert Gone(db, after) == {l};
    assert ShowsRequest(row, req);
  }

  /** The merge case in one step: with the indexes it is refused, without them it merges. */
  lemma MergeDecides(db: Db, n: nat, l: nat, req: Request, indexed: bool)
    requires n in db.contacts && l in db.contacts && n != l
    ensures var row := Refreshed(db.contacts[n], req).(lid := req.lid);
            Violates(db.contacts, n, row) ==>
              Merged(db, Some(n), Some(l), req, indexed) ==
                if indexed then Err(UniqueViolation) else Ok((MergedAway(db, n, l, row), n))
  {
  }

  /**
   One request on sound tables. If it is answered, the tables stay sound, so each non-empty number
   and LID has at most one contact; the answered contact holds both keys asked for; no ticket or
   message is lost, and only those of the one contact that may be merged away change their owner.
   If it fails, nothing changes. Without the unique indexes only a request without a key fails.
   With them, as the migrations declare them, it also fails whenever its keys belong to two
   contacts: the merge gives the LID to one while the other still has it, so it never happens.
   */
  lemma RequestMeaning(db: Db, raw: Request, indexed: bool)
    requires Sound(db)
    ensures var (r, after) := Requested(db, raw, indexed);
            var req := Normalized(raw);
            && (r == Err(InvalidNumber) <==> req.number == "" && req.lid == "")
            && (r == Err(UniqueViolation) <==> indexed && TwoOwners(db.contacts, req))
            && (r.Err? ==> after == db)
            && (r.Ok? ==> Achieves(db, req, after, r.value))
            && (r.Ok? ==> (Gone(db, after) != {} <==> TwoOwners(db.contacts, req)))
  {
    hide Achieves, Merged, Normalized, Gone, UniqueKeys, References, MergedAway, Violates;
    var req := Normalized(raw);
    if req.number != "" || req.lid != "" {
      var n, l := Lookup(db.contacts, ByNumber, req.number), Lookup(db.contacts, ByLid, req.lid);
      TwoOwnersMeansTwoFound(db, req, n, l);
      if n.None? && l.None? {
        InsertAchieves(db, req, indexed);
      } else if n.Some? && l.Some? && n != l {
        MergeAchieves(db, n.value, l.value, req);
        MergeDecides(db, n.value, l.value, req, indexed);
      } else {
        UpdateAchieves(db, n, l, req, indexed);
      }
    }
  }

  /* ---- What an answered request writes ---- */

  function Or(asked: string, before: string): string { if asked != "" then asked else before }

  /** Column by column, the answered row is as asked where something was asked, else as it was. */
  ghost predicate WritesRow(before: Contact, raw: Request, after: Contact) {
    && after.name == Or(TrimSpace(raw.name), before.name)
    && after.picture == Or(raw.picture, before.picture)
    && after.email == Or(raw.email, before.email)
    && after.number == Or(NormalizeNumber(raw.number, raw.isGroup), before.number)
    && after.lid == Or(raw.lid, before.lid)
    && after.isGroup == before.isGroup
  }

  /** The row that a request without a known key starts from. */
  function Blank(isGroup: bool): Contact { Contact("", "", "", "", "", isGroup) }

  /** This contact has the LID asked for, while another one has the number. */
  ghost predicate MergedOut(db: Db, raw: Request, id: nat) {
    && id in db.contacts && raw.lid != "" && db.contacts[id].lid == raw.lid
    && exists n :: n in db.contacts && n != id && NormalizeNumber(raw.number, raw.isGroup) != ""
                   && db.contacts[n].number == NormalizeNumber(raw.number, raw.isGroup)
  }

  /** All a request does to the contacts and their fields. */
  ghost predicate Writes(db: Db, raw: Request, after: Db, id: nat) {
    && id in after.contacts
    && WritesRow(if id in db.contacts then db.contacts[id] else Blank(raw.isGroup), raw, after.contacts[id])
    && (forall other :: other in after.contacts && other != id ==>
          other in db.contacts && after.contacts[other] == db.contacts[other])
    && (forall other :: other in db.contacts ==> (other in after.contacts <==> !MergedOut(db, raw, other)))
    && (forall f :: f in after.fields ==> f in db.fields && after.fields[f] == db.fields[f])
    && (forall f :: f in db.fields ==> (f in after.fields <==> db.fields[f] in after.contacts))
  }

  lemma InsertWrites(db: Db, raw: Request)
    requires Sound(db) && IsFound(db.contacts, ByNumber, Normalized(raw).number, None)
    requires IsFound(db.contacts, ByLid, raw.lid, None)
    ensures var row := NewRow(Normalized(raw));
            Writes(db, raw, db.(contacts := db.contacts[db.nextId := row], nextId := db.nextId + 1), db.nextId)
  {
    assert db.nextId !in db.contacts;
  }

  lemma NotMergedOut(db: Db, raw: Request, n: Option<nat>, l: Option<nat>, id: nat)
    requires UniqueKeys(db.contacts) && (n.None? || l.None? || n == l)
    requires IsFound(db.contacts, ByNumber, Normalized(raw).number, n) && IsFound(db.contacts, ByLid, raw.lid, l)
    ensures !MergedOut(db, raw, id)
  {
    TwoOwnersMeansTwoFound(db, Normalized(raw), n, l);
  }

  lemma UpdateWrites(db: Db, raw: Request, n: Option<nat>, l: Option<nat>)
    requires Sound(db) && (n.Some? || l.Some?) && (n.Some? && l.Some? ==> n == l)
    requires IsFound(db.contacts, ByNumber, Normalized(raw).number, n) && IsFound(db.contacts, ByLid, raw.lid, l)
    ensures var id := if n.Some? then n.value else l.value;
            var row := Completed(Refreshed(db.contacts[id], Normalized(raw)), n, l, Normalized(raw));
            Writes(db, raw, db.(contacts := db.contacts[id := row]), id)
  {
    var id := if n.Some? then n.value else l.value;
    var row := Completed(Refreshed(db.contacts[id], Normalized(raw)), n, l, Normalized(raw));
    assert WritesRow(db.contacts[id], raw, row);
    forall other ensures !MergedOut(db, raw, other) { NotMergedOut(db, raw, n, l, other); }
    hide WritesRow, MergedOut, UniqueKeys, IsFound;
  }

  lemma MergedFields(db: Db, n: nat, l: nat, row: Contact)
    ensures MergedAway(db, n, l, row).fields == map f | f in db.fields && db.fields[f] != l :: db.fields[f]
  {
  }

  lemma OnlyOneMergedOut(db: Db, raw: Request, n: nat, l: nat, other: nat)
    requires UniqueKeys(db.contacts) && n != l && other in db.contacts
    requires IsFound(db.contacts, ByNumber, Normalized(raw).number, Some(n))
    requires IsFound(db.contacts, ByLid, raw.lid, Some(l))
    ensures MergedOut(db, raw, other) <==> other == l
  {
    if db.contacts[other].lid == raw.lid {
      OneOwner(db, ByLid, raw.lid, Some(l), other);
    }
  }

  lemma WritesAfterMerge(db: Db, raw: Request, n: nat, l: nat, row: Contact, after: Db)
    requires n in db.contacts && l in db.contacts && n != l && WritesRow(db.contacts[n], raw, row)
    requires References(db) && after.contacts == db.contacts[n := row] - {l}
    requires after.fields == map f | f in db.fields && db.fields[f] != l :: db.fields[f]
    requires forall other :: other in db.contacts ==> (MergedOut(db, raw, other) <==> other == l)
    ensures Writes(db, raw, after, n)
  {
    hide WritesRow, MergedOut;
    assert forall other :: other in after.contacts <==> other in db.contacts && other != l;
  }

  lemma MergeWrites(db: Db, raw: Request, n: nat, l: nat)
    requires Sound(db) && n != l
    requires IsFound(db.contacts, ByNumber, Normalized(raw).number, Some(n))
    requires IsFound(db.contacts, ByLid, raw.lid, Some(l))
    ensures var row := Refreshed(db.contacts[n], Normalized(raw)).(lid := raw.lid);
            Writes(db, raw, MergedAway(db, n, l, row), n)
  {
    var row := Refreshed(db.contacts[n], Normalized(raw)).(lid := raw.lid);
    assert WritesRow(db.contacts[n], raw, row);
    MergeKeepsRows(db, n, l, row);
    MergedFields(db, n, l, row);
    forall other | other in db.contacts ensures MergedOut(db, raw, other) <==> other == l {
      OnlyOneMergedOut(db, raw, n, l, other);
    }
    hide WritesRow, MergedOut, UniqueKeys, MergedAway, OnlyMoves, Refreshed, Normalized, Writes, References;
    WritesAfterMerge(db, raw, n, l, row, MergedAway(db, n, l, row));
  }

  /**
   What an answered request writes, column by column, said without the updates that write it: the
   answered row, every other contact, which contact goes, and the custom fields.
   */
  lemma RequestWrites(db: Db, raw: Request, indexed: bool)
    requires Sound(db) && Requested(db, raw, indexed).0.Ok?
    ensures var (r, after) := Requested(db, raw, indexed); Writes(db, raw, after, r.value)
  {
    var req := Normalized(raw);
    var n, l := Lookup(db.contacts, ByNumber, req.number), Lookup(db.contacts, ByLid, req.lid);
    if n.None? && l.None? {
      InsertWrites(db, raw);
    } else if n.Some? && l.Some? && n != l {
      MergeWrites(db, raw, n.value, l.value);
      MergeKeepsKeys(db.contacts, n.value, l.value, Refreshed(db.contacts[n.value], req).(lid := req.lid));
      MergeDecides(db, n.value, l.value, req, indexed);
    } else {
      UpdateWrites(db, raw, n, l);
    }
    hide Writes, Sound, Normalized, IsFound, Violates, MergedAway, NewRow, Completed, Refreshed;
  }

  /** Digits are kept, in order, and everything else goes. */
  lemma {:induction false} DigitsAreKept(a: string, b: string)
    ensures Digits(a + b) == Digits(a) + Digits(b)
    ensures |a| == 1 ==> Digits(a) == if '0' <= a[0] <= '9' then a else ""
  {
    if a == "" {
      assert a + b == b;
    } else {
      assert (a + b)[1..] == a[1..] + b;
      DigitsAreKept(a[1..], b);
    }
  }

  lemma {:induction false} SpacesHaveNoDigits(s: string)
    requires AllSpace(s)
    ensures Digits(s) == ""
  {
    if s == "" {
    } else {
      assert forall i :: 0 <= i < |s[1..]| ==> s[1..][i] == s[i + 1];
      SpacesHaveNoDigits(s[1..]);
    }
  }

  /** A group's id is trimmed, and any other number comes down to its digits. */
  lemma NumberMeans(input: string)
    ensures NormalizeNumber(input, true) == TrimSpace(input)
    ensures NormalizeNumber(input, false) == Digits(input)
  {
    var left, right := TrimSplits(input);
    DigitsAreKept(left + TrimSpace(input), right);
    DigitsAreKept(left, TrimSpace(input));
    SpacesHaveNoDigits(left);
    SpacesHaveNoDigits(right);
  }

  /** A request that a contact already shows finds it and changes nothing. */
  lemma ShownRequestChangesNothing(db: Db, raw: Request, indexed: bool, id: nat)
    requires Sound(db) && id in db.contacts && ShowsRequest(db.contacts[id], Normalized(raw))
    requires Normalized(raw).number != "" || Normalized(raw).lid != ""
    ensures Requested(db, raw, indexed) == (Ok(id), db)
  {
    hide Achieves, Normalized, Gone, References, UniqueKeys;
    var req := Normalized(raw);
    var n, l := Lookup(db.contacts, ByNumber, req.number), Lookup(db.contacts, ByLid, req.lid);
    if req.number != "" { OneOwner(db, ByNumber, req.number, n, id); }
    if req.lid != "" { OneOwner(db, ByLid, req.lid, l, id); }
    UpdateKeepsKeys(db.contacts, id, db.contacts[id]);
    assert db.contacts[id := db.contacts[id]] == db.contacts;
  }

  /** Asking again changes nothing and answers the same contact. */
  lemma RequestIsIdempotent(db: Db, raw: Request, indexed: bool)
    requires Sound(db) && Requested(db, raw, indexed).0.Ok?
    ensures var (r, after) := Requested(db, raw, indexed);
            Requested(after, raw, indexed) == (r, after)
  {
    RequestMeaning(db, raw, indexed);
    var (r, after) := Requested(db, raw, indexed);
    ShownRequestChangesNothing(after, raw, indexed, r.value);
  }

  ghost function Run(db: Db, requests: seq<Request>, indexed: bool): Db
    decreases |requests|
  {
    if requests == [] then db else Run(Requested(db, requests[0], indexed).1, requests[1..], indexed)
  }

  /** Over every run the keys stay unique and no ticket or message is ever lost. */
  lemma {:induction false} RunsStaySound(db: Db, requests: seq<Request>, indexed: bool)
    requires Sound(db)
    ensures var after := Run(db, requests, indexed);
            Sound(after) && after.tickets.Keys == db.tickets.Keys && after.messages.Keys == db.messages.Keys
    decreases |requests|
  {
    if requests == [] {
    } else {
      RequestMeaning(db, requests[0], indexed);
      RunsStaySound(Requested(db, requests[0], indexed).1, requests[1..], indexed);
    }
  }

  const NO_ROWS := Db(map[], 0, map[], map[], map[])

  lemma FirstInsert(db: Db, raw: Request, indexed: bool)
    requires Sound(db) && (Normalized(raw).number != "" || raw.lid != "")
    requires forall id :: id in db.contacts ==>
               && (raw.lid == "" || db.contacts[id].lid != raw.lid)
               && (Normalized(raw).number == "" || db.contacts[id].number != Normalized(raw).number)
    ensures Requested(db, raw, indexed)
            == (Ok(db.nextId), db.(contacts := db.contacts[db.nextId := NewRow(Normalized(raw))],
                                   nextId := db.nextId + 1))
  {
    var req := Normalized(raw);
    FoundIsUnique(db.contacts, ByNumber, req.number, None, Lookup(db.contacts, ByNumber, req.number));
    FoundIsUnique(db.contacts, ByLid, req.lid, None, Lookup(db.contacts, ByLid, req.lid));
    InsertKeepsKeys(db.contacts, db.nextId, NewRow(req));
  }

  /** Two contacts, one known by a number and one by a LID. */
  function Pair(a: Contact, b: Contact): Db {
    Db(map[0 := a, 1 := b], 2, map[], map[], map[])
  }

  lemma PairMerges(a: Contact, b: Contact, raw: Request, indexed: bool)
    requires a.lid == "" && b.number == "" && a.number == Normalized(raw).number != "" && b.lid == raw.lid != ""
    ensures TwoOwners(Pair(a, b).contacts, Normalized(raw))
    ensures Requested(Pair(a, b), raw, indexed).0 == if indexed then Err(UniqueViolation) else Ok(0)
  {
    var db, req := Pair(a, b), Normalized(raw);
    assert db.contacts[0] == a && db.contacts[1] == b;
    RequestMeaning(db, raw, indexed);
    var n, l := Lookup(db.contacts, ByNumber, req.number), Lookup(db.contacts, ByLid, req.lid);
    OneOwner(db, ByNumber, req.number, n, 0);
    OneOwner(db, ByLid, req.lid, l, 1);
    hide Normalized, TwoOwners, Achieves, Reassigned, Deleted, Violates, Refreshed;
  }

  lemma TwoInserts(first: Request, second: Request, indexed: bool)
    requires Normalized(first).number != "" && first.lid == ""
    requires Normalized(second).number == "" && second.lid != ""
    ensures Run(NO_ROWS, [first, second], indexed) == Pair(NewRow(Normalized(first)), NewRow(Normalized(second)))
  {
    var a, b := NewRow(Normalized(first)), NewRow(Normalized(second));
    FirstInsert(NO_ROWS, first, indexed);
    var one := Db(map[0 := a], 1, map[], map[], map[]);
    assert Requested(NO_ROWS, first, indexed).1 == one;
    assert a.lid == "" && b.number == "";
    FirstInsert(one, second, indexed);
    hide Requested, Normalized;
    assert [first, second][1..] == [second] && [second][1..] == [];
    assert Run(Pair(a, b), [], indexed) == Pair(a, b);
    assert Run(one, [second], indexed) == Pair(a, b);
  }

  /**
   Three requests are enough to get there: one known by a number, one known by a LID, and one that
   has both. On the migrated schema the third is refused, without the indexes it merges.
   */
  lemma MergeIsReached(number: string, lid: string, indexed: bool)
    requires NormalizeNumber(number, false) != "" && lid != ""
    ensures var both := Request(number, "", lid, "", "", false);
            var db := Run(NO_ROWS, [both.(lid := ""), both.(number := "")], indexed);
            && TwoOwners(db.contacts, Normalized(both))
            && Requested(db, both, indexed).0 == if indexed then Err(UniqueViolation) else Ok(0)
  {
    var both := Request(number, "", lid, "", "", false);
    var first, second := both.(lid := ""), both.(number := "");
    assert NormalizeNumber("", false) == "";
    hide Requested, TwoOwners, Run, NormalizeNumber;
    TwoInserts(first, second, indexed);
    PairMerges(NewRow(Normalized(first)), NewRow(Normalized(second)), both, indexed);
  }
}
