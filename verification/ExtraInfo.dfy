/**
 The custom fields of a contact. A request lists the fields the contact shall have: items with an id
 keep and rewrite a field, items without one add a field, and fields not listed are deleted.
 */
module ExtraInfo {
  import opened Wrappers
  import opened Text

  datatype Field = Field(contact: nat, name: string, value: string)

  datatype Item = Item(id: Option<nat>, name: string, value: string)

  /** The table with the sequence that hands out its ids. */
  datatype Table = Table(rows: map<nat, Field>, nextId: nat)

  datatype Error = InvalidExtraInfo

  /* ---- Validation ---- */

  /** No id twice and no blank name. */
  ghost predicate Acceptable(items: seq<Item>) {
    && (forall i :: 0 <= i < |items| ==> TrimSpace(items[i].name) != "")
    && (forall i, j :: 0 <= i < j < |items| && items[i].id.Some? ==> items[i].id != items[j].id)
  }

  method ValidateExtraInfo(items: seq<Item>) returns (r: Result<(), Error>)
    ensures r.Ok? <==> Acceptable(items)
  {
    if |items| == 0 {
      return Ok(());
    }
    var seen: set<nat> := {};
    for i := 0 to |items|
      invariant forall j :: 0 <= j < i ==> TrimSpace(items[j].name) != ""
      invariant forall j :: 0 <= j < i && items[j].id.Some? ==> items[j].id.value in seen
      invariant forall id :: id in seen ==> exists j :: 0 <= j < i && items[j].id == Some(id)
      invariant forall j, k :: 0 <= j < k < i && items[j].id.Some? ==> items[j].id != items[k].id
    {
      var item := items[i];
      if item.id.Some? {
        if item.id.value in seen {
          return Err(InvalidExtraInfo);
        }
        seen := seen + {item.id.value};
      }
      if TrimSpace(item.name) == "" {
        return Err(InvalidExtraInfo);
      }
    }
    return Ok(());
  }

  /* ---- What an upsert means ---- */

  /** Ids come from a sequence that stays ahead of them. */
  ghost predicate Valid(t: Table) {
    forall id :: id in t.rows ==> id < t.nextId
  }

  predicate Names(items: seq<Item>, k: int, id: nat) {
    0 <= k < |items| && items[k].id == Some(id)
  }

  ghost predicate Named(items: seq<Item>, id: nat) {
    exists k :: Names(items, k, id)
  }

  /** The items without an id, in order. */
  function NewItems(items: seq<Item>): seq<Item> {
    if items == [] then []
    else NewItems(items[..|items| - 1]) + if items[|items| - 1].id.None? then [items[|items| - 1]] else []
  }

  function RowOf(contact: nat, item: Item): Field {
    Field(contact, item.name, item.value)
  }

  predicate Owns(t: Table, contact: nat, id: nat) {
    id in t.rows && t.rows[id].contact == contact
  }

  /**
   The rows that may be there are the old ones and one per new item; another contact's row is
   untouched; the contact's own row is there just when an item names it, with what that item says.
   */
  ghost predicate Upserted(before: Table, contact: nat, items: seq<Item>, after: Table) {
    var added := NewItems(items);
    && after.nextId == before.nextId + |added|
    && (forall id :: id in after.rows ==> id in before.rows || before.nextId <= id < after.nextId)
    && (forall id :: id in before.rows && !Owns(before, contact, id) ==>
          id in after.rows && after.rows[id] == before.rows[id])
    && (forall id :: Owns(before, contact, id) ==> (id in after.rows <==> Named(items, id)))
    && (forall id, k :: Owns(before, contact, id) && Names(items, k, id) ==>
          id in after.rows && after.rows[id] == RowOf(contact, items[k]))
    && (forall id :: before.nextId <= id < after.nextId ==>
          id in after.rows && after.rows[id] == RowOf(contact, added[id - before.nextId]))
  }

  /** The lookup by id that the second and third statement group work from. */
  ghost predicate Indexes(items: seq<Item>, byId: map<nat, Item>) {
    && (forall id :: id in byId ==> Named(items, id))
    && (forall k, id :: Names(items, k, id) ==> id in byId && byId[id] == items[k])
  }

  method ById(items: seq<Item>) returns (byId: map<nat, Item>)
    requires Acceptable(items)
    ensures Indexes(items, byId)
  {
    byId := map[];
    for i := 0 to |items|
      invariant forall id :: id in byId ==> Named(items, id)
      invariant forall k, id :: 0 <= k < i && Names(items, k, id) ==> id in byId && byId[id] == items[k]
    {
      if items[i].id.Some? {
        assert Names(items, i, items[i].id.value);
        byId := byId[items[i].id.value := items[i]];
      }
    }
  }

  /** The rows once the unlisted ones of the contact are deleted and the listed ones rewritten. */
  function Rewritten(rows: map<nat, Field>, contact: nat, byId: map<nat, Item>): map<nat, Field> {
    map id | id in rows && (id in byId || rows[id].contact != contact) ::
      if id in byId && rows[id].contact == contact then RowOf(contact, byId[id]) else rows[id]
  }

  /** The new items have become rows with the next ids, and nothing else has changed. */
  ghost predicate Inserted(before: Table, contact: nat, items: seq<Item>, after: Table) {
    var added := NewItems(items);
    && after.nextId == before.nextId + |added|
    && (forall id :: id in after.rows ==> id in before.rows || before.nextId <= id < after.nextId)
    && (forall id :: id in before.rows ==> id in after.rows && after.rows[id] == before.rows[id])
    && (forall id :: before.nextId <= id < after.nextId ==>
          id in after.rows && after.rows[id] == RowOf(contact, added[id - before.nextId]))
  }

  /** Deleting, rewriting and then inserting comes to what Upserted describes. */
  lemma StepsUpsert(before: Table, contact: nat, items: seq<Item>, byId: map<nat, Item>,
                    kept: Table, after: Table)
    requires Valid(before) && Acceptable(items) && Indexes(items, byId)
    requires kept.nextId == before.nextId && kept.rows == Rewritten(before.rows, contact, byId)
    requires Inserted(kept, contact, items, after)
    ensures Upserted(before, contact, items, after) && Valid(after)
  {
    hide Acceptable, NewItems;
    forall id: nat | Owns(before, contact, id) && id !in kept.rows ensures id !in after.rows {
      assert id < before.nextId;
    }
  }

  class Store {
    var rows: map<nat, Field>
    var nextId: nat

    constructor (t: Table)
      ensures View() == t
    {
      rows, nextId := t.rows, t.nextId;
    }

    function View(): Table reads this { Table(rows, nextId) }

    /** DELETE of the contact's rows that no item names. */
    method DeleteUnlisted(contact: nat, payloadIds: map<nat, Item>)
      modifies this`rows
      ensures rows == map id | id in old(rows) && (id in payloadIds || old(rows)[id].contact != contact)
                      :: old(rows)[id]
    {
      var idsToDelete: seq<nat> := [];
      var left := rows.Keys;
      while left != {}
        invariant left <= rows.Keys
        invariant forall id :: id in idsToDelete <==>
                    id in rows && id !in left && rows[id].contact == contact && id !in payloadIds
        decreases left
      {
        var id: nat :| id in left;
        if rows[id].contact == contact && id !in payloadIds {
          idsToDelete := idsToDelete + [id];
        }
        left := left - {id};
      }
      rows := rows - set id | id in idsToDelete;
    }

    /** UPDATE of the contact's rows that an item names; the items come in any order. */
    method UpdateListed(contact: nat, payloadIds: map<nat, Item>)
      modifies this`rows
      ensures rows == map id | id in old(rows) ::
                        if id in payloadIds && old(rows)[id].contact == contact
                        then RowOf(contact, payloadIds[id]) else old(rows)[id]
    {
      var left := payloadIds.Keys;
      while left != {}
        invariant left <= payloadIds.Keys
        invariant rows.Keys == old(rows).Keys
        invariant forall id | id in rows ::
                    rows[id] == if id in payloadIds && id !in left && old(rows)[id].contact == contact
                                then RowOf(contact, payloadIds[id]) else old(rows)[id]
        decreases left
      {
        var id: nat :| id in left;
        if id in rows && rows[id].contact == contact {
          rows := rows[id := rows[id].(name := payloadIds[id].name, value := payloadIds[id].value)];
        }
        left := left - {id};
      }
    }

    /** INSERT of one row per item without an id, in payload order. */
    method InsertNew(contact: nat, items: seq<Item>)
      requires Valid(View())
      modifies this
      ensures Inserted(old(View()), contact, items, View())
    {
      for i := 0 to |items|
        invariant Inserted(old(View()), contact, items[..i], View())
      {
        assert items[..i + 1][..i] == items[..i];
        if items[i].id.None? {
          rows, nextId := rows[nextId := RowOf(contact, items[i])], nextId + 1;
        }
      }
      assert items[..|items|] == items;
    }

    /** Whatever order the updates run in, the outcome is the one that Upserted describes. */
    method UpsertExtraInfo(contact: nat, payload: seq<Item>) returns (r: Result<(), Error>)
      requires Valid(View())
      modifies this
      ensures Valid(View())
      ensures r.Ok? <==> Acceptable(payload)
      ensures r.Ok? ==> Upserted(old(View()), contact, payload, View())
      ensures r.Err? ==> View() == old(View())
    {
      hide Acceptable, Indexes, Inserted, Upserted;
      r := ValidateExtraInfo(payload);
      if r.Err? {
        return;
      }
      var payloadIds := ById(payload);
      DeleteUnlisted(contact, payloadIds);
      UpdateListed(contact, payloadIds);
      ghost var kept := View();
      InsertNew(contact, payload);
      StepsUpsert(old(View()), contact, payload, payloadIds, kept, View());
    }
  }

  /* ---- What that says ---- */

  /** The meaning fixes the outcome: two runs on the same table end in the same table. */
  lemma UpsertIsDetermined(before: Table, contact: nat, items: seq<Item>, a: Table, b: Table)
    requires Upserted(before, contact, items, a) && Upserted(before, contact, items, b)
    ensures a == b
  {
    forall id | id in a.rows || id in b.rows
      ensures id in a.rows && id in b.rows && a.rows[id] == b.rows[id]
    {
      if Owns(before, contact, id) {
        var k :| Names(items, k, id);
      }
    }
    assert a.rows == b.rows;
  }

  /** The row an item ends up in; None for an id that the contact does not own. */
  function Landing(before: Table, contact: nat, items: seq<Item>, k: nat): Option<nat>
    requires k < |items|
  {
    match items[k].id
    case Some(id) => if Owns(before, contact, id) then Some(id) else None
    case None => Some(before.nextId + |NewItems(items[..k])|)
  }

  ghost predicate Lands(before: Table, contact: nat, items: seq<Item>, k: int, id: nat) {
    0 <= k < |items| && Landing(before, contact, items, k) == Some(id)
  }

  /** The row belongs to the contact and says what the item says. */
  predicate Says(row: Field, contact: nat, item: Item) {
    row.contact == contact && row.name == item.name && row.value == item.value
  }

  /** The k-th item, when new, is where the new items before it end. */
  lemma {:induction false} NewItemAt(items: seq<Item>, k: nat)
    requires k < |items|
    ensures items[k].id.None? ==>
              var j := |NewItems(items[..k])|; j < |NewItems(items)| && NewItems(items)[j] == items[k]
    ensures |NewItems(items[..k])| + (if items[k].id.None? then 1 else 0) <= |NewItems(items)|
    decreases |items|
  {
    var shorter := items[..|items| - 1];
    if k == |shorter| {
    } else {
      NewItemAt(shorter, k);
      assert shorter[..k] == items[..k];
    }
  }

  /** Every new item is one of the items. */
  lemma {:induction false} NewItemFrom(items: seq<Item>, j: nat) returns (k: nat)
    requires j < |NewItems(items)|
    ensures k < |items| && items[k].id.None? && |NewItems(items[..k])| == j
    decreases |items|
  {
    var shorter := items[..|items| - 1];
    if j < |NewItems(shorter)| {
      k := NewItemFrom(shorter, j);
      assert shorter[..k] == items[..k];
    } else {
      k := |items| - 1;
    }
  }

  /** Two new items of the payload become different rows. */
  lemma NewItemsApart(items: seq<Item>, j: nat, k: nat)
    requires j < k < |items| && items[j].id.None?
    ensures |NewItems(items[..j])| < |NewItems(items[..k])|
  {
    NewItemAt(items[..k], j);
    assert items[..k][..j] == items[..j];
  }

  lemma LandingShows(before: Table, contact: nat, items: seq<Item>, after: Table, k: nat, id: nat)
    requires Upserted(before, contact, items, after) && Lands(before, contact, items, k, id)
    ensures id in after.rows && Says(after.rows[id], contact, items[k])
  {
    NewItemAt(items, k);
    if items[k].id.Some? {
      assert Names(items, k, id);
    }
  }

  lemma LandedFrom(before: Table, contact: nat, items: seq<Item>, after: Table, id: nat) returns (k: nat)
    requires Upserted(before, contact, items, after) && Owns(after, contact, id)
    ensures Lands(before, contact, items, k, id)
  {
    if id in before.rows {
      k :| Names(items, k, id);
    } else {
      k := NewItemFrom(items, id - before.nextId);
    }
  }

  lemma LandsOnce(before: Table, contact: nat, items: seq<Item>, j: nat, k: nat, id: nat)
    requires Valid(before) && Acceptable(items)
    requires Lands(before, contact, items, j, id) && Lands(before, contact, items, k, id)
    ensures j == k
  {
    if items[j].id.None? && items[k].id.None? {
      if j < k { NewItemsApart(items, j, k); }
      if k < j { NewItemsApart(items, k, j); }
    }
  }

  /**
   The contact's rows afterwards and the items that land are one-to-one, each row showing its item:
   nothing asked for is lost or doubled, nothing else is kept, and an item with an id that the
   contact does not own has no effect on any row.
   */
  lemma RowsAreThePayload(before: Table, contact: nat, items: seq<Item>, after: Table)
    requires Valid(before) && Acceptable(items) && Upserted(before, contact, items, after)
    ensures forall id :: Owns(after, contact, id) <==> exists k :: Lands(before, contact, items, k, id)
    ensures forall k, id :: Lands(before, contact, items, k, id) ==>
              id in after.rows && Says(after.rows[id], contact, items[k])
    ensures forall j, k, id ::
              Lands(before, contact, items, j, id) && Lands(before, contact, items, k, id) ==> j == k
  {
    forall k, id | Lands(before, contact, items, k, id)
      ensures id in after.rows && Says(after.rows[id], contact, items[k])
    {
      LandingShows(before, contact, items, after, k, id);
    }
    forall id | Owns(after, contact, id) ensures exists k :: Lands(before, contact, items, k, id) {
      var k := LandedFrom(before, contact, items, after, id);
      assert Lands(before, contact, items, k, id);
    }
    forall j, k, id | Lands(before, contact, items, j, id) && Lands(before, contact, items, k, id)
      ensures j == k
    {
      LandsOnce(before, contact, items, j, k, id);
    }
  }

  lemma {:induction false} NoNewItems(items: seq<Item>)
    requires forall k :: 0 <= k < |items| ==> items[k].id.Some?
    ensures NewItems(items) == []
    decreases |items|
  {
    if items == [] {
    } else {
      NoNewItems(items[..|items| - 1]);
    }
  }

  /** Sending back just the rows a contact has, as they are, changes nothing. */
  lemma ResubmitChangesNothing(t: Table, contact: nat, items: seq<Item>, after: Table)
    requires Upserted(t, contact, items, after)
    requires forall id :: Owns(t, contact, id) <==> Named(items, id)
    requires forall k :: 0 <= k < |items| ==>
               items[k].id.Some? && Owns(t, contact, items[k].id.value)
               && t.rows[items[k].id.value] == RowOf(contact, items[k])
    ensures after == t
  {
    NoNewItems(items);
    assert Upserted(t, contact, items, t);
    UpsertIsDetermined(t, contact, items, t, after);
  }
}
