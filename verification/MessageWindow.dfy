/**
 The chat box of a ticket. The server answers pages of a newest-first list, each turned around
 into chronological order; the browser merges pages and live events into one list. The theorems
 say that this list is always a window onto the newest messages of the ticket.
 */
module MessageWindow {
  import opened Wrappers

  const PAGE_SIZE := 20

  datatype Message = Message(id: nat, createdAt: int, content: string)

  datatype Error = InvalidInput

  datatype Page = Page(messages: seq<Message>, count: nat, hasMore: bool)

  predicate Before(a: Message, b: Message) {
    a.createdAt < b.createdAt || (a.createdAt == b.createdAt && a.id < b.id)
  }

  /** The rows of one ticket, read in the order that the query reverses. */
  ghost predicate Chronological(rows: seq<Message>) {
    forall i, j :: 0 <= i < j < |rows| ==> Before(rows[i], rows[j])
  }

  ghost predicate DistinctIds(rows: seq<Message>) {
    forall i, j :: 0 <= i < j < |rows| ==> rows[i].id != rows[j].id
  }

  /* ---- The server's page query ---- */

  function Min(a: int, b: int): int { if a < b then a else b }

  function Max(a: int, b: int): int { if a < b then b else a }

  function PageNumber(requested: int): int { Max(1, requested) }

  function PageStart(n: nat, page: int): nat { Max(0, n - PAGE_SIZE * page) }

  function PageEnd(n: nat, page: int): nat
    requires page >= 1
  { Max(0, n - PAGE_SIZE * (page - 1)) }

  /** Page p in chronological order: the rows of rank 20(p-1) up to 20p from the newest. */
  function PageOf(rows: seq<Message>, page: int): seq<Message>
    requires page >= 1
  { rows[PageStart(|rows|, page)..PageEnd(|rows|, page)] }

  /** ORDER BY created_at DESC, id DESC. */
  function NewestFirst(rows: seq<Message>): seq<Message> {
    seq(|rows|, i requires 0 <= i < |rows| => rows[|rows| - 1 - i])
  }

  method ReverseInPlace(messages: array<Message>)
    modifies messages
    ensures messages[..] == NewestFirst(old(messages[..]))
  {
    var n := messages.Length;
    var i, j := 0, n - 1;
    while i < j
      invariant 0 <= i <= n && j == n - 1 - i && i <= j + 1
      invariant forall k :: 0 <= k < i ==> messages[k] == old(messages[n - 1 - k])
      invariant forall k :: i <= k <= j ==> messages[k] == old(messages[k])
      invariant forall k :: j < k < n ==> messages[k] == old(messages[n - 1 - k])
    {
      messages[i], messages[j] := messages[j], messages[i];
      i, j := i + 1, j - 1;
    }
  }

  lemma ReverseOfSlice(rows: seq<Message>, from: nat, to: nat)
    requires from <= to <= |rows|
    ensures NewestFirst(NewestFirst(rows)[from..to]) == rows[|rows| - to..|rows| - from]
  {
  }

  /** Twenty messages, counted from the newest; the last page has what is left, and then none. */
  predicate IsPage(rows: seq<Message>, page: int, messages: seq<Message>)
    requires page >= 1
  {
    var n := |rows|;
    if n >= 20 * page then messages == rows[n - 20 * page..n - 20 * (page - 1)]
    else if n > 20 * (page - 1) then messages == rows[..n - 20 * (page - 1)]
    else messages == []
  }

  lemma PageOfIsPage(rows: seq<Message>, page: int)
    requires page >= 1
    ensures IsPage(rows, page, PageOf(rows, page))
  {
  }

  /** The query with its offset and limit: newest first. */
  method Query(rows: seq<Message>, page: int) returns (messages: array<Message>)
    requires page >= 1
    ensures fresh(messages) && NewestFirst(messages[..]) == PageOf(rows, page)
  {
    var count := |rows|;
    var found := NewestFirst(rows);
    var from := Min((page - 1) * PAGE_SIZE, count);
    var to := Min(from + PAGE_SIZE, count);
    messages := new Message[to - from](k requires 0 <= k < to - from => found[from + k]);
    assert messages[..] == found[from..to];
    ReverseOfSlice(rows, from, to);
    assert count - to == PageStart(count, page) && count - from == PageEnd(count, page);
    hide NewestFirst;
  }

  method List(rows: seq<Message>, ticketID: nat, pageNumber: int) returns (r: Result<Page, Error>)
    ensures ticketID == 0 ==> r == Err(InvalidInput)
    ensures ticketID != 0 ==>
              var page := PageNumber(pageNumber);
              r == Ok(Page(PageOf(rows, page), |rows|, |rows| > page * PAGE_SIZE))
    ensures r.Ok? ==> IsPage(rows, if pageNumber < 1 then 1 else pageNumber, r.value.messages)
  {
    if ticketID == 0 {
      return Err(InvalidInput);
    }
    var page := if pageNumber < 1 then 1 else pageNumber;
    PageOfIsPage(rows, page);
    hide IsPage, PageOf, NewestFirst;
    var count := |rows|;
    var messages := Query(rows, page);
    ReverseInPlace(messages);
    return Ok(Page(messages[..], count, count > page * PAGE_SIZE));
  }

  /* ---- The browser's reducer ---- */

  /** findIndex: the first position with this id, or the length when there is none. */
  function FindIndex(s: seq<Message>, id: nat): (i: nat)
    ensures i <= |s|
  {
    if s == [] || s[0].id == id then 0 else 1 + FindIndex(s[1..], id)
  }

  lemma {:induction false} FindIndexIsFirst(s: seq<Message>, id: nat)
    ensures var i := FindIndex(s, id);
            && (i < |s| ==> s[i].id == id)
            && forall k :: 0 <= k < i ==> s[k].id != id
  {
    if s == [] || s[0].id == id {
    } else {
      FindIndexIsFirst(s[1..], id);
      forall k | 0 < k < FindIndex(s, id) ensures s[k].id != id { assert s[k] == s[1..][k - 1]; }
    }
  }

  /** The only position with an id is the one findIndex returns. */
  lemma FindIndexUnique(s: seq<Message>, i: nat)
    requires i < |s| && forall k :: 0 <= k < |s| && k != i ==> s[k].id != s[i].id
    ensures FindIndex(s, s[i].id) == i
  {
    FindIndexIsFirst(s, s[i].id);
  }

  predicate HasId(s: seq<Message>, id: nat) { FindIndex(s, id) < |s| }

  /** Replace the entry with m's id, if there is one. */
  function Put(s: seq<Message>, m: Message): (t: seq<Message>)
    ensures |t| == |s|
  {
    var i := FindIndex(s, m.id);
    if i < |s| then s[i := m] else s
  }

  /** The entries of s, each replaced by the last message of the payload that has its id. */
  function Refresh(s: seq<Message>, messages: seq<Message>): (t: seq<Message>)
    ensures |t| == |s|
  {
    if messages == [] then s
    else Put(Refresh(s, messages[..|messages| - 1]), messages[|messages| - 1])
  }

  /** The messages of the payload whose id s does not have, in order. */
  function Fresh(s: seq<Message>, messages: seq<Message>): seq<Message> {
    if messages == [] then []
    else
      var last := messages[|messages| - 1];
      Fresh(s, messages[..|messages| - 1]) + if HasId(s, last.id) then [] else [last]
  }

  function Loaded(s: seq<Message>, messages: seq<Message>): seq<Message> {
    Fresh(s, messages) + Refresh(s, messages)
  }

  function Added(s: seq<Message>, m: Message): seq<Message> {
    if HasId(s, m.id) then Put(s, m) else s + [m]
  }

  ghost predicate SameIds(s: seq<Message>, t: seq<Message>) {
    |s| == |t| && forall k :: 0 <= k < |s| ==> s[k].id == t[k].id
  }

  lemma SameIdsSameFind(s: seq<Message>, t: seq<Message>, id: nat)
    requires SameIds(s, t)
    ensures FindIndex(s, id) == FindIndex(t, id)
  {
    FindIndexIsFirst(s, id);
    FindIndexIsFirst(t, id);
    var i, j := FindIndex(s, id), FindIndex(t, id);
    if i < |s| { assert t[i].id == id; }
    if j < |t| { assert s[j].id == id; }
  }

  lemma {:induction false} RefreshKeepsIds(s: seq<Message>, messages: seq<Message>)
    ensures SameIds(s, Refresh(s, messages))
  {
    if messages == [] {
    } else {
      var before, m := Refresh(s, messages[..|messages| - 1]), messages[|messages| - 1];
      RefreshKeepsIds(s, messages[..|messages| - 1]);
      FindIndexIsFirst(before, m.id);
    }
  }

  /** The first entry with this id. */
  predicate FirstWith(s: seq<Message>, i: int, id: nat) {
    0 <= i < |s| && s[i].id == id && forall k :: 0 <= k < i ==> s[k].id != id
  }

  lemma FirstWithIsFound(s: seq<Message>, id: nat)
    ensures forall i | FirstWith(s, i, id) :: i == FindIndex(s, id)
    ensures (forall k :: 0 <= k < |s| ==> s[k].id != id) <==> FindIndex(s, id) == |s|
  {
    FindIndexIsFirst(s, id);
  }

  class MessagesReducer {
    var state: seq<Message>

    method LoadMessages(messages: seq<Message>)
      modifies this
      ensures state == Loaded(old(state), messages)
    {
      var newMessages: seq<Message> := [];
      for i := 0 to |messages|
        invariant state == Refresh(old(state), messages[..i])
        invariant newMessages == Fresh(old(state), messages[..i])
      {
        assert messages[..i + 1][..i] == messages[..i];
        var message := messages[i];
        RefreshKeepsIds(old(state), messages[..i]);
        SameIdsSameFind(old(state), state, message.id);
        var messageIndex := FindIndex(state, message.id);
        if messageIndex < |state| {
          state := state[messageIndex := message];
        } else {
          newMessages := newMessages + [message];
        }
      }
      assert messages[..|messages|] == messages;
      state := newMessages + state;
    }

    method AddMessage(message: Message)
      modifies this
      ensures state == Added(old(state), message)
      ensures forall i | FirstWith(old(state), i, message.id) :: state == old(state)[i := message]
      ensures (forall k :: 0 <= k < |old(state)| ==> old(state)[k].id != message.id) ==>
                state == old(state) + [message]
    {
      FirstWithIsFound(state, message.id);
      var messageIndex := FindIndex(state, message.id);
      if messageIndex < |state| {
        state := state[messageIndex := message];
      } else {
        state := state + [message];
      }
    }

    method UpdateMessage(message: Message)
      modifies this
      ensures state == Put(old(state), message)
      ensures forall i | FirstWith(old(state), i, message.id) :: state == old(state)[i := message]
      ensures (forall k :: 0 <= k < |old(state)| ==> old(state)[k].id != message.id) ==> state == old(state)
    {
      FirstWithIsFound(state, message.id);
      var messageIndex := FindIndex(state, message.id);
      if messageIndex < |state| {
        state := state[messageIndex := message];
      }
    }

    method Reset()
      modifies this
      ensures state == []
    {
      state := [];
    }
  }

  /* ---- Merging one page ---- */

  ghost predicate IsWindow(view: seq<Message>, rows: seq<Message>) {
    |view| <= |rows| && view == rows[|rows| - |view|..]
  }

  /** Looking an id up in a window onto rows with distinct ids. */
  lemma FindInWindow(rows: seq<Message>, cut: nat, i: nat)
    requires DistinctIds(rows) && cut <= |rows| && i < |rows|
    ensures FindIndex(rows[cut..], rows[i].id) == if i < cut then |rows| - cut else i - cut
  {
    var view := rows[cut..];
    if i >= cut {
      assert view[i - cut] == rows[i];
      FindIndexUnique(view, i - cut);
    } else {
      FindIndexIsFirst(view, rows[i].id);
    }
  }

  /** The list already shows this message, in this version. */
  predicate Shows(view: seq<Message>, m: Message) {
    HasId(view, m.id) && view[FindIndex(view, m.id)] == m
  }

  lemma {:induction false} MergeShown(view: seq<Message>, messages: seq<Message>)
    requires forall m :: m in messages ==> Shows(view, m)
    ensures Refresh(view, messages) == view && Fresh(view, messages) == []
  {
    if messages == [] {
    } else {
      var n := |messages| - 1;
      assert messages == messages[..n] + [messages[n]];
      MergeShown(view, messages[..n]);
      assert Shows(view, messages[n]);
    }
  }

  lemma {:induction false} MergeUnknown(view: seq<Message>, messages: seq<Message>)
    requires forall m :: m in messages ==> !HasId(view, m.id)
    ensures Refresh(view, messages) == view && Fresh(view, messages) == messages
  {
    if messages == [] {
    } else {
      var n := |messages| - 1;
      assert messages == messages[..n] + [messages[n]];
      MergeUnknown(view, messages[..n]);
    }
  }

  lemma {:induction false} MergeConcat(view: seq<Message>, a: seq<Message>, b: seq<Message>)
    requires Refresh(view, a) == view
    ensures Refresh(view, a + b) == Refresh(view, b)
    ensures Fresh(view, a + b) == Fresh(view, a) + Fresh(view, b)
  {
    if b == [] {
      assert a + b == a;
    } else {
      var n := |b| - 1;
      assert (a + b)[..|a + b| - 1] == a + b[..n] && (a + b)[|a + b| - 1] == b[n];
      MergeConcat(view, a, b[..n]);
    }
  }

  lemma OlderUnknown(rows: seq<Message>, cut: nat, lo: nat, hi: nat)
    requires DistinctIds(rows) && lo <= hi <= cut <= |rows|
    ensures forall m :: m in rows[lo..hi] ==> !HasId(rows[cut..], m.id)
  {
    forall m | m in rows[lo..hi] ensures !HasId(rows[cut..], m.id) {
      var i :| lo <= i < hi && rows[i] == m;
      FindInWindow(rows, cut, i);
    }
  }

  lemma NewerShown(rows: seq<Message>, cut: nat, lo: nat, hi: nat)
    requires DistinctIds(rows) && cut <= lo <= hi <= |rows|
    ensures forall m :: m in rows[lo..hi] ==> Shows(rows[cut..], m)
  {
    forall m | m in rows[lo..hi] ensures Shows(rows[cut..], m) {
      var i :| lo <= i < hi && rows[i] == m;
      FindInWindow(rows, cut, i);
    }
  }

  /** A stretch of rows merged into a window: the overlap changes nothing, the rest is new. */
  lemma MergeStretch(rows: seq<Message>, cut: nat, lo: nat, hi: nat)
    requires DistinctIds(rows) && cut <= |rows| && lo <= hi <= |rows|
    ensures var view := rows[cut..];
            && Refresh(view, rows[lo..hi]) == view
            && Fresh(view, rows[lo..hi]) == rows[lo..Max(lo, Min(hi, cut))]
  {
    var view, mid := rows[cut..], Max(lo, Min(hi, cut));
    var older, newer := rows[lo..mid], rows[mid..hi];
    assert rows[lo..hi] == older + newer;
    if lo < mid { OlderUnknown(rows, cut, lo, mid); }
    if mid < hi { NewerShown(rows, cut, mid, hi); }
    MergeUnknown(view, older);
    MergeShown(view, newer);
    MergeConcat(view, older, newer);
  }

  /** A stretch that touches the window extends it to its own beginning. */
  lemma MergeTouching(rows: seq<Message>, cut: nat, lo: nat, hi: nat)
    requires DistinctIds(rows) && lo <= hi <= |rows| && cut <= hi
    ensures Loaded(rows[cut..], rows[lo..hi]) == rows[Min(lo, cut)..]
  {
    MergeStretch(rows, cut, lo, hi);
    hide Refresh, Fresh, DistinctIds;
    var mid := Max(lo, Min(hi, cut));
    assert rows[lo..mid] + rows[cut..] == rows[Min(lo, cut)..];
  }

  lemma MergeLeavesHole(rows: seq<Message>, cut: nat, lo: nat, hi: nat)
    requires DistinctIds(rows) && lo < hi < cut <= |rows|
    ensures !IsWindow(Loaded(rows[cut..], rows[lo..hi]), rows)
  {
    MergeStretch(rows, cut, lo, hi);
    hide Refresh, Fresh;
    var merged := Loaded(rows[cut..], rows[lo..hi]);
    assert merged[0] == rows[lo];
    assert rows[|rows| - |merged|..][0] == rows[|rows| - |merged|];
  }

  lemma MergeNothing(view: seq<Message>)
    ensures Loaded(view, []) == view
  {
  }

  /** A stretch keeps the window just when it touches it or is empty. */
  lemma StretchKeepsWindowIff(rows: seq<Message>, cut: nat, lo: nat, hi: nat)
    requires DistinctIds(rows) && cut <= |rows| && lo <= hi <= |rows|
    ensures IsWindow(Loaded(rows[cut..], rows[lo..hi]), rows) <==> cut <= hi || lo == hi
    ensures cut <= hi ==> |Loaded(rows[cut..], rows[lo..hi])| == |rows| - Min(lo, cut)
  {
    if cut <= hi {
      MergeTouching(rows, cut, lo, hi);
    } else if lo == hi {
      MergeNothing(rows[cut..]);
      assert rows[lo..hi] == [];
    } else {
      MergeLeavesHole(rows, cut, lo, hi);
    }
    hide Loaded, DistinctIds;
  }

  /** Where the ranks a to b from the newest are, in n rows of which the last k are shown. */
  lemma PageRange(n: nat, k: nat, a: int, b: int)
    requires k <= n && 0 <= a < b
    ensures var lo, hi := Max(0, n - b), Max(0, n - a);
            && (n - k <= hi || lo == hi <==> a <= k || a >= n)
            && (a <= k ==> n - k <= hi && n - Min(lo, n - k) == Max(k, Min(n, b)))
  {
  }

  lemma RanksKeepWindow(rows: seq<Message>, cut: nat, a: int, b: int)
    requires DistinctIds(rows) && cut <= |rows| && 0 <= a < b
    ensures var n := |rows|;
            var merged := Loaded(rows[cut..], rows[Max(0, n - b)..Max(0, n - a)]);
            && (IsWindow(merged, rows) <==> a <= n - cut || a >= n)
            && (a <= n - cut ==> |merged| == Max(n - cut, Min(n, b)))
  {
    var n := |rows|;
    var lo, hi := Max(0, n - b), Max(0, n - a);
    PageRange(n, n - cut, a, b);
    hide Loaded, DistinctIds, IsWindow, Min, Max;
    StretchKeepsWindowIff(rows, cut, lo, hi);
  }

  /**
   Exactly when a page keeps the window: it must begin inside the window or right behind it, or
   lie beyond the end of the list. Otherwise the merged list has a hole.
   */
  lemma PageKeepsWindow(rows: seq<Message>, view: seq<Message>, page: int)
    requires DistinctIds(rows) && IsWindow(view, rows) && page >= 1
    ensures IsWindow(Loaded(view, PageOf(rows, page)), rows)
            <==> PAGE_SIZE * (page - 1) <= |view| || PAGE_SIZE * (page - 1) >= |rows|
    ensures PAGE_SIZE * (page - 1) <= |view| ==>
              |Loaded(view, PageOf(rows, page))| == Max(|view|, Min(|rows|, PAGE_SIZE * page))
  {
    var cut := |rows| - |view|;
    assert view == rows[cut..];
    hide Loaded, DistinctIds, IsWindow, Min, Max;
    RanksKeepWindow(rows, cut, PAGE_SIZE * (page - 1), PAGE_SIZE * page);
  }

  /* ---- Lists that agree up to contents ---- */

  predicate SameKey(a: Message, b: Message) { a.id == b.id && a.createdAt == b.createdAt }

  ghost predicate SameKeys(s: seq<Message>, t: seq<Message>) {
    |s| == |t| && forall k :: 0 <= k < |s| ==> SameKey(s[k], t[k])
  }

  lemma PutSameKeys(s: seq<Message>, t: seq<Message>, a: Message, b: Message)
    requires SameKeys(s, t) && SameKey(a, b)
    ensures SameKeys(Put(s, a), Put(t, b)) && HasId(s, a.id) == HasId(t, b.id)
  {
    SameIdsSameFind(s, t, a.id);
  }

  /** What merging does to the keys depends on the keys alone. */
  lemma {:induction false} LoadedSameKeys(s: seq<Message>, t: seq<Message>, a: seq<Message>, b: seq<Message>)
    requires SameKeys(s, t) && SameKeys(a, b)
    ensures SameKeys(Refresh(s, a), Refresh(t, b)) && SameKeys(Fresh(s, a), Fresh(t, b))
    decreases |a|
  {
    if a == [] {
      assert b == [];
    } else {
      hide Put, HasId;
      var n := |a| - 1;
      LoadedSameKeys(s, t, a[..n], b[..n]);
      PutSameKeys(Refresh(s, a[..n]), Refresh(t, b[..n]), a[n], b[n]);
      PutSameKeys(s, t, a[n], b[n]);
    }
  }

  lemma SameKeysSameOrder(rows: seq<Message>, edited: seq<Message>)
    requires Chronological(rows) && DistinctIds(rows) && SameKeys(edited, rows)
    ensures Chronological(edited) && DistinctIds(edited)
  {
    assert forall k :: 0 <= k < |rows| ==> SameKey(edited[k], rows[k]);
  }

  lemma SameKeysDistinct(s: seq<Message>, t: seq<Message>)
    requires DistinctIds(t) && SameKeys(s, t)
    ensures DistinctIds(s)
  {
    assert forall k :: 0 <= k < |s| ==> SameKey(s[k], t[k]);
  }

  /** A page of this stretch, in whatever versions, extends a window that it touches. */
  lemma StretchSameKeys(rows: seq<Message>, cut: nat, lo: nat, hi: nat, view: seq<Message>, page: seq<Message>)
    requires DistinctIds(rows) && lo <= hi <= |rows| && cut <= hi
    requires SameKeys(view, rows[cut..]) && SameKeys(page, rows[lo..hi])
    ensures SameKeys(Loaded(view, page), rows[Min(lo, cut)..])
  {
    LoadedSameKeys(view, rows[cut..], page, rows[lo..hi]);
    MergeTouching(rows, cut, lo, hi);
    hide Refresh, Fresh, DistinctIds, SameKey;
  }

  lemma {:induction false} RefreshShows(view: seq<Message>, page: seq<Message>, k: nat)
    requires DistinctIds(page) && k < |page| && HasId(view, page[k].id)
    ensures var i := FindIndex(view, page[k].id); Refresh(view, page)[i] == page[k]
    decreases |page|
  {
    var n := |page| - 1;
    var before := Refresh(view, page[..n]);
    RefreshKeepsIds(view, page[..n]);
    SameIdsSameFind(view, before, page[k].id);
    if k == n {
    } else {
      RefreshShows(view, page[..n], k);
      FindIndexIsFirst(before, page[k].id);
      FindIndexIsFirst(before, page[n].id);
    }
  }

  lemma {:induction false} FreshShows(view: seq<Message>, page: seq<Message>, k: nat)
    requires k < |page| && !HasId(view, page[k].id)
    ensures page[k] in Fresh(view, page)
    decreases |page|
  {
    var n := |page| - 1;
    if k == n {
    } else {
      FreshShows(view, page[..n], k);
    }
  }

  /** Merging a page without doubles shows each of its messages in the version of the page. */
  lemma {:induction false} LoadedShowsPage(view: seq<Message>, page: seq<Message>, m: Message)
    requires DistinctIds(page) && m in page
    ensures m in Loaded(view, page)
  {
    var k :| 0 <= k < |page| && page[k] == m;
    if HasId(view, m.id) {
      RefreshShows(view, page, k);
    } else {
      FreshShows(view, page, k);
    }
  }

  /* ---- All runs ---- */

  /** A page on its way to the browser; its count is the number of rows when it was answered. */
  datatype Reply = Reply(page: nat, answer: Page)

  /** pages counts the pages loaded so far; hasMore is the flag of the latest one. */
  datatype World = World(rows: seq<Message>, view: seq<Message>, pages: nat, hasMore: bool, replies: seq<Reply>)

  /**
   A new message or a change to a stored one, each with its live event; a page answered by the
   server; and a page that reaches the browser, in any order and however late.
   */
  datatype Event = Arrive(m: Message) | Edit(id: nat, content: string) | Answer(page: int) | Deliver(k: nat)

  function Start(rows: seq<Message>): World { World(rows, [], 0, false, []) }

  ghost predicate Enabled(w: World, e: Event) {
    match e
    case Arrive(m) => forall i :: 0 <= i < |w.rows| ==> Before(w.rows[i], m) && w.rows[i].id != m.id
    case Edit(_, _) => true
    case Answer(page) => page <= w.pages + 1
    case Deliver(k) => k < |w.replies|
  }

  function AnswerOf(rows: seq<Message>, page: nat): Reply
    requires page >= 1
  {
    Reply(page, Page(PageOf(rows, page), |rows|, |rows| > page * PAGE_SIZE))
  }

  function Step(w: World, e: Event): World
    requires e.Deliver? ==> e.k < |w.replies|
  {
    match e
    case Arrive(m) => w.(rows := w.rows + [m], view := Added(w.view, m))
    case Edit(id, content) =>
      var i := FindIndex(w.rows, id);
      if i == |w.rows| then w
      else
        var row := w.rows[i].(content := content);
        w.(rows := w.rows[i := row], view := Put(w.view, row))
    case Answer(requested) => w.(replies := w.replies + [AnswerOf(w.rows, PageNumber(requested))])
    case Deliver(k) =>
      var r := w.replies[k];
      World(w.rows, Loaded(w.view, r.answer.messages), Max(w.pages, r.page), r.answer.hasMore,
            w.replies[..k] + w.replies[k + 1..])
  }

  ghost predicate ValidRun(w: World, run: seq<Event>)
    decreases |run|
  {
    run == [] || (Enabled(w, run[0]) && ValidRun(Step(w, run[0]), run[1..]))
  }

  function Run(w: World, run: seq<Event>): World
    requires ValidRun(w, run)
    decreases |run|
  {
    if run == [] then w else Run(Step(w, run[0]), run[1..])
  }

  /* ---- The keys always form a window ---- */

  ghost predicate KeyWindow(view: seq<Message>, rows: seq<Message>) {
    |view| <= |rows| && SameKeys(view, rows[|rows| - |view|..])
  }

  /** A reply holds the stretch it was cut from, in some versions, and touches the window. */
  ghost predicate InFlight(rows: seq<Message>, view: seq<Message>, r: Reply) {
    && r.page >= 1 && r.answer.count <= |rows|
    && r.answer.hasMore == (r.answer.count > r.page * PAGE_SIZE)
    && |rows| - |view| <= PageEnd(r.answer.count, r.page)
    && SameKeys(r.answer.messages, rows[PageStart(r.answer.count, r.page)..PageEnd(r.answer.count, r.page)])
  }

  ghost predicate Loadable(w: World) {
    forall k :: 0 <= k < |w.replies| ==> InFlight(w.rows, w.view, w.replies[k])
  }

  ghost predicate Ordered(rows: seq<Message>) { Chronological(rows) && DistinctIds(rows) }

  ghost predicate Shaped(w: World) {
    && Ordered(w.rows) && KeyWindow(w.view, w.rows) && Loadable(w)
    && |w.view| >= Min(|w.rows|, PAGE_SIZE * w.pages)
    && (w.pages > 0 && !w.hasMore ==> |w.view| == |w.rows|)
  }

  /** A message with a new id, later than all others, at the end of the list. */
  lemma ArriveKeepsOrder(w: World, m: Message)
    requires Ordered(w.rows) && Enabled(w, Arrive(m))
    ensures Ordered(w.rows + [m])
  {
    var rows := w.rows + [m];
    assert forall j :: 0 <= j < |w.rows| ==> rows[j] == w.rows[j];
  }

  /** A live message that is not known is appended. */
  lemma UnknownIsAppended(view: seq<Message>, rows: seq<Message>, m: Message)
    requires KeyWindow(view, rows) && forall i :: 0 <= i < |rows| ==> rows[i].id != m.id
    ensures Added(view, m) == view + [m]
  {
    var n := |rows| - |view|;
    FindIndexIsFirst(view, m.id);
    assert forall i :: 0 <= i < |view| ==> SameKey(view[i], rows[n..][i]) && rows[n..][i] == rows[n + i];
  }

  lemma AppendKeepsKeys(view: seq<Message>, rows: seq<Message>, m: Message)
    requires KeyWindow(view, rows)
    ensures KeyWindow(view + [m], rows + [m])
  {
    var n := |rows| - |view|;
    assert (rows + [m])[n..] == rows[n..] + [m];
  }

  lemma AppendKeepsInFlight(view: seq<Message>, rows: seq<Message>, m: Message, r: Reply)
    requires InFlight(rows, view, r)
    ensures InFlight(rows + [m], view + [m], r)
  {
    var lo, hi := PageStart(r.answer.count, r.page), PageEnd(r.answer.count, r.page);
    assert (rows + [m])[lo..hi] == rows[lo..hi];
  }

  lemma ArriveKeepsShape(w: World, m: Message)
    requires Shaped(w) && Enabled(w, Arrive(m))
    ensures Shaped(Step(w, Arrive(m))) && Step(w, Arrive(m)).view == w.view + [m]
  {
    ArriveKeepsOrder(w, m);
    UnknownIsAppended(w.view, w.rows, m);
    AppendKeepsKeys(w.view, w.rows, m);
    hide KeyWindow, Ordered, Added, Before, InFlight;
    forall k | 0 <= k < |w.replies| ensures InFlight(w.rows + [m], w.view + [m], w.replies[k]) {
      AppendKeepsInFlight(w.view, w.rows, m, w.replies[k]);
    }
  }

  lemma SameKeysSlices(a: seq<Message>, b: seq<Message>, c: seq<Message>, lo: nat, hi: nat)
    requires SameKeys(b, c) && lo <= hi <= |c| && SameKeys(a, c[lo..hi])
    ensures SameKeys(a, b[lo..hi])
  {
    forall k | 0 <= k < |a| ensures SameKey(a[k], b[lo..hi][k]) {
      assert SameKey(a[k], c[lo..hi][k]) && SameKey(b[lo + k], c[lo + k]);
    }
  }

  lemma RewriteKeepsKeys(w: World, rows: seq<Message>, view: seq<Message>)
    requires KeyWindow(w.view, w.rows) && SameKeys(rows, w.rows) && SameKeys(view, w.view)
    ensures KeyWindow(view, rows)
  {
    var n := |rows| - |view|;
    SameKeysSlices(w.view, rows, w.rows, n, |rows|);
    assert rows[n..] == rows[n..|rows|] && w.rows[n..] == w.rows[n..|rows|];
    forall k | 0 <= k < |view| ensures SameKey(view[k], rows[n..][k]) {
      assert SameKey(view[k], w.view[k]) && SameKey(w.view[k], rows[n..|rows|][k]);
    }
  }

  /** Changing contents only. */
  lemma RewriteKeepsShape(w: World, rows: seq<Message>, view: seq<Message>)
    requires Shaped(w) && SameKeys(rows, w.rows) && SameKeys(view, w.view)
    ensures Shaped(w.(rows := rows, view := view))
  {
    SameKeysSameOrder(w.rows, rows);
    RewriteKeepsKeys(w, rows, view);
    forall k | 0 <= k < |w.replies| ensures InFlight(rows, view, w.replies[k]) {
      var r := w.replies[k];
      assert InFlight(w.rows, w.view, r);
      SameKeysSlices(r.answer.messages, rows, w.rows, PageStart(r.answer.count, r.page),
                     PageEnd(r.answer.count, r.page));
    }
  }

  lemma EditSameKeys(w: World, id: nat, content: string)
    requires KeyWindow(w.view, w.rows) && DistinctIds(w.rows)
    ensures var t := Step(w, Edit(id, content));
            SameKeys(t.rows, w.rows) && SameKeys(t.view, w.view) && t == w.(rows := t.rows, view := t.view)
  {
    var i, j, n := FindIndex(w.rows, id), FindIndex(w.view, id), |w.rows| - |w.view|;
    FindIndexIsFirst(w.rows, id);
    FindIndexIsFirst(w.view, id);
    if i < |w.rows| && j < |w.view| {
      assert SameKey(w.view[j], w.rows[n..][j]) && w.rows[n..][j] == w.rows[n + j];
      assert n + j == i;
    }
  }

  lemma EditKeepsShape(w: World, id: nat, content: string)
    requires Shaped(w)
    ensures Shaped(Step(w, Edit(id, content)))
  {
    EditSameKeys(w, id, content);
    var t := Step(w, Edit(id, content));
    RewriteKeepsShape(w, t.rows, t.view);
  }

  lemma AnswerKeepsShape(w: World, requested: int)
    requires Shaped(w) && Enabled(w, Answer(requested))
    ensures Shaped(Step(w, Answer(requested)))
  {
    hide KeyWindow, Ordered;
    assert InFlight(w.rows, w.view, AnswerOf(w.rows, PageNumber(requested)));
  }

  /** However late, a reply extends the window: it touches it, and the window never shrinks. */
  lemma DeliverExtends(w: World, k: nat)
    requires Shaped(w) && k < |w.replies|
    ensures var r := w.replies[k];
            var from := Min(PageStart(r.answer.count, r.page), |w.rows| - |w.view|);
            SameKeys(Step(w, Deliver(k)).view, w.rows[from..])
  {
    var r := w.replies[k];
    assert InFlight(w.rows, w.view, r);
    StretchSameKeys(w.rows, |w.rows| - |w.view|, PageStart(r.answer.count, r.page),
                    PageEnd(r.answer.count, r.page), w.view, r.answer.messages);
  }

  lemma DeliverKeepsShape(w: World, k: nat)
    requires Shaped(w) && k < |w.replies|
    ensures Shaped(Step(w, Deliver(k)))
  {
    var t := Step(w, Deliver(k));
    DeliverExtends(w, k);
    assert InFlight(w.rows, w.view, w.replies[k]);
    hide Ordered, Loaded;
    forall i | 0 <= i < |t.replies| ensures InFlight(t.rows, t.view, t.replies[i]) {
      assert InFlight(w.rows, w.view, w.replies[if i < k then i else i + 1]);
    }
  }

  lemma StepKeepsShape(w: World, e: Event)
    requires Shaped(w) && Enabled(w, e)
    ensures Shaped(Step(w, e))
  {
    hide Shaped, Step;
    match e {
      case Arrive(m) => ArriveKeepsShape(w, m);
      case Edit(id, content) => EditKeepsShape(w, id, content);
      case Answer(page) => AnswerKeepsShape(w, page);
      case Deliver(k) => DeliverKeepsShape(w, k);
    }
  }

  lemma {:induction false} RunKeepsShape(w: World, run: seq<Event>)
    requires Shaped(w) && ValidRun(w, run)
    ensures Shaped(Run(w, run))
    decreases |run|
  {
    if run == [] {
    } else {
      StepKeepsShape(w, run[0]);
      RunKeepsShape(Step(w, run[0]), run[1..]);
    }
  }

  /* ---- When the contents are a window too ---- */

  /** Each message of this reply is stored in that version. */
  predicate Current(w: World, k: nat)
    requires k < |w.replies|
  {
    forall m :: m in w.replies[k].answer.messages ==> m in w.rows
  }

  lemma CurrentIsStretch(w: World, k: nat)
    requires Shaped(w) && k < |w.replies| && Current(w, k)
    ensures var r := w.replies[k];
            r.answer.messages == w.rows[PageStart(r.answer.count, r.page)..PageEnd(r.answer.count, r.page)]
  {
    var r := w.replies[k];
    var page, lo, hi := r.answer.messages, PageStart(r.answer.count, r.page), PageEnd(r.answer.count, r.page);
    assert InFlight(w.rows, w.view, r);
    forall i | 0 <= i < |page| ensures page[i] == w.rows[lo..hi][i] {
      assert page[i] in w.rows && SameKey(page[i], w.rows[lo..hi][i]);
    }
  }

  lemma CurrentKeepsWindow(w: World, k: nat)
    requires Shaped(w) && IsWindow(w.view, w.rows) && k < |w.replies| && Current(w, k)
    ensures IsWindow(Step(w, Deliver(k)).view, w.rows)
  {
    var r, cut := w.replies[k], |w.rows| - |w.view|;
    var lo, hi := PageStart(r.answer.count, r.page), PageEnd(r.answer.count, r.page);
    assert InFlight(w.rows, w.view, r);
    CurrentIsStretch(w, k);
    MergeTouching(w.rows, cut, lo, hi);
  }

  lemma WindowMeansCurrent(w: World, k: nat)
    requires Shaped(w) && k < |w.replies| && IsWindow(Step(w, Deliver(k)).view, w.rows)
    ensures Current(w, k)
  {
    var r := w.replies[k];
    assert InFlight(w.rows, w.view, r);
    SameKeysDistinct(r.answer.messages,
                     w.rows[PageStart(r.answer.count, r.page)..PageEnd(r.answer.count, r.page)]);
    forall m | m in r.answer.messages ensures m in w.rows {
      LoadedShowsPage(w.view, r.answer.messages, m);
    }
  }

  /**
   Exactly when a page, however late, keeps the window: each of its messages is stored as it was
   answered. Arrivals in between do no harm.
   */
  lemma DeliverKeepsWindowIff(w: World, k: nat)
    requires Shaped(w) && IsWindow(w.view, w.rows) && k < |w.replies|
    ensures IsWindow(Step(w, Deliver(k)).view, w.rows) <==> Current(w, k)
  {
    hide *;
    if Current(w, k) {
      CurrentKeepsWindow(w, k);
    }
    if IsWindow(Step(w, Deliver(k)).view, w.rows) {
      WindowMeansCurrent(w, k);
    }
  }

  /** Any change to a message makes every reply stale that holds it on the way. */
  lemma EditMakesStale(w: World, k: nat, m: Message, content: string)
    requires Shaped(w) && k < |w.replies| && m in w.replies[k].answer.messages && content != m.content
    ensures !Current(Step(w, Edit(m.id, content)), k)
  {
    var i := FindIndex(w.rows, m.id);
    FindIndexIsFirst(w.rows, m.id);
  }

  lemma LiveKeepsWindow(w: World, e: Event)
    requires Shaped(w) && IsWindow(w.view, w.rows) && Enabled(w, e) && (e.Arrive? || e.Edit?)
    ensures var t := Step(w, e); IsWindow(t.view, t.rows)
  {
    var n := |w.rows| - |w.view|;
    if e.Arrive? {
      UnknownIsAppended(w.view, w.rows, e.m);
      assert (w.rows + [e.m])[n..] == w.rows[n..] + [e.m];
    } else {
      var i, t := FindIndex(w.rows, e.id), Step(w, e);
      FindIndexIsFirst(w.rows, e.id);
      if i < |w.rows| {
        FindInWindow(w.rows, n, i);
        assert t.view == t.rows[n..];
      }
    }
  }

  lemma StepKeepsWindowIff(w: World, e: Event)
    requires Shaped(w) && IsWindow(w.view, w.rows) && Enabled(w, e)
    ensures var t := Step(w, e); IsWindow(t.view, t.rows) <==> (e.Deliver? ==> Current(w, e.k))
  {
    match e {
      case Arrive(_) => LiveKeepsWindow(w, e);
      case Edit(_, _) => LiveKeepsWindow(w, e);
      case Answer(_) =>
      case Deliver(k) => DeliverKeepsWindowIff(w, k);
    }
  }

  /**
   A live event that comes again for a stored message keeps the window exactly when the message is
   in it, or is the newest and nothing is shown yet. One from before would be appended out of order.
   */
  lemma RepeatKeepsWindowIff(rows: seq<Message>, view: seq<Message>, i: nat)
    requires DistinctIds(rows) && IsWindow(view, rows) && i < |rows|
    ensures IsWindow(Added(view, rows[i]), rows) <==> i >= |rows| - Max(|view|, 1)
  {
    var n, cut := |rows|, |rows| - |view|;
    FindInWindow(rows, cut, i);
    var after := Added(view, rows[i]);
    if i >= cut {
      assert view[i - cut] == rows[i];
      assert after == view;
    } else {
      assert after == view + [rows[i]] && after[|view|] == rows[i];
      if IsWindow(after, rows) {
        assert rows[n - |after|..][|view|] == rows[n - 1];
      }
    }
  }

  /** Every reply of the run is current when it reaches the browser. */
  ghost predicate AllCurrent(w: World, run: seq<Event>)
    requires ValidRun(w, run)
    decreases |run|
  {
    run == [] || ((run[0].Deliver? ==> Current(w, run[0].k)) && AllCurrent(Step(w, run[0]), run[1..]))
  }

  /** At every moment of the run the list shows the newest messages as they are stored. */
  ghost predicate AlwaysWindow(w: World, run: seq<Event>)
    requires ValidRun(w, run)
    decreases |run|
  {
    IsWindow(w.view, w.rows) && (run == [] || AlwaysWindow(Step(w, run[0]), run[1..]))
  }

  lemma {:induction false} WindowIffCurrent(w: World, run: seq<Event>)
    requires Shaped(w) && IsWindow(w.view, w.rows) && ValidRun(w, run)
    ensures AlwaysWindow(w, run) <==> AllCurrent(w, run)
    decreases |run|
  {
    if run == [] {
    } else {
      hide Shaped, Step, IsWindow, Current;
      var e := run[0];
      var t := Step(w, e);
      StepKeepsShape(w, e);
      StepKeepsWindowIff(w, e);
      if IsWindow(t.view, t.rows) {
        WindowIffCurrent(t, run[1..]);
      }
    }
  }

  /**
   The main theorem: from any stored conversation and an empty list, whatever messages arrive or
   change while pages are fetched, and however late the pages come, the list holds exactly the
   newest messages in order without duplicates; p pages show at least min(n, 20p); no more pages
   means that it holds all. And it shows their stored contents at every moment if and only if every
   page is current when it is delivered.
   */
  lemma ListIsWindow(rows: seq<Message>, run: seq<Event>)
    requires Chronological(rows) && DistinctIds(rows) && ValidRun(Start(rows), run)
    ensures var w := Run(Start(rows), run);
            && KeyWindow(w.view, w.rows)
            && Chronological(w.view) && DistinctIds(w.view)
            && |w.view| >= Min(|w.rows|, PAGE_SIZE * w.pages)
            && (w.pages > 0 && !w.hasMore ==> |w.view| == |w.rows|)
    ensures AlwaysWindow(Start(rows), run) <==> AllCurrent(Start(rows), run)
  {
    RunKeepsShape(Start(rows), run);
    WindowIffCurrent(Start(rows), run);
    var w := Run(Start(rows), run);
    SameKeysSameOrder(w.rows[|w.rows| - |w.view|..], w.view);
  }

  /* ---- The flag ---- */

  /**
   Exactly when hasMore tells the truth about a delivered page: false always does; true does only
   when the list did not show everything before.
   */
  lemma HasMoreIsRightIff(w: World, k: nat)
    requires Shaped(w) && k < |w.replies|
    ensures var t := Step(w, Deliver(k));
            (t.hasMore <==> |t.view| < |t.rows|)
            <==> |w.view| < |w.rows| || !w.replies[k].answer.hasMore
  {
    assert InFlight(w.rows, w.view, w.replies[k]);
    DeliverExtends(w, k);
  }

  /** The same for a page that is fetched in one moment, in terms of what is there before. */
  lemma FetchedHasMoreIsRightIff(w: World, page: int)
    requires Shaped(w) && Enabled(w, Answer(page))
    ensures var t := Step(Step(w, Answer(page)), Deliver(|w.replies|));
            (t.hasMore <==> |t.view| < |t.rows|)
            <==> |w.view| < |w.rows| || |w.rows| <= PAGE_SIZE * PageNumber(page)
  {
    AnswerKeepsShape(w, page);
    HasMoreIsRightIff(Step(w, Answer(page)), |w.replies|);
  }

  lemma {:induction false} RunSnoc(w: World, run: seq<Event>, e: Event)
    requires ValidRun(w, run) && Enabled(Run(w, run), e)
    ensures ValidRun(w, run + [e]) && Run(w, run + [e]) == Step(Run(w, run), e)
    decreases |run|
  {
    if run == [] {
      assert [e][1..] == [];
    } else {
      assert (run + [e])[1..] == run[1..] + [e];
      RunSnoc(Step(w, run[0]), run[1..], e);
    }
  }

  lemma {:induction false} ManyArrivals(n: nat) returns (run: seq<Event>, w: World)
    ensures ValidRun(Start([]), run) && w == Run(Start([]), run)
    ensures w.view == w.rows && |w.rows| == n && w.pages == 0 && w.replies == []
    ensures forall i :: 0 <= i < n ==> w.rows[i].id < n && w.rows[i].createdAt < n
  {
    if n == 0 {
      run, w := [], Start([]);
    } else {
      run, w := ManyArrivals(n - 1);
      var m := Message(n - 1, n - 1, "");
      FindIndexIsFirst(w.view, m.id);
      RunSnoc(Start([]), run, Arrive(m));
      run, w := run + [Arrive(m)], Step(w, Arrive(m));
    }
  }

  /** So it happens: 21 live messages, then the first page. */
  lemma HasMoreMayOverstate()
    ensures exists run :: ValidRun(Start([]), run)
                          && var w := Run(Start([]), run);
                             w.pages > 0 && w.hasMore && |w.view| == |w.rows|
  {
    var run, w := ManyArrivals(21);
    RunKeepsShape(Start([]), run);
    RunSnoc(Start([]), run, Answer(1));
    RunSnoc(Start([]), run + [Answer(1)], Deliver(0));
    AnswerKeepsShape(w, 1);
    var v := Step(w, Answer(1));
    DeliverExtends(v, 0);
    HasMoreIsRightIff(v, 0);
    assert ValidRun(Start([]), run + [Answer(1)] + [Deliver(0)]);
  }
}
