/**
 The browser's shared WebSocket client. Handles acquire channels through reference counts; the
 client sends subscribe and unsubscribe frames while the socket is open and queues them otherwise,
 and resubscribes and replays the queue when a connection opens. One token, all subscribes granted.
 */
module SocketClient {
  type Channel = string

  datatype Frame = Subscribe(channel: Channel) | Unsubscribe(channel: Channel)

  /** Down: ws is null. Closing: ws is set but its readyState is past OPEN. */
  datatype Socket = Down | Connecting | Open | Closing

  type Counts = map<Channel, nat>

  /**
   channelRefs, queue and ws of SharedClient, with the connection itself: wire holds the frames
   sent and not yet read by the server, hub the server's subscriptions of this connection.
   */
  datatype Shared = Shared(
    refs: Counts, queue: seq<Frame>, ws: Socket, wire: seq<Frame>, hub: set<Channel>)

  const FRESH := Shared(map[], [], Down, [], {})

  function Count(m: Counts, ch: Channel): nat { if ch in m then m[ch] else 0 }

  /** What the server does with one frame, and with a sequence of them. */
  function Apply(keys: set<Channel>, f: Frame): set<Channel> {
    match f
    case Subscribe(ch) => keys + {ch}
    case Unsubscribe(ch) => keys - {ch}
  }

  function ApplyAll(keys: set<Channel>, frames: seq<Frame>): set<Channel> {
    if frames == [] then keys
    else Apply(ApplyAll(keys, frames[..|frames| - 1]), frames[|frames| - 1])
  }

  /* ---- SharedClient, as functions on its state ---- */

  function Sent(s: Shared, f: Frame): Shared {
    if s.ws == Open then s.(wire := s.wire + [f]) else s.(queue := s.queue + [f])
  }

  function Acquired(s: Shared, ch: Channel): Shared {
    var current := Count(s.refs, ch);
    var t := s.(refs := s.refs[ch := current + 1]);
    if current == 0 then Sent(t, Subscribe(ch)) else t
  }

  function Released(s: Shared, ch: Channel): Shared {
    var current := Count(s.refs, ch);
    if current <= 1 then Sent(s.(refs := s.refs - {ch}), Unsubscribe(ch))
    else s.(refs := s.refs[ch := current - 1])
  }

  function Subscribes(order: seq<Channel>): seq<Frame> {
    seq(|order|, i requires 0 <= i < |order| => Subscribe(order[i]))
  }

  /** The open handler: one subscribe per key in the map's order, then the whole queue. */
  function Opened(s: Shared, order: seq<Channel>): Shared {
    s.(ws := Open, wire := s.wire + Subscribes(order) + s.queue, queue := [])
  }

  /** The close handler: the connection and the server's side of it are gone. */
  function Dropped(s: Shared): Shared { s.(ws := Down, wire := [], hub := {}) }

  function ReleasedTimes(s: Shared, ch: Channel, n: nat): Shared {
    if n == 0 then s else Released(ReleasedTimes(s, ch, n - 1), ch)
  }

  function ReleasedAll(s: Shared, counts: Counts, order: seq<Channel>): Shared {
    if order == [] then s
    else
      var ch := order[|order| - 1];
      ReleasedTimes(ReleasedAll(s, counts, order[..|order| - 1]), ch, Count(counts, ch))
  }

  /** order lists the keys of m once each, as forEach on a Map visits them. */
  ghost predicate Enumerates(order: seq<Channel>, m: Counts) {
    && (forall ch :: ch in order <==> ch in m)
    && (forall i, j :: 0 <= i < j < |order| ==> order[i] != order[j])
  }

  /** Frames go out in order on an open socket, and wait in the queue on any other. */
  predicate GoOut(before: Shared, frames: seq<Frame>, after: Shared) {
    && after.ws == before.ws && after.hub == before.hub
    && after.wire == (if before.ws == Open then before.wire + frames else before.wire)
    && after.queue == (if before.ws == Open then before.queue else before.queue + frames)
  }

  class SharedClient {
    var channelRefs: Counts
    var queue: seq<Frame>
    var ws: Socket

    /** The connection, as far as this client is concerned. */
    var wire: seq<Frame>
    var hub: set<Channel>

    constructor ()
      ensures View() == FRESH
    {
      channelRefs, queue, ws, wire, hub := map[], [], Down, [], {};
    }

    function View(): Shared reads this { Shared(channelRefs, queue, ws, wire, hub) }

    method Send(f: Frame)
      modifies this
      ensures View() == Sent(old(View()), f)
      ensures channelRefs == old(channelRefs) && GoOut(old(View()), [f], View())
    {
      if ws == Open {
        wire := wire + [f];
      } else {
        queue := queue + [f];
      }
    }

    method AcquireChannel(ch: Channel)
      modifies this
      ensures View() == Acquired(old(View()), ch)
      ensures var n := Count(old(channelRefs), ch);
              && channelRefs == old(channelRefs)[ch := n + 1]
              && GoOut(old(View()), if n == 0 then [Subscribe(ch)] else [], View())
    {
      var current := if ch in channelRefs then channelRefs[ch] else 0;
      channelRefs := channelRefs[ch := current + 1];
      if current == 0 {
        Send(Subscribe(ch));
      }
    }

    method ReleaseChannel(ch: Channel)
      modifies this
      ensures View() == Released(old(View()), ch)
      ensures var n := Count(old(channelRefs), ch);
              && channelRefs == (if n <= 1 then old(channelRefs) - {ch} else old(channelRefs)[ch := n - 1])
              && GoOut(old(View()), if n <= 1 then [Unsubscribe(ch)] else [], View())
    {
      var current := if ch in channelRefs then channelRefs[ch] else 0;
      if current <= 1 {
        channelRefs := channelRefs - {ch};
        Send(Unsubscribe(ch));
      } else {
        channelRefs := channelRefs[ch := current - 1];
      }
    }

    method OnOpen(order: seq<Channel>)
      requires Enumerates(order, channelRefs)
      modifies this
      ensures View() == Opened(old(View()), order)
      ensures ws == Open && queue == [] && channelRefs == old(channelRefs) && hub == old(hub)
      ensures var n := |old(wire)|;
              && |wire| == n + |order| + |old(queue)| && wire[..n] == old(wire)
              && (forall k :: 0 <= k < |order| ==> wire[n + k] == Subscribe(order[k]))
              && wire[n + |order|..] == old(queue)
    {
      ws := Open;
      for i := 0 to |order|
        invariant View() == old(View()).(ws := Open, wire := old(wire) + Subscribes(order[..i]))
      {
        assert Subscribes(order[..i + 1]) == Subscribes(order[..i]) + [Subscribe(order[i])];
        wire := wire + [Subscribe(order[i])];
      }
      assert order[..|order|] == order;
      var pending := queue;
      queue := [];
      for i := 0 to |pending|
        invariant View() == old(View()).(ws := Open, queue := [],
                                         wire := old(wire) + Subscribes(order) + pending[..i])
      {
        wire := wire + [pending[i]];
      }
      assert pending[..|pending|] == pending;
    }

    method OnClose()
      modifies this
      ensures View() == Dropped(old(View()))
      ensures ws == Down && wire == [] && hub == {}
      ensures channelRefs == old(channelRefs) && queue == old(queue)
    {
      ws, wire, hub := Down, [], {};
    }
  }

  /** How many references are left when n of m are given back. */
  function Less(m: nat, n: nat): nat { if m <= n then 0 else m - n }

  lemma {:induction false} ReleasedTimesCounts(s: Shared, ch: Channel, n: nat, x: Channel)
    ensures Count(ReleasedTimes(s, ch, n).refs, x)
            == if x == ch then Less(Count(s.refs, x), n) else Count(s.refs, x)
  {
    if n == 0 {
    } else {
      ReleasedTimesCounts(s, ch, n - 1, x);
    }
  }

  /** Releasing all that a handle holds gives back so many references of each channel. */
  lemma {:induction false} ReleasedAllCounts(s: Shared, counts: Counts, order: seq<Channel>, x: Channel)
    requires forall i, j :: 0 <= i < j < |order| ==> order[i] != order[j]
    ensures Count(ReleasedAll(s, counts, order).refs, x)
            == if x in order then Less(Count(s.refs, x), Count(counts, x)) else Count(s.refs, x)
    decreases |order|
  {
    if order == [] {
    } else {
      var n := |order| - 1;
      assert order == order[..n] + [order[n]] && order[n] !in order[..n];
      ReleasedAllCounts(s, counts, order[..n], x);
      ReleasedTimesCounts(ReleasedAll(s, counts, order[..n]), order[n], Count(counts, order[n]), x);
    }
  }

  /* ---- SocketHandle ---- */

  datatype EmitName =
    | JoinChatBox(ticket: string) | JoinNotification | JoinTickets(status: string)
    | LeaveChatBox(ticket: string) | LeaveNotification | LeaveTickets(status: string) | Unknown

  function EmitToMessages(name: EmitName): seq<Frame> {
    match name
    case JoinChatBox(ticket) => [Subscribe("ticket:" + ticket)]
    case JoinNotification => [Subscribe("notification"), Subscribe("global")]
    case JoinTickets(status) => [Subscribe("tickets:" + status)]
    case LeaveChatBox(ticket) => [Unsubscribe("ticket:" + ticket)]
    case LeaveNotification => [Unsubscribe("notification"), Unsubscribe("global")]
    case LeaveTickets(status) => [Unsubscribe("tickets:" + status)]
    case Unknown => []
  }

  datatype Handle = Handle(acquired: Counts, disposed: bool)

  /** One frame emitted through a handle; an unsubscribe the handle does not hold is ignored. */
  function EmittedHandle(h: Handle, f: Frame): Handle {
    var n := Count(h.acquired, f.channel);
    if h.disposed then h
    else match f
      case Subscribe(ch) => h.(acquired := h.acquired[ch := n + 1])
      case Unsubscribe(ch) =>
        if n == 0 then h
        else if n == 1 then h.(acquired := h.acquired - {ch})
        else h.(acquired := h.acquired[ch := n - 1])
  }

  function EmittedShared(s: Shared, h: Handle, f: Frame): Shared {
    if h.disposed then s
    else match f
      case Subscribe(ch) => Acquired(s, ch)
      case Unsubscribe(ch) => if Count(h.acquired, ch) == 0 then s else Released(s, ch)
  }

  /** Several frames emitted in turn, each one seen by the next. */
  function EmittedAll(s: Shared, h: Handle, frames: seq<Frame>): (Shared, Handle) {
    if frames == [] then (s, h)
    else
      var (t, g) := EmittedAll(s, h, frames[..|frames| - 1]);
      var f := frames[|frames| - 1];
      (EmittedShared(t, g, f), EmittedHandle(g, f))
  }

  lemma {:induction false} DisposedEmitsNothing(s: Shared, h: Handle, frames: seq<Frame>)
    requires h.disposed
    ensures EmittedAll(s, h, frames) == (s, h)
  {
    if frames == [] {
    } else {
      DisposedEmitsNothing(s, h, frames[..|frames| - 1]);
    }
  }

  lemma EmittedTwo(s: Shared, h: Handle, f: Frame, g: Frame)
    ensures EmittedAll(s, h, [f, g])
            == (EmittedShared(EmittedShared(s, h, f), EmittedHandle(h, f), g), EmittedHandle(EmittedHandle(h, f), g))
  {
    hide EmittedShared, EmittedHandle;
    assert [f, g][..1] == [f] && [f][..0] == [];
    assert EmittedAll(s, h, []) == (s, h);
    assert EmittedAll(s, h, [f]) == (EmittedShared(s, h, f), EmittedHandle(h, f));
  }

  /** Leaving a channel just joined restores the handle and the reference counts. */
  lemma LeaveUndoesJoin(s: Shared, h: Handle, ch: Channel)
    requires forall x :: x in h.acquired ==> h.acquired[x] > 0
    requires forall x :: x in s.refs ==> s.refs[x] > 0
    ensures var (t, g) := EmittedAll(s, h, [Subscribe(ch), Unsubscribe(ch)]);
            g == h && t.refs == s.refs
  {
    hide EmittedAll;
    EmittedTwo(s, h, Subscribe(ch), Unsubscribe(ch));
  }

  class SocketHandle {
    const shared: SharedClient
    var acquiredChannels: Counts
    var disposed: bool

    constructor (shared: SharedClient)
      ensures this.shared == shared && View() == Handle(map[], false)
    {
      this.shared := shared;
      acquiredChannels, disposed := map[], false;
    }

    function View(): Handle reads this { Handle(acquiredChannels, disposed) }

    method Emit(name: EmitName)
      modifies this, shared
      ensures (shared.View(), View()) == EmittedAll(old(shared.View()), old(View()), EmitToMessages(name))
    {
      if disposed {
        DisposedEmitsNothing(shared.View(), View(), EmitToMessages(name));
        return;
      }
      var messages := EmitToMessages(name);
      for i := 0 to |messages|
        invariant (shared.View(), View()) == EmittedAll(old(shared.View()), old(View()), messages[..i])
      {
        assert messages[..i + 1][..i] == messages[..i];
        EmitFrame(messages[i]);
      }
      assert messages[..|messages|] == messages;
    }

    method EmitFrame(f: Frame)
      modifies this, shared
      ensures View() == EmittedHandle(old(View()), f)
      ensures shared.View() == EmittedShared(old(shared.View()), old(View()), f)
      ensures disposed == old(disposed)
      ensures var n, m := Count(old(acquiredChannels), f.channel), Count(old(shared.channelRefs), f.channel);
              && (forall x :: x != f.channel ==>
                    && Count(acquiredChannels, x) == Count(old(acquiredChannels), x)
                    && Count(shared.channelRefs, x) == Count(old(shared.channelRefs), x))
              && (if disposed || (f.Unsubscribe? && n == 0) then
                    Count(acquiredChannels, f.channel) == n && shared.View() == old(shared.View())
                  else if f.Subscribe? then
                    Count(acquiredChannels, f.channel) == n + 1 && Count(shared.channelRefs, f.channel) == m + 1
                  else
                    && Count(acquiredChannels, f.channel) == n - 1
                    && Count(shared.channelRefs, f.channel) == if m == 0 then 0 else m - 1)
    {
      if disposed {
        return;
      }
      var count := if f.channel in acquiredChannels then acquiredChannels[f.channel] else 0;
      match f {
        case Subscribe(ch) =>
          acquiredChannels := acquiredChannels[ch := count + 1];
          shared.AcquireChannel(ch);
        case Unsubscribe(ch) =>
          if count == 0 {
            return;
          }
          if count == 1 {
            acquiredChannels := acquiredChannels - {ch};
          } else {
            acquiredChannels := acquiredChannels[ch := count - 1];
          }
          shared.ReleaseChannel(ch);
      }
    }

    method Disconnect(order: seq<Channel>)
      requires Enumerates(order, acquiredChannels)
      modifies this, shared
      ensures View() == if old(disposed) then old(View()) else Handle(map[], true)
      ensures shared.View() == if old(disposed) then old(shared.View())
                               else ReleasedAll(old(shared.View()), old(acquiredChannels), order)
      ensures disposed && (old(disposed) ==> acquiredChannels == old(acquiredChannels))
      ensures !old(disposed) ==>
                && acquiredChannels == map[]
                && forall x :: Count(shared.channelRefs, x)
                               == Less(Count(old(shared.channelRefs), x), Count(old(acquiredChannels), x))
    {
      if disposed {
        return;
      }
      disposed := true;
      for k := 0 to |order|
        invariant disposed && acquiredChannels == old(acquiredChannels)
        invariant shared.View() == ReleasedAll(old(shared.View()), old(acquiredChannels), order[..k])
      {
        var ch := order[k];
        ghost var before := shared.View();
        for i := 0 to acquiredChannels[ch]
          invariant disposed && acquiredChannels == old(acquiredChannels)
          invariant shared.View() == ReleasedTimes(before, ch, i)
        {
          shared.ReleaseChannel(ch);
        }
        assert order[..k + 1][..k] == order[..k];
      }
      assert order[..|order|] == order;
      forall x ensures Count(shared.channelRefs, x)
                       == Less(Count(old(shared.channelRefs), x), Count(old(acquiredChannels), x))
      {
        ReleasedAllCounts(old(shared.View()), old(acquiredChannels), order, x);
      }
      acquiredChannels := map[];
    }
  }

  /* ---- Runs ---- */

  datatype World = World(shared: Shared, handles: seq<Handle>)

  datatype Event =
    | OpenSocket
    | Emit(handle: nat, f: Frame)
    | Disconnect(handle: nat, order: seq<Channel>)
    | StartConnecting
    | ConnectionOpen(order: seq<Channel>)
    | ConnectionFails
    | BeginClosing
    | ServerReads

  ghost predicate Enabled(w: World, e: Event) {
    match e
    case OpenSocket => true
    case Emit(k, _) => k < |w.handles|
    case Disconnect(k, order) => k < |w.handles| && Enumerates(order, w.handles[k].acquired)
    case StartConnecting => w.shared.ws == Down
    case ConnectionOpen(order) => w.shared.ws == Connecting && Enumerates(order, w.shared.refs)
    case ConnectionFails => w.shared.ws != Down
    case BeginClosing => w.shared.ws == Open
    case ServerReads => w.shared.wire != []
  }

  ghost function Step(w: World, e: Event): World
    requires Enabled(w, e)
  {
    var s := w.shared;
    match e
    case OpenSocket => w.(handles := w.handles + [Handle(map[], false)])
    case Emit(k, f) =>
      World(EmittedShared(s, w.handles[k], f), w.handles[k := EmittedHandle(w.handles[k], f)])
    case Disconnect(k, order) =>
      if w.handles[k].disposed then w
      else World(ReleasedAll(s, w.handles[k].acquired, order), w.handles[k := Handle(map[], true)])
    case StartConnecting => w.(shared := s.(ws := Connecting))
    case ConnectionOpen(order) => w.(shared := Opened(s, order))
    case ConnectionFails => w.(shared := Dropped(s))
    case BeginClosing => w.(shared := s.(ws := Closing))
    case ServerReads => w.(shared := s.(hub := Apply(s.hub, s.wire[0]), wire := s.wire[1..]))
  }

  ghost predicate ValidRun(w: World, run: seq<Event>)
    decreases |run|
  {
    run == [] || (Enabled(w, run[0]) && ValidRun(Step(w, run[0]), run[1..]))
  }

  ghost function Run(w: World, run: seq<Event>): World
    requires ValidRun(w, run)
    decreases |run|
  {
    if run == [] then w else Run(Step(w, run[0]), run[1..])
  }

  /* ---- The server's view follows the reference counts ---- */

  /** While the socket is open, reading what is on the wire gives exactly the counted channels;
      otherwise replaying the queue after a resubscribe would leave exactly those. */
  ghost predicate InStep(s: Shared) {
    && (forall ch :: ch in s.refs ==> s.refs[ch] > 0)
    && (s.ws == Open ==> s.queue == [] && ApplyAll(s.hub, s.wire) == s.refs.Keys)
    && (s.ws != Open ==> ApplyAll(s.refs.Keys, s.queue) == s.refs.Keys)
    && (s.ws == Down || s.ws == Connecting ==> s.wire == [] && s.hub == {})
  }

  /** Frames decide each channel on its own. */
  lemma {:induction false} ApplyPointwise(a: set<Channel>, b: set<Channel>, frames: seq<Frame>, ch: Channel)
    requires ch in a <==> ch in b
    ensures ch in ApplyAll(a, frames) <==> ch in ApplyAll(b, frames)
  {
    if frames == [] {
    } else {
      ApplyPointwise(a, b, frames[..|frames| - 1], ch);
    }
  }

  lemma ApplySnoc(keys: set<Channel>, frames: seq<Frame>, f: Frame)
    ensures ApplyAll(keys, frames + [f]) == Apply(ApplyAll(keys, frames), f)
  {
    assert (frames + [f])[..|frames|] == frames;
  }

  lemma {:induction false} ApplyConcat(keys: set<Channel>, a: seq<Frame>, b: seq<Frame>)
    ensures ApplyAll(keys, a + b) == ApplyAll(ApplyAll(keys, a), b)
  {
    if b == [] {
      assert a + b == a;
    } else {
      var n := |b| - 1;
      assert (a + b)[..|a + b| - 1] == a + b[..n];
      ApplyConcat(keys, a, b[..n]);
    }
  }

  lemma {:induction false} ApplySubscribes(order: seq<Channel>)
    ensures ApplyAll({}, Subscribes(order)) == set ch | ch in order
  {
    if order == [] {
    } else {
      var n := |order| - 1;
      ApplySubscribes(order[..n]);
      assert Subscribes(order) == Subscribes(order[..n]) + [Subscribe(order[n])];
      ApplySnoc({}, Subscribes(order[..n]), Subscribe(order[n]));
      assert order == order[..n] + [order[n]];
    }
  }

  /** Changing the key set and sending the frame that says so keeps the server in step. */
  lemma SendKeepsStep(s: Shared, refs: Counts, f: Frame)
    requires InStep(s) && (forall ch :: ch in refs ==> refs[ch] > 0)
    requires refs.Keys == Apply(s.refs.Keys, f)
    ensures InStep(Sent(s.(refs := refs), f))
  {
    if s.ws == Open {
      ApplySnoc(s.hub, s.wire, f);
    } else {
      ApplySnoc(refs.Keys, s.queue, f);
      forall ch | ch != f.channel
        ensures ch in ApplyAll(refs.Keys, s.queue) <==> ch in refs.Keys
      {
        ApplyPointwise(refs.Keys, s.refs.Keys, s.queue, ch);
      }
    }
  }

  lemma AcquireKeepsStep(s: Shared, ch: Channel)
    requires InStep(s)
    ensures InStep(Acquired(s, ch))
  {
    hide ApplyAll;
    var refs := s.refs[ch := Count(s.refs, ch) + 1];
    if Count(s.refs, ch) == 0 {
      SendKeepsStep(s, refs, Subscribe(ch));
    } else {
      assert refs.Keys == s.refs.Keys;
    }
  }

  lemma ReleaseKeepsStep(s: Shared, ch: Channel)
    requires InStep(s)
    ensures InStep(Released(s, ch))
    ensures forall x :: Count(Released(s, ch).refs, x)
                        == if x == ch && Count(s.refs, x) > 0 then Count(s.refs, x) - 1 else Count(s.refs, x)
  {
    hide ApplyAll;
    if Count(s.refs, ch) <= 1 {
      SendKeepsStep(s, s.refs - {ch}, Unsubscribe(ch));
    } else {
      assert s.refs[ch := Count(s.refs, ch) - 1].Keys == s.refs.Keys;
    }
  }

  lemma {:induction false} ReleaseTimesKeepsStep(s: Shared, ch: Channel, n: nat)
    requires InStep(s) && n <= Count(s.refs, ch)
    ensures InStep(ReleasedTimes(s, ch, n))
    ensures forall x :: Count(ReleasedTimes(s, ch, n).refs, x)
                        == if x == ch then Count(s.refs, x) - n else Count(s.refs, x)
  {
    if n == 0 {
    } else {
      ReleaseTimesKeepsStep(s, ch, n - 1);
      ReleaseKeepsStep(ReleasedTimes(s, ch, n - 1), ch);
    }
  }

  /** Disconnecting a handle gives back exactly what it holds, in whatever order. */
  lemma {:induction false} ReleaseAllKeepsStep(s: Shared, counts: Counts, order: seq<Channel>)
    requires InStep(s) && (forall ch :: Count(counts, ch) <= Count(s.refs, ch))
    requires forall i, j :: 0 <= i < j < |order| ==> order[i] != order[j]
    ensures InStep(ReleasedAll(s, counts, order))
    ensures forall x :: Count(ReleasedAll(s, counts, order).refs, x)
                        == Count(s.refs, x) - if x in order then Count(counts, x) else 0
  {
    if order == [] {
    } else {
      var n := |order| - 1;
      var ch, before := order[n], ReleasedAll(s, counts, order[..n]);
      ReleaseAllKeepsStep(s, counts, order[..n]);
      assert order == order[..n] + [ch] && ch !in order[..n];
      assert Count(before.refs, ch) == Count(s.refs, ch);
      ReleaseTimesKeepsStep(before, ch, Count(counts, ch));
    }
  }

  /** Resubscribe plus replay on a new connection. */
  lemma OpenKeepsStep(s: Shared, order: seq<Channel>)
    requires InStep(s) && s.ws == Connecting && Enumerates(order, s.refs)
    ensures InStep(Opened(s, order))
  {
    ApplySubscribes(order);
    assert (set ch | ch in order) == s.refs.Keys;
    ApplyConcat({}, Subscribes(order), s.queue);
    assert [] + Subscribes(order) == Subscribes(order);
  }

  lemma ReadKeepsStep(s: Shared)
    requires InStep(s) && s.wire != []
    ensures InStep(s.(hub := Apply(s.hub, s.wire[0]), wire := s.wire[1..]))
  {
    assert s.wire == [s.wire[0]] + s.wire[1..];
    ApplyConcat(s.hub, [s.wire[0]], s.wire[1..]);
    assert [s.wire[0]][..0] == [];
  }

  /* ---- The counts follow the handles ---- */

  /** How often all handles together hold a channel. */
  function Held(handles: seq<Handle>, ch: Channel): nat {
    if handles == [] then 0
    else Held(handles[..|handles| - 1], ch) + Count(handles[|handles| - 1].acquired, ch)
  }

  lemma {:induction false} HeldUpdate(handles: seq<Handle>, k: nat, h: Handle, ch: Channel)
    requires k < |handles|
    ensures Held(handles[k := h], ch)
            == Held(handles, ch) - Count(handles[k].acquired, ch) + Count(h.acquired, ch)
    ensures Count(handles[k].acquired, ch) <= Held(handles, ch)
  {
    var n := |handles| - 1;
    if k < n {
      assert handles[k := h][..n] == handles[..n][k := h];
      HeldUpdate(handles[..n], k, h, ch);
    } else {
      assert handles[k := h][..n] == handles[..n];
    }
  }

  ghost predicate Consistent(w: World) {
    && InStep(w.shared)
    && (forall ch :: Count(w.shared.refs, ch) == Held(w.handles, ch))
  }

  lemma EmitKeepsConsistent(w: World, e: Event)
    requires Consistent(w) && Enabled(w, e) && e.Emit?
    ensures Consistent(Step(w, e))
  {
    hide InStep;
    var t := Step(w, e);
    forall ch { HeldUpdate(w.handles, e.handle, t.handles[e.handle], ch); }
    match e.f {
      case Subscribe(ch) => AcquireKeepsStep(w.shared, ch);
      case Unsubscribe(ch) => ReleaseKeepsStep(w.shared, ch);
    }
  }

  lemma DisconnectKeepsConsistent(w: World, e: Event)
    requires Consistent(w) && Enabled(w, e) && e.Disconnect?
    ensures Consistent(Step(w, e))
  {
    hide InStep;
    var t := Step(w, e);
    forall ch { HeldUpdate(w.handles, e.handle, t.handles[e.handle], ch); }
    if !w.handles[e.handle].disposed {
      ReleaseAllKeepsStep(w.shared, w.handles[e.handle].acquired, e.order);
    }
  }

  lemma ApplyAllNothing(keys: set<Channel>)
    ensures ApplyAll(keys, []) == keys
  {
  }

  lemma StepKeepsConsistent(w: World, e: Event)
    requires Consistent(w) && Enabled(w, e)
    ensures Consistent(Step(w, e))
  {
    var s, t := w.shared, Step(w, e);
    match e {
      case OpenSocket =>
        assert t.handles[..|w.handles|] == w.handles;
      case Emit(_, _) => EmitKeepsConsistent(w, e);
      case Disconnect(_, _) => DisconnectKeepsConsistent(w, e);
      case ConnectionOpen(order) => OpenKeepsStep(s, order);
      case ServerReads => ReadKeepsStep(s);
      case BeginClosing => ApplyAllNothing(s.refs.Keys);
      case ConnectionFails => ApplyAllNothing(s.refs.Keys);
      case StartConnecting =>
    }
  }

  lemma {:induction false} RunKeepsConsistent(w: World, run: seq<Event>)
    requires Consistent(w) && ValidRun(w, run)
    ensures Consistent(Run(w, run))
    decreases |run|
  {
    if run == [] {
    } else {
      StepKeepsConsistent(w, run[0]);
      RunKeepsConsistent(Step(w, run[0]), run[1..]);
    }
  }

  /**
   The main theorem: after every run of handles opening, emitting and disconnecting, and of the
   connection dropping and coming back, each reference count is the sum of what the handles hold;
   and while a connection is open, the server's subscriptions, once it has read what is on the
   wire, are exactly the channels that some handle holds.
   */
  lemma ServerAgreesWithHandles(run: seq<Event>)
    requires ValidRun(World(FRESH, []), run)
    ensures var w := Run(World(FRESH, []), run);
            && (forall ch :: Count(w.shared.refs, ch) == Held(w.handles, ch))
            && (w.shared.ws == Open ==>
                  forall ch :: ch in ApplyAll(w.shared.hub, w.shared.wire) <==> Held(w.handles, ch) > 0)
  {
    var start := World(FRESH, []);
    ApplyAllNothing({});
    assert FRESH.refs.Keys == {};
    assert Consistent(start);
    RunKeepsConsistent(start, run);
    var w := Run(start, run);
    forall ch ensures ch in w.shared.refs <==> Held(w.handles, ch) > 0 {
      assert Count(w.shared.refs, ch) == Held(w.handles, ch);
    }
  }
}
