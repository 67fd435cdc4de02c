/**
 Runs of the hub seen as a protocol. A publish takes its snapshot of the members under the lock and
 then offers the frame to them one at a time without it, so other publishes, subscriptions, closes
 and write pumps interleave freely with the offers.
 */
module HubDelivery {
  import opened HubIndex

  datatype Event =
    | Connect(c: ClientId)
    | Disconnect(c: ClientId)
    | Subscribe(c: ClientId, channel: Channel)
    | Unsubscribe(c: ClientId, channel: Channel)
    | BeginPublish(channel: Channel, payload: int)
    | OfferTo(c: ClientId, frame: Frame, take: bool)
    | QueueSystem(c: ClientId, payload: int, take: bool)
    | SignalClose(c: ClientId)
    | Write(c: ClientId)

  /** offers: which frames the publishes under way have still to offer to which members. */
  datatype State = State(
    registered: set<ClientId>, subs: set<(ClientId, Channel)>, conns: map<ClientId, Conn>,
    offers: multiset<(ClientId, Frame)>)

  const INITIAL := State({}, {}, map[], multiset{})

  ghost predicate Enabled(s: State, e: Event) {
    match e
    case Connect(c) => c !in s.conns
    case Disconnect(c) => c in s.conns && s.conns[c].closed
    case Subscribe(_, _) => true
    case Unsubscribe(_, _) => true
    case BeginPublish(_, _) => true
    case OfferTo(c, frame, _) => (c, frame) in s.offers && c in s.conns
    case QueueSystem(c, _, _) => c in s.conns
    case SignalClose(c) => c in s.conns
    case Write(c) => c in s.conns && s.conns[c].send != []
  }

  /** One offer to each member of the channel. */
  ghost function Snapshot(s: State, channel: Channel, frame: Frame): set<(ClientId, Frame)> {
    set c | c in s.registered && (c, channel) in s.subs :: (c, frame)
  }

  ghost function Step(s: State, e: Event, capacity: nat): State
    requires Enabled(s, e)
  {
    match e
    case Connect(c) => s.(registered := s.registered + {c}, conns := s.conns[c := Conn([], [], false)])
    case Disconnect(c) =>
      s.(registered := s.registered - {c}, subs := set p | p in s.subs && p.0 != c)
    case Subscribe(c, channel) =>
      if c in s.registered then s.(subs := s.subs + {(c, channel)}) else s
    case Unsubscribe(c, channel) => s.(subs := s.subs - {(c, channel)})
    case BeginPublish(channel, payload) =>
      s.(offers := s.offers + multiset(Snapshot(s, channel, App(channel, payload))))
    case OfferTo(c, frame, take) =>
      s.(offers := s.offers - multiset{(c, frame)},
         conns := s.conns[c := Offer(s.conns[c], frame, capacity, take)])
    case QueueSystem(c, payload, take) =>
      s.(conns := s.conns[c := Offer(s.conns[c], System(payload), capacity, take)])
    case SignalClose(c) => s.(conns := s.conns[c := s.conns[c].(closed := true)])
    case Write(c) =>
      var conn := s.conns[c];
      s.(conns := s.conns[c := conn.(written := conn.written + [conn.send[0]], send := conn.send[1..])])
  }

  ghost predicate ValidTrace(trace: seq<Event>, capacity: nat)
    decreases |trace|, 0
  {
    trace == [] ||
    var n := |trace| - 1;
    ValidTrace(trace[..n], capacity) && Enabled(After(trace[..n], capacity), trace[n])
  }

  ghost function After(trace: seq<Event>, capacity: nat): State
    requires ValidTrace(trace, capacity)
    decreases |trace|, 1
  {
    if trace == [] then INITIAL
    else
      var n := |trace| - 1;
      Step(After(trace[..n], capacity), trace[n], capacity)
  }

  /* ---- What the trace alone says, without the hub ---- */

  ghost predicate IsRegistered(trace: seq<Event>, c: ClientId) {
    if trace == [] then false
    else
      var before, e := trace[..|trace| - 1], trace[|trace| - 1];
      e == Connect(c) || (e != Disconnect(c) && IsRegistered(before, c))
  }

  /** Subscribed: the last word on this channel from this client, while registered, was subscribe. */
  ghost predicate IsSubscribed(trace: seq<Event>, c: ClientId, channel: Channel) {
    if trace == [] then false
    else
      var before, e := trace[..|trace| - 1], trace[|trace| - 1];
      if e == Subscribe(c, channel) then IsRegistered(before, c)
      else if e == Unsubscribe(c, channel) || e == Disconnect(c) then false
      else IsSubscribed(before, c, channel)
  }

  /** The frames published so far to channels that c was subscribed to at the time, in order. */
  ghost function Expected(trace: seq<Event>, c: ClientId): seq<Frame> {
    if trace == [] then []
    else
      var before, e := trace[..|trace| - 1], trace[|trace| - 1];
      if e.BeginPublish? && IsSubscribed(before, c, e.channel)
      then Expected(before, c) + [App(e.channel, e.payload)]
      else Expected(before, c)
  }

  function AppFrames(frames: seq<Frame>): seq<Frame> {
    if frames == [] then []
    else AppFrames(frames[..|frames| - 1])
         + if frames[|frames| - 1].App? then [frames[|frames| - 1]] else []
  }

  /** The application frames queued for a client, taken by its write pump or not. */
  function Queued(conn: Conn): seq<Frame> { AppFrames(conn.written + conn.send) }

  /* ---- The invariant ---- */

  ghost predicate SubsAgree(s: State, trace: seq<Event>, c: ClientId) {
    && (c in s.registered <==> IsRegistered(trace, c))
    && (forall ch :: (c, ch) in s.subs <==> IsSubscribed(trace, c, ch))
    && (c in s.registered ==> c in s.conns)
    && (forall ch :: (c, ch) in s.subs ==> c in s.registered)
  }

  /** How often a frame has still to be offered to a client. */
  ghost function Owed(s: State, c: ClientId, f: Frame): nat { s.offers[(c, f)] }

  /** How often a frame occurs. */
  ghost function Multiplicity(frames: seq<Frame>, f: Frame): nat { multiset(frames)[f] }

  /** Frame by frame: what is queued and what is still to be offered make up what is expected. */
  ghost predicate FramesAgree(s: State, trace: seq<Event>, c: ClientId) {
    && (forall f :: Owed(s, c, f) > 0 ==> c in s.conns && f.App?)
    && (c !in s.conns ==> Expected(trace, c) == [])
    && (c in s.conns && !s.conns[c].closed ==>
          forall f :: Multiplicity(Queued(s.conns[c]), f) + Owed(s, c, f) == Multiplicity(Expected(trace, c), f))
  }

  lemma MultiplicitySnoc(frames: seq<Frame>, x: Frame, f: Frame)
    ensures Multiplicity(frames + [x], f) == Multiplicity(frames, f) + if f == x then 1 else 0
  {
  }

  lemma AppFramesSnoc(frames: seq<Frame>, f: Frame)
    ensures AppFrames(frames + [f]) == AppFrames(frames) + if f.App? then [f] else []
  {
    assert (frames + [f])[..|frames|] == frames;
  }

  lemma OfferQueues(conn: Conn, f: Frame, capacity: nat, take: bool)
    requires !Offer(conn, f, capacity, take).closed
    ensures Queued(Offer(conn, f, capacity, take)) == Queued(conn) + if f.App? then [f] else []
  {
    assert conn.written + (conn.send + [f]) == (conn.written + conn.send) + [f];
    AppFramesSnoc(conn.written + conn.send, f);
  }

  lemma SubscribedSnoc(trace: seq<Event>, e: Event, c: ClientId)
    ensures IsRegistered(trace + [e], c) == (e == Connect(c) || (e != Disconnect(c) && IsRegistered(trace, c)))
    ensures forall ch :: IsSubscribed(trace + [e], c, ch)
              == if e == Event.Subscribe(c, ch) then IsRegistered(trace, c)
                 else e != Event.Unsubscribe(c, ch) && e != Disconnect(c) && IsSubscribed(trace, c, ch)
  {
    assert (trace + [e])[..|trace|] == trace;
  }

  /** What a step does to the subscriptions of one client. */
  lemma StepSubs(s: State, e: Event, capacity: nat, c: ClientId)
    requires Enabled(s, e)
    ensures var t := Step(s, e, capacity);
            && (c in t.registered <==> e == Connect(c) || (e != Disconnect(c) && c in s.registered))
            && (forall ch :: (c, ch) in t.subs <==>
                  if e == Event.Subscribe(c, ch) then c in s.registered || (c, ch) in s.subs
                  else e != Event.Unsubscribe(c, ch) && e != Disconnect(c) && (c, ch) in s.subs)
            && (c in t.conns <==> c in s.conns || e == Connect(c))
  {
    hide Offer, Snapshot;
  }

  lemma StepSubsAgree(s: State, trace: seq<Event>, e: Event, capacity: nat, c: ClientId)
    requires Enabled(s, e) && SubsAgree(s, trace, c)
    ensures SubsAgree(Step(s, e, capacity), trace + [e], c)
  {
    SubscribedSnoc(trace, e, c);
    StepSubs(s, e, capacity, c);
    hide Step, Enabled, IsRegistered, IsSubscribed;
  }

  lemma ExpectedSnoc(trace: seq<Event>, e: Event, c: ClientId)
    ensures Expected(trace + [e], c)
            == if e.BeginPublish? && IsSubscribed(trace, c, e.channel)
               then Expected(trace, c) + [App(e.channel, e.payload)] else Expected(trace, c)
  {
    assert (trace + [e])[..|trace|] == trace;
  }

  /** A publish owes its frame to each subscribed client once more, and nothing else. */
  lemma PublishOwes(s: State, e: Event, capacity: nat, c: ClientId)
    requires e.BeginPublish?
    ensures var t := Step(s, e, capacity);
            && t.conns == s.conns
            && forall f :: Owed(t, c, f) == Owed(s, c, f) +
                 if f == App(e.channel, e.payload) && c in s.registered && (c, e.channel) in s.subs then 1 else 0
  {
    var frame := App(e.channel, e.payload);
    var snapshot := Snapshot(s, e.channel, frame);
    forall f ensures multiset(snapshot)[(c, f)]
                     == if f == frame && c in s.registered && (c, e.channel) in s.subs then 1 else 0
    {
      assert (c, f) in snapshot <==> f == frame && c in s.registered && (c, e.channel) in s.subs;
    }
  }

  /** What one offer does to one client. */
  lemma OfferTakes(s: State, e: Event, capacity: nat, c: ClientId)
    requires e.OfferTo? && Enabled(s, e) && (e.c == c ==> e.frame.App?)
    ensures var t := Step(s, e, capacity);
            && (forall f :: Owed(t, c, f) == Owed(s, c, f) - if e.c == c && f == e.frame then 1 else 0)
            && t.conns.Keys == s.conns.Keys
            && (e.c != c && c in s.conns ==> t.conns[c] == s.conns[c])
            && (e.c == c && !t.conns[c].closed ==>
                  !s.conns[c].closed && Queued(t.conns[c]) == Queued(s.conns[c]) + [e.frame])
  {
    if e.c == c && !Step(s, e, capacity).conns[c].closed {
      OfferQueues(s.conns[c], e.frame, capacity, e.take);
    }
  }

  /** What one client's queue gains from the other events. */
  lemma QueueStays(s: State, e: Event, capacity: nat, c: ClientId)
    requires Enabled(s, e) && !e.BeginPublish? && !e.OfferTo?
    ensures var t := Step(s, e, capacity);
            && (forall f :: Owed(t, c, f) == Owed(s, c, f)) && (c in s.conns ==> c in t.conns)
            && (c in t.conns && c !in s.conns ==> Queued(t.conns[c]) == [])
            && (c in t.conns && c in s.conns && !t.conns[c].closed ==>
                  !s.conns[c].closed && Queued(t.conns[c]) == Queued(s.conns[c]))
  {
    var t := Step(s, e, capacity);
    match e {
      case Connect(_) => assert Queued(Conn([], [], false)) == [];
      case QueueSystem(x, payload, take) =>
        if x == c && !t.conns[c].closed { OfferQueues(s.conns[c], System(payload), capacity, take); }
      case Write(x) =>
        if x == c {
          var conn := s.conns[c];
          assert conn.written + [conn.send[0]] + conn.send[1..] == conn.written + conn.send;
        }
      case _ =>
    }
  }

  lemma OfferKeepsFrames(s: State, trace: seq<Event>, e: Event, capacity: nat, c: ClientId)
    requires e.OfferTo? && Enabled(s, e) && FramesAgree(s, trace, c)
    ensures FramesAgree(Step(s, e, capacity), trace + [e], c)
  {
    ExpectedSnoc(trace, e, c);
    assert e.c == c ==> Owed(s, c, e.frame) > 0;
    OfferTakes(s, e, capacity, c);
    hide Step, Expected, Queued, Multiplicity, Owed;
    if e.c == c {
      forall f { MultiplicitySnoc(Queued(s.conns[c]), e.frame, f); }
    }
  }

  lemma StepFramesAgree(s: State, trace: seq<Event>, e: Event, capacity: nat, c: ClientId)
    requires Enabled(s, e) && SubsAgree(s, trace, c) && FramesAgree(s, trace, c)
    ensures FramesAgree(Step(s, e, capacity), trace + [e], c)
  {
    ExpectedSnoc(trace, e, c);
    hide Expected, IsSubscribed, IsRegistered, Multiplicity, Snapshot, Queued, Owed;
    if e.BeginPublish? {
      PublishOwes(s, e, capacity, c);
      forall f { MultiplicitySnoc(Expected(trace, c), App(e.channel, e.payload), f); }
    } else if e.OfferTo? {
      OfferKeepsFrames(s, trace, e, capacity, c);
    } else {
      QueueStays(s, e, capacity, c);
    }
  }

  lemma {:induction false} TraceAgrees(trace: seq<Event>, capacity: nat, c: ClientId)
    requires ValidTrace(trace, capacity)
    ensures var s := After(trace, capacity); SubsAgree(s, trace, c) && FramesAgree(s, trace, c)
    decreases |trace|
  {
    if trace == [] {
    } else {
      var n := |trace| - 1;
      hide SubsAgree, FramesAgree, Step;
      TraceAgrees(trace[..n], capacity, c);
      StepSubsAgree(After(trace[..n], capacity), trace[..n], trace[n], capacity, c);
      StepFramesAgree(After(trace[..n], capacity), trace[..n], trace[n], capacity, c);
      assert trace == trace[..n] + [trace[n]];
    }
  }

  lemma StepStaysBounded(s: State, e: Event, capacity: nat, c: ClientId)
    requires Enabled(s, e) && (c in s.conns ==> |s.conns[c].send| <= capacity)
    ensures var t := Step(s, e, capacity); c in t.conns ==> |t.conns[c].send| <= capacity
  {
    hide Offer, Snapshot;
    if e.OfferTo? {
      OfferNeverSkips(s.conns[e.c], e.frame, capacity, e.take);
    } else if e.QueueSystem? {
      OfferNeverSkips(s.conns[e.c], System(e.payload), capacity, e.take);
    }
  }

  lemma {:induction false} BuffersStayBounded(trace: seq<Event>, capacity: nat, c: ClientId)
    requires ValidTrace(trace, capacity)
    ensures var s := After(trace, capacity); c in s.conns ==> |s.conns[c].send| <= capacity
    decreases |trace|
  {
    if trace == [] {
    } else {
      var n := |trace| - 1;
      BuffersStayBounded(trace[..n], capacity, c);
      StepStaysBounded(After(trace[..n], capacity), trace[n], capacity, c);
    }
  }

  /* ---- The order of frames ---- */

  /** No publish begins before the one before it has offered its frame to everyone. */
  ghost predicate Serial(trace: seq<Event>, capacity: nat)
    requires ValidTrace(trace, capacity)
    decreases |trace|
  {
    if trace == [] then true
    else
      var n := |trace| - 1;
      Serial(trace[..n], capacity)
      && (trace[n].BeginPublish? ==> After(trace[..n], capacity).offers == multiset{})
  }

  /** The frame of the latest publish. */
  function Latest(trace: seq<Event>): Frame {
    if trace == [] then System(0)
    else
      var e := trace[|trace| - 1];
      if e.BeginPublish? then App(e.channel, e.payload) else Latest(trace[..|trace| - 1])
  }

  /** The frame still on its way to c. */
  ghost function Pending(s: State, trace: seq<Event>, c: ClientId): seq<Frame> {
    if Owed(s, c, Latest(trace)) > 0 then [Latest(trace)] else []
  }

  ghost predicate OrderAgrees(s: State, trace: seq<Event>, c: ClientId) {
    && (forall f :: Owed(s, c, f) <= if f == Latest(trace) then 1 else 0)
    && (c in s.conns && !s.conns[c].closed ==>
          Queued(s.conns[c]) + Pending(s, trace, c) == Expected(trace, c))
  }

  lemma LatestSnoc(trace: seq<Event>, e: Event)
    ensures Latest(trace + [e]) == if e.BeginPublish? then App(e.channel, e.payload) else Latest(trace)
  {
    assert (trace + [e])[..|trace|] == trace;
  }

  lemma PublishKeepsOrder(s: State, trace: seq<Event>, e: Event, capacity: nat, c: ClientId)
    requires e.BeginPublish? && forall f :: Owed(s, c, f) == 0
    requires SubsAgree(s, trace, c) && OrderAgrees(s, trace, c)
    ensures OrderAgrees(Step(s, e, capacity), trace + [e], c)
  {
    ExpectedSnoc(trace, e, c);
    LatestSnoc(trace, e);
    PublishOwes(s, e, capacity, c);
    hide Expected, IsSubscribed, IsRegistered, Latest, Queued, Owed, Step;
    assert Pending(s, trace, c) == [];
  }

  /** The order depends on the trace through its latest frame and the expected ones only. */
  lemma SameOrder(s: State, t: State, before: seq<Event>, after: seq<Event>, c: ClientId)
    requires OrderAgrees(s, before, c)
    requires Latest(after) == Latest(before) && Expected(after, c) == Expected(before, c)
    requires forall f :: Owed(t, c, f) == Owed(s, c, f)
    requires c in t.conns && !t.conns[c].closed ==>
               c in s.conns && !s.conns[c].closed && Queued(t.conns[c]) == Queued(s.conns[c])
    ensures OrderAgrees(t, after, c)
  {
    hide Expected, Latest, Queued, Owed;
  }

  /** The one frame owed to c joins its queue. */
  lemma OrderPaid(s: State, t: State, before: seq<Event>, after: seq<Event>, frame: Frame, c: ClientId)
    requires OrderAgrees(s, before, c) && Owed(s, c, frame) > 0
    requires Latest(after) == Latest(before) && Expected(after, c) == Expected(before, c)
    requires forall f :: Owed(t, c, f) == Owed(s, c, f) - if f == frame then 1 else 0
    requires c in t.conns && !t.conns[c].closed ==>
               c in s.conns && !s.conns[c].closed && Queued(t.conns[c]) == Queued(s.conns[c]) + [frame]
    ensures OrderAgrees(t, after, c)
  {
    hide Expected, Latest, Queued, Owed;
    assert frame == Latest(before);
    assert Pending(s, before, c) == [frame] && Pending(t, after, c) == [];
  }

  lemma OfferKeepsOrder(s: State, trace: seq<Event>, e: Event, capacity: nat, c: ClientId)
    requires e.OfferTo? && Enabled(s, e) && FramesAgree(s, trace, c) && OrderAgrees(s, trace, c)
    ensures OrderAgrees(Step(s, e, capacity), trace + [e], c)
  {
    ExpectedSnoc(trace, e, c);
    LatestSnoc(trace, e);
    assert e.c == c ==> Owed(s, c, e.frame) > 0;
    OfferTakes(s, e, capacity, c);
    hide *;
    var t := Step(s, e, capacity);
    if e.c == c {
      OrderPaid(s, t, trace, trace + [e], e.frame, c);
    } else {
      SameOrder(s, t, trace, trace + [e], c);
    }
  }

  lemma StepOrderAgrees(s: State, trace: seq<Event>, e: Event, capacity: nat, c: ClientId)
    requires Enabled(s, e) && SubsAgree(s, trace, c) && FramesAgree(s, trace, c) && OrderAgrees(s, trace, c)
    requires e.BeginPublish? ==> s.offers == multiset{}
    ensures OrderAgrees(Step(s, e, capacity), trace + [e], c)
  {
    if e.BeginPublish? {
      assert forall f :: Owed(s, c, f) == 0;
      PublishKeepsOrder(s, trace, e, capacity, c);
    } else if e.OfferTo? {
      OfferKeepsOrder(s, trace, e, capacity, c);
    } else {
      ExpectedSnoc(trace, e, c);
      LatestSnoc(trace, e);
      QueueStays(s, e, capacity, c);
      hide Expected, IsSubscribed, IsRegistered, Multiplicity, Latest, Queued, Step, Owed, Enabled;
      var t := Step(s, e, capacity);
      if c in s.conns {
        SameOrder(s, t, trace, trace + [e], c);
      } else {
        assert Pending(t, trace + [e], c) == [];
      }
    }
  }

  lemma {:induction false} SerialAgrees(trace: seq<Event>, capacity: nat, c: ClientId)
    requires ValidTrace(trace, capacity) && Serial(trace, capacity)
    ensures OrderAgrees(After(trace, capacity), trace, c)
    decreases |trace|
  {
    if trace == [] {
    } else {
      var n := |trace| - 1;
      hide SubsAgree, FramesAgree, OrderAgrees, Step;
      SerialAgrees(trace[..n], capacity, c);
      TraceAgrees(trace[..n], capacity, c);
      StepOrderAgrees(After(trace[..n], capacity), trace[..n], trace[n], capacity, c);
      assert trace == trace[..n] + [trace[n]];
    }
  }

  /**
   Lossless or disconnected: after any interleaving, a client that is not closed has been queued
   each frame just as often as it was published to its channels at the time, up to the offers still
   to come; its buffer never exceeds its capacity; and when publishes do not overlap, the frames
   are in the order of their publishing, without gaps.
   */
  lemma LosslessOrClosed(trace: seq<Event>, capacity: nat, c: ClientId)
    requires ValidTrace(trace, capacity)
    ensures var s := After(trace, capacity);
            c in s.conns ==>
              && |s.conns[c].send| <= capacity
              && (s.conns[c].closed
                  || (forall f :: Multiplicity(Queued(s.conns[c]), f) + Owed(s, c, f)
                                  == Multiplicity(Expected(trace, c), f)))
              && (s.conns[c].closed || !Serial(trace, capacity)
                  || Queued(s.conns[c]) + Pending(s, trace, c) == Expected(trace, c))
  {
    TraceAgrees(trace, capacity, c);
    BuffersStayBounded(trace, capacity, c);
    if Serial(trace, capacity) {
      SerialAgrees(trace, capacity, c);
    }
  }

  lemma TraceSnoc(trace: seq<Event>, e: Event, capacity: nat)
    requires ValidTrace(trace, capacity) && Enabled(After(trace, capacity), e)
    ensures ValidTrace(trace + [e], capacity)
    ensures After(trace + [e], capacity) == Step(After(trace, capacity), e, capacity)
  {
    assert (trace + [e])[..|trace|] == trace;
  }

  lemma ExtendsIff(queued: seq<Frame>, expected: seq<Frame>, frame: Frame)
    requires queued <= expected && Multiplicity(queued, frame) < Multiplicity(expected, frame)
    ensures |queued| < |expected|
    ensures queued + [frame] <= expected <==> frame == expected[|queued|]
  {
    var rest := expected[|queued|..];
    assert expected == queued + rest;
    assert frame in rest;
  }

  /** An offer keeps the order just when it is of the next frame that is expected. */
  lemma OfferInOrderIff(trace: seq<Event>, e: Event, capacity: nat, c: ClientId)
    requires ValidTrace(trace, capacity) && Enabled(After(trace, capacity), e) && e.OfferTo? && e.c == c
    requires var s := After(trace, capacity);
             && !Step(s, e, capacity).conns[c].closed && c in s.conns && Queued(s.conns[c]) <= Expected(trace, c)
    ensures var s, t := After(trace, capacity), Step(After(trace, capacity), e, capacity);
            var n := |Queued(s.conns[c])|;
            && n < |Expected(trace, c)|
            && (Queued(t.conns[c]) <= Expected(trace + [e], c) <==> e.frame == Expected(trace, c)[n])
  {
    var s := After(trace, capacity);
    TraceAgrees(trace, capacity, c);
    ExpectedSnoc(trace, e, c);
    assert Owed(s, c, e.frame) > 0;
    OfferTakes(s, e, capacity, c);
    assert FramesAgree(s, trace, c);
    ExtendsIff(Queued(s.conns[c]), Expected(trace, c), e.frame);
    hide *;
  }

  /** The client is closed, or has been queued a first part of what it is to get, in order. */
  ghost predicate InOrder(s: State, trace: seq<Event>, c: ClientId) {
    c in s.conns && (s.conns[c].closed || Queued(s.conns[c]) <= Expected(trace, c))
  }

  /** Two different frames are owed to the client at once. */
  ghost predicate AtRisk(s: State, c: ClientId) {
    exists f, g :: f != g && Owed(s, c, f) > 0 && Owed(s, c, g) > 0
  }

  /** The next frame that is expected is one of those owed. */
  lemma NextIsOwed(s: State, trace: seq<Event>, c: ClientId)
    requires FramesAgree(s, trace, c) && InOrder(s, trace, c) && !s.conns[c].closed
    requires |Queued(s.conns[c])| < |Expected(trace, c)|
    ensures Owed(s, c, Expected(trace, c)[|Queued(s.conns[c])|]) > 0
  {
    var queued, expected := Queued(s.conns[c]), Expected(trace, c);
    var next := expected[|queued|];
    assert Multiplicity(queued, next) + Owed(s, c, next) == Multiplicity(expected, next);
    hide Queued, Expected, FramesAgree, Owed;
    assert expected == queued + expected[|queued|..];
    assert next in expected[|queued|..];
  }

  /** While no two different frames are owed, whatever happens next keeps the order. */
  lemma CalmOfferInOrder(trace: seq<Event>, e: Event, capacity: nat, c: ClientId)
    requires ValidTrace(trace, capacity) && Enabled(After(trace, capacity), e) && e.OfferTo? && e.c == c
    requires InOrder(After(trace, capacity), trace, c) && !AtRisk(After(trace, capacity), c)
    ensures InOrder(Step(After(trace, capacity), e, capacity), trace + [e], c)
  {
    var s := After(trace, capacity);
    var t := Step(s, e, capacity);
    TraceAgrees(trace, capacity, c);
    assert Owed(s, c, e.frame) > 0;
    OfferTakes(s, e, capacity, c);
    hide After, ValidTrace, Queued, Expected, Step, Enabled, Owed, FramesAgree;
    if !t.conns[c].closed {
      OfferInOrderIff(trace, e, capacity, c);
      NextIsOwed(s, trace, c);
    }
  }

  lemma CalmStep(trace: seq<Event>, e: Event, capacity: nat, c: ClientId)
    requires ValidTrace(trace, capacity) && Enabled(After(trace, capacity), e)
    requires InOrder(After(trace, capacity), trace, c) && !AtRisk(After(trace, capacity), c)
    ensures var t := Step(After(trace, capacity), e, capacity);
            InOrder(t, trace + [e], c) && (!e.BeginPublish? ==> !AtRisk(t, c))
  {
    var s := After(trace, capacity);
    ExpectedSnoc(trace, e, c);
    hide After, ValidTrace, Queued, Expected;
    if e.BeginPublish? {
      PublishOwes(s, e, capacity, c);
    } else if e.OfferTo? {
      TraceAgrees(trace, capacity, c);
      assert e.c == c ==> Owed(s, c, e.frame) > 0;
      OfferTakes(s, e, capacity, c);
      if e.c == c {
        CalmOfferInOrder(trace, e, capacity, c);
      }
      hide Step, Enabled, Owed, FramesAgree;
    } else {
      QueueStays(s, e, capacity, c);
      hide Step, Enabled, Owed;
    }
  }

  /** While no two different frames are owed, no continuation without a publish spoils the order. */
  lemma {:induction false} CalmStaysInOrder(trace: seq<Event>, more: seq<Event>, capacity: nat, c: ClientId)
    requires ValidTrace(trace, capacity) && ValidTrace(trace + more, capacity)
    requires forall e :: e in more ==> !e.BeginPublish?
    requires InOrder(After(trace, capacity), trace, c) && !AtRisk(After(trace, capacity), c)
    ensures InOrder(After(trace + more, capacity), trace + more, c) && !AtRisk(After(trace + more, capacity), c)
    decreases |more|
  {
    if more == [] {
      assert trace + more == trace;
    } else {
      var n := |more| - 1;
      var before, e := trace + more[..n], more[n];
      assert (trace + more)[..|trace + more| - 1] == before && trace + more == before + [e];
      assert e in more;
      CalmStaysInOrder(trace, more[..n], capacity, c);
      hide InOrder, AtRisk, Step;
      CalmStep(before, e, capacity, c);
    }
  }

  /** The trace goes on like this, without a publish, and leaves the client open and out of order. */
  ghost predicate Spoils(trace: seq<Event>, more: seq<Event>, capacity: nat, c: ClientId) {
    && ValidTrace(trace + more, capacity) && (forall e :: e in more ==> !e.BeginPublish?)
    && var s := After(trace + more, capacity); c in s.conns && !InOrder(s, trace + more, c)
  }

  /** Out of two frames owed, one is not the next. */
  lemma WrongOfferSpoils(trace: seq<Event>, frame: Frame, capacity: nat, c: ClientId)
    requires ValidTrace(trace, capacity) && InOrder(After(trace, capacity), trace, c)
    requires var s := After(trace, capacity);
             && !s.conns[c].closed && |s.conns[c].send| < capacity && Owed(s, c, frame) > 0
             && (var n := |Queued(s.conns[c])|; n < |Expected(trace, c)| ==> frame != Expected(trace, c)[n])
    ensures Spoils(trace, [OfferTo(c, frame, true)], capacity, c)
  {
    var s, e := After(trace, capacity), OfferTo(c, frame, true);
    assert (c, frame) in s.offers;
    TraceSnoc(trace, e, capacity);
    OfferInOrderIff(trace, e, capacity, c);
    hide After, ValidTrace, Queued, Expected;
  }

  /** A buffer that is full has room again after one write. */
  lemma WriteMakesRoom(trace: seq<Event>, capacity: nat, c: ClientId)
    requires ValidTrace(trace, capacity) && InOrder(After(trace, capacity), trace, c)
    requires capacity > 0 && !After(trace, capacity).conns[c].closed
    requires |After(trace, capacity).conns[c].send| == capacity
    ensures var s, t := After(trace, capacity), Step(After(trace, capacity), Write(c), capacity);
            && ValidTrace(trace + [Write(c)], capacity) && t == After(trace + [Write(c)], capacity)
            && c in t.conns && !t.conns[c].closed && |t.conns[c].send| < capacity
            && Queued(t.conns[c]) == Queued(s.conns[c]) && Expected(trace + [Write(c)], c) == Expected(trace, c)
            && forall f :: Owed(t, c, f) == Owed(s, c, f)
  {
    var s := After(trace, capacity);
    TraceSnoc(trace, Write(c), capacity);
    ExpectedSnoc(trace, Write(c), c);
    hide After, ValidTrace, Queued, Expected;
    QueueStays(s, Write(c), capacity, c);
  }

  lemma SpoilsAfter(trace: seq<Event>, e: Event, more: seq<Event>, capacity: nat, c: ClientId)
    requires !e.BeginPublish? && Spoils(trace + [e], more, capacity, c)
    ensures Spoils(trace, [e] + more, capacity, c)
  {
    hide After, ValidTrace, InOrder;
    assert trace + ([e] + more) == trace + [e] + more;
  }

  lemma RiskCanSpoil(trace: seq<Event>, f: Frame, g: Frame, capacity: nat, c: ClientId)
    requires ValidTrace(trace, capacity) && capacity > 0
    requires var s := After(trace, capacity);
             InOrder(s, trace, c) && !s.conns[c].closed && f != g && Owed(s, c, f) > 0 && Owed(s, c, g) > 0
    ensures exists more :: Spoils(trace, more, capacity, c)
  {
    BuffersStayBounded(trace, capacity, c);
    hide After, ValidTrace, Queued, Expected, Step, Owed, Spoils, Enabled;
    var s := After(trace, capacity);
    var n := |Queued(s.conns[c])|;
    var wrong := if n < |Expected(trace, c)| && f == Expected(trace, c)[n] then g else f;
    if |s.conns[c].send| < capacity {
      WrongOfferSpoils(trace, wrong, capacity, c);
    } else {
      WriteMakesRoom(trace, capacity, c);
      WrongOfferSpoils(trace + [Write(c)], wrong, capacity, c);
      SpoilsAfter(trace, Write(c), [OfferTo(c, wrong, true)], capacity, c);
    }
  }

  /**
   Exactly when overlapping publishes can reach an open client in the wrong order: when two
   different frames are owed to it at once. Then some continuation without another publish spoils
   the order, and otherwise none does.
   */
  lemma OrderAtRiskIff(trace: seq<Event>, capacity: nat, c: ClientId)
    requires ValidTrace(trace, capacity) && capacity > 0
    requires InOrder(After(trace, capacity), trace, c) && !After(trace, capacity).conns[c].closed
    ensures (exists more :: Spoils(trace, more, capacity, c)) <==> AtRisk(After(trace, capacity), c)
  {
    var s := After(trace, capacity);
    hide After, ValidTrace, InOrder, Owed;
    if AtRisk(s, c) {
      var f, g :| f != g && Owed(s, c, f) > 0 && Owed(s, c, g) > 0;
      RiskCanSpoil(trace, f, g, capacity, c);
    } else {
      forall more | Spoils(trace, more, capacity, c) ensures false {
        CalmStaysInOrder(trace, more, capacity, c);
      }
    }
  }

  lemma FirstInOrder(trace: seq<Event>, e: Event, capacity: nat, c: ClientId)
    requires ValidTrace(trace, capacity) && Enabled(After(trace, capacity), e)
    requires c !in After(trace, capacity).conns
    ensures var t := Step(After(trace, capacity), e, capacity);
            c in t.conns ==> InOrder(t, trace + [e], c)
  {
    var s := After(trace, capacity);
    ExpectedSnoc(trace, e, c);
    hide After, ValidTrace, Queued, Expected;
    if e.Connect? {
      QueueStays(s, e, capacity, c);
    }
  }

  /** At no moment before the end are two different frames owed to the client. */
  ghost predicate NeverAtRisk(trace: seq<Event>, capacity: nat, c: ClientId)
    requires ValidTrace(trace, capacity)
    decreases |trace|
  {
    trace == [] ||
    var n := |trace| - 1;
    NeverAtRisk(trace[..n], capacity, c) && !AtRisk(After(trace[..n], capacity), c)
  }

  /** So publishes may overlap, as long as they do not owe a client two frames at once. */
  lemma {:induction false} NeverAtRiskIsInOrder(trace: seq<Event>, capacity: nat, c: ClientId)
    requires ValidTrace(trace, capacity) && NeverAtRisk(trace, capacity, c)
    ensures c in After(trace, capacity).conns ==> InOrder(After(trace, capacity), trace, c)
    decreases |trace|
  {
    if trace == [] {
    } else {
      var n := |trace| - 1;
      var before, e := trace[..n], trace[n];
      var s := After(before, capacity);
      assert trace == before + [e];
      NeverAtRiskIsInOrder(before, capacity, c);
      hide AtRisk, InOrder;
      if c in s.conns {
        CalmStep(before, e, capacity, c);
      } else {
        FirstInOrder(before, e, capacity, c);
      }
    }
  }

  lemma JoinSteps(c: ClientId, channel: Channel, capacity: nat)
    ensures var s := State({c}, {}, map[c := Conn([], [], false)], multiset{});
            && Enabled(INITIAL, Connect(c)) && Step(INITIAL, Connect(c), capacity) == s
            && Enabled(s, Event.Subscribe(c, channel))
            && Step(s, Event.Subscribe(c, channel), capacity) == s.(subs := {(c, channel)})
  {
    hide Offer, Snapshot;
  }

  /** A client that has joined a channel. */
  lemma Joined(c: ClientId, channel: Channel, capacity: nat) returns (trace: seq<Event>)
    ensures ValidTrace(trace, capacity) && Expected(trace, c) == []
    ensures After(trace, capacity) == State({c}, {(c, channel)}, map[c := Conn([], [], false)], multiset{})
  {
    var e1, e2 := Connect(c), Event.Subscribe(c, channel);
    assert ValidTrace([], capacity) && After([], capacity) == INITIAL && Expected([], c) == [];
    JoinSteps(c, channel, capacity);
    hide ValidTrace, After, Expected, Step, Enabled;
    TraceSnoc([], e1, capacity);
    ExpectedSnoc([], e1, c);
    TraceSnoc([] + [e1], e2, capacity);
    ExpectedSnoc([] + [e1], e2, c);
    trace := [] + [e1] + [e2];
  }

  /** A publish to the one channel of the one client. */
  lemma PublishToOne(trace: seq<Event>, c: ClientId, channel: Channel, payload: int, capacity: nat)
    requires ValidTrace(trace, capacity) && After(trace, capacity).registered == {c}
    requires After(trace, capacity).subs == {(c, channel)}
    ensures var e, s := BeginPublish(channel, payload), After(trace, capacity);
            && ValidTrace(trace + [e], capacity)
            && Expected(trace + [e], c) == Expected(trace, c) + [App(channel, payload)]
            && After(trace + [e], capacity) == s.(offers := s.offers + multiset{(c, App(channel, payload))})
  {
    var e, s := BeginPublish(channel, payload), After(trace, capacity);
    TraceSnoc(trace, e, capacity);
    TraceAgrees(trace, capacity, c);
    assert (c, channel) in s.subs;
    ExpectedSnoc(trace, e, c);
    assert Snapshot(s, channel, App(channel, payload)) == {(c, App(channel, payload))};
  }

  /** That client, while two publishes to its channel are under way. */
  lemma TwoUnderWay(c: ClientId, channel: Channel, a: int, b: int, capacity: nat) returns (trace: seq<Event>)
    ensures ValidTrace(trace, capacity) && Expected(trace, c) == [App(channel, a), App(channel, b)]
    ensures After(trace, capacity)
            == State({c}, {(c, channel)}, map[c := Conn([], [], false)],
                     multiset{(c, App(channel, a)), (c, App(channel, b))})
  {
    var joined := Joined(c, channel, capacity);
    PublishToOne(joined, c, channel, a, capacity);
    PublishToOne(joined + [BeginPublish(channel, a)], c, channel, b, capacity);
    trace := joined + [BeginPublish(channel, a)] + [BeginPublish(channel, b)];
    hide After, Expected, ValidTrace;
  }

  lemma QueueBoth(a: Frame, b: Frame, capacity: nat)
    requires capacity >= 2
    ensures Offer(Conn([], [], false), b, capacity, true) == Conn([], [b], false)
    ensures Offer(Conn([], [b], false), a, capacity, true) == Conn([], [b, a], false)
  {
    assert [] + [b] == [b] && [b] + [a] == [b, a];
  }

  /** Both frames are offered, the later one first. */
  lemma OfferBoth(s: State, c: ClientId, a: Frame, b: Frame, capacity: nat)
    requires capacity >= 2 && s.conns == map[c := Conn([], [], false)] && s.offers == multiset{(c, a), (c, b)}
    ensures var e5, e6 := OfferTo(c, b, true), OfferTo(c, a, true);
            && Enabled(s, e5) && Enabled(Step(s, e5, capacity), e6)
            && Step(Step(s, e5, capacity), e6, capacity)
               == s.(conns := map[c := Conn([], [b, a], false)], offers := multiset{})
  {
    hide Offer;
    QueueBoth(a, b, capacity);
    var t := Step(s, OfferTo(c, b, true), capacity);
    assert t.offers == multiset{(c, a)} && t.conns == map[c := Conn([], [b], false)];
  }

  /** So it happens: two publishes overlap, and the later frame comes first. */
  lemma OverlapMayReorder(c: ClientId, channel: Channel, a: int, b: int, capacity: nat)
    requires a != b && capacity >= 2
    ensures exists trace :: ValidTrace(trace, capacity)
              && var s := After(trace, capacity);
                 && c in s.conns && !s.conns[c].closed && s.offers == multiset{}
                 && s.conns[c].send == [App(channel, b), App(channel, a)]
                 && Expected(trace, c) == [App(channel, a), App(channel, b)]
  {
    var trace := TwoUnderWay(c, channel, a, b, capacity);
    var e5, e6 := OfferTo(c, App(channel, b), true), OfferTo(c, App(channel, a), true);
    OfferBoth(After(trace, capacity), c, App(channel, a), App(channel, b), capacity);
    TraceSnoc(trace, e5, capacity);
    ExpectedSnoc(trace, e5, c);
    TraceSnoc(trace + [e5], e6, capacity);
    ExpectedSnoc(trace + [e5], e6, c);
    hide After, Expected, ValidTrace, Step, Enabled;
    assert ValidTrace(trace + [e5] + [e6], capacity);
  }

  /** The event closes c: it is told to, or is offered a frame when its buffer is full. */
  predicate Closes(s: State, e: Event, capacity: nat, c: ClientId) {
    || e == Event.SignalClose(c)
    || (((e.OfferTo? && e.c == c) || (e.QueueSystem? && e.c == c)) && c in s.conns && |s.conns[c].send| >= capacity)
  }

  /** Some event of the trace closes c. */
  ghost predicate HasClosed(trace: seq<Event>, capacity: nat, c: ClientId)
    requires ValidTrace(trace, capacity)
    decreases |trace|
  {
    trace != [] &&
    var n := |trace| - 1;
    HasClosed(trace[..n], capacity, c) || Closes(After(trace[..n], capacity), trace[n], capacity, c)
  }

  lemma ClosesIff(s: State, e: Event, capacity: nat, c: ClientId)
    requires Enabled(s, e)
    ensures var t := Step(s, e, capacity);
            && (c in s.conns ==> c in t.conns)
            && (c in s.conns ==> (t.conns[c].closed <==> s.conns[c].closed || Closes(s, e, capacity, c)))
            && (c !in s.conns && c in t.conns ==> !t.conns[c].closed && !Closes(s, e, capacity, c))
  {
    hide Snapshot, Offer;
    if e.OfferTo? {
      OfferMeans(s.conns[e.c], e.frame, capacity, Step(s, e, capacity).conns[e.c]);
    } else if e.QueueSystem? {
      OfferMeans(s.conns[e.c], System(e.payload), capacity, Step(s, e, capacity).conns[e.c]);
    }
  }

  lemma NotYetConnected(s: State, e: Event, capacity: nat, c: ClientId)
    requires Enabled(s, e) && c !in s.conns
    ensures !Closes(s, e, capacity, c)
  {
  }

  /**
   Exactly which clients are closed: those that were told to close, or were offered a frame when
   their buffer was full. A client that keeps up stays connected.
   */
  lemma {:induction false} ClosedIff(trace: seq<Event>, capacity: nat, c: ClientId)
    requires ValidTrace(trace, capacity)
    ensures var s := After(trace, capacity);
            (c in s.conns && s.conns[c].closed) <==> HasClosed(trace, capacity, c)
    decreases |trace|
  {
    if trace == [] {
    } else {
      var n := |trace| - 1;
      var s, e := After(trace[..n], capacity), trace[n];
      ClosedIff(trace[..n], capacity, c);
      hide Step, Closes, Enabled;
      ClosesIff(s, e, capacity, c);
      if c !in s.conns {
        NotYetConnected(s, e, capacity, c);
      }
    }
  }

  lemma ClosedStep(s: State, e: Event, capacity: nat, c: ClientId)
    requires Enabled(s, e) && c in s.conns && s.conns[c].closed
    ensures var t := Step(s, e, capacity); c in t.conns && t.conns[c].closed
  {
    hide Snapshot;
  }

  /** Once closed, a client stays closed: no run turns a lossy client back into a live one. */
  lemma {:induction false} ClosedForever(trace: seq<Event>, k: nat, capacity: nat, c: ClientId)
    requires ValidTrace(trace, capacity) && k <= |trace| && ValidTrace(trace[..k], capacity)
    requires var s := After(trace[..k], capacity); c in s.conns && s.conns[c].closed
    ensures var t := After(trace, capacity); c in t.conns && t.conns[c].closed
    decreases |trace|
  {
    if k < |trace| {
      var n := |trace| - 1;
      assert trace[..n][..k] == trace[..k];
      hide Step, Enabled;
      ClosedForever(trace[..n], k, capacity, c);
      ClosedStep(After(trace[..n], capacity), trace[n], capacity, c);
    } else {
      assert trace[..k] == trace;
    }
  }

  /** A client that has left is in no snapshot, so a finished publish owes it nothing. */
  lemma DepartedGetsNothingNew(trace: seq<Event>, capacity: nat, c: ClientId, channel: Channel)
    requires ValidTrace(trace, capacity) && !IsRegistered(trace, c)
    ensures !IsSubscribed(trace, c, channel)
    ensures (c, channel) !in After(trace, capacity).subs
  {
    TraceAgrees(trace, capacity, c);
  }
}
