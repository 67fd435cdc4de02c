/**
 The WebSocket hub of the backend. Two maps index the same subscriptions from both sides, and each
 client has a bounded send buffer; a client that cannot keep up is closed. Clients are opaque
 identities here, and a client's buffer and its closed mark are one Conn value.
 */
module HubIndex {
  import opened Wrappers

  type ClientId = nat
  type Channel = string

  datatype Frame = App(channel: Channel, payload: int) | System(payload: int)

  /** written: frames the write pump has taken. send: frames waiting. closed: closed is closed. */
  datatype Conn = Conn(written: seq<Frame>, send: seq<Frame>, closed: bool)

  datatype Stats = Stats(activeConnections: nat, activeChannels: nat, totalSubscriptions: nat)

  /**
   The select that offers a frame to one client. With both cases ready Go picks either, so a
   closed client with room may still take the frame: `take` is that choice.
   */
  function Offer(conn: Conn, frame: Frame, capacity: nat, take: bool): Conn {
    var room := |conn.send| < capacity;
    if room && (!conn.closed || take) then conn.(send := conn.send + [frame])
    else if conn.closed then conn
    else conn.(closed := true)
  }

  /**
   What one offer may do, said without the select: an open client with room gets exactly the frame
   and stays open; one without room is closed; a closed one stays closed and may still get it.
   */
  predicate Offered(was: Conn, frame: Frame, capacity: nat, now: Conn) {
    var queued := was.(send := was.send + [frame]);
    if !was.closed && |was.send| < capacity then now == queued
    else if !was.closed then now == was.(closed := true)
    else now == was || (|was.send| < capacity && now == queued)
  }

  /** Every offer is one of those, and every one of those is an offer. */
  lemma OfferMeans(was: Conn, frame: Frame, capacity: nat, now: Conn)
    ensures Offered(was, frame, capacity, now) <==> exists take :: now == Offer(was, frame, capacity, take)
  {
    assert Offered(was, frame, capacity, now) ==>
             now == Offer(was, frame, capacity, true) || now == Offer(was, frame, capacity, false);
  }

  /** A frame is never skipped silently: it is queued, or the client is closed. */
  lemma OfferNeverSkips(conn: Conn, frame: Frame, capacity: nat, take: bool)
    ensures var after := Offer(conn, frame, capacity, take);
            && (after.closed || after.send == conn.send + [frame])
            && (conn.closed ==> after.closed)
            && (!conn.closed && |conn.send| >= capacity ==> after.closed && after.send == conn.send)
            && (|conn.send| <= capacity ==> |after.send| <= capacity)
  {
  }

  /* ---- Counting subscriptions from either side ---- */

  ghost function PairsOf<K, V>(m: map<K, set<V>>): set<(K, V)> {
    set k, v | k in m && v in m[k] :: (k, v)
  }

  ghost function Total<K, V>(m: map<K, set<V>>): nat
    decreases |m|
  {
    if m == map[] then 0
    else
      var k :| k in m;
      assert |m - {k}| < |m| by { assert (m - {k}).Keys == m.Keys - {k}; }
      |m[k]| + Total(m - {k})
  }

  lemma {:induction false} RowSize<K, V>(k: K, vs: set<V>)
    ensures |set v | v in vs :: (k, v)| == |vs|
  {
    if vs == {} {
    } else {
      var x :| x in vs;
      RowSize(k, vs - {x});
      assert (set v | v in vs :: (k, v)) == (set v | v in vs - {x} :: (k, v)) + {(k, x)};
    }
  }

  lemma PairsWithoutRow<K, V>(m: map<K, set<V>>, k: K)
    requires k in m
    ensures |PairsOf(m)| == |m[k]| + |PairsOf(m - {k})|
  {
    var row := set v | v in m[k] :: (k, v);
    RowSize(k, m[k]);
    assert PairsOf(m) == row + PairsOf(m - {k});
    assert row !! PairsOf(m - {k});
  }

  lemma {:induction false} TotalCountsPairs<K, V>(m: map<K, set<V>>)
    ensures Total(m) == |PairsOf(m)|
    decreases |m|
  {
    if m == map[] {
      assert PairsOf(m) == {};
    } else {
      var k :| k in m && Total(m) == |m[k]| + Total(m - {k});
      assert (m - {k}).Keys == m.Keys - {k};
      PairsWithoutRow(m, k);
      TotalCountsPairs(m - {k});
    }
  }

  lemma {:induction false} SwapSize<K, V>(ps: set<(K, V)>)
    ensures |set p | p in ps :: (p.1, p.0)| == |ps|
  {
    if ps == {} {
    } else {
      var x :| x in ps;
      SwapSize(ps - {x});
      assert (set p | p in ps :: (p.1, p.0)) == (set p | p in ps - {x} :: (p.1, p.0)) + {(x.1, x.0)};
    }
  }

  /** Mutually inverse indexes: the same pairs, read from both sides, and no empty channel. */
  ghost predicate Mirrors(clients: map<ClientId, set<Channel>>, channels: map<Channel, set<ClientId>>) {
    && (forall c, ch :: (c in clients && ch in clients[c]) <==> (ch in channels && c in channels[ch]))
    && (forall ch :: ch in channels ==> channels[ch] != {})
  }

  /** Take a client out of a channel; a channel left empty disappears. */
  function DropMember(channels: map<Channel, set<ClientId>>, channel: Channel, c: ClientId)
    : (r: map<Channel, set<ClientId>>)
    ensures forall ch, x :: (ch in r && x in r[ch]) <==>
                            (ch in channels && x in channels[ch] && (ch != channel || x != c))
    ensures (forall ch :: ch in channels ==> channels[ch] != {}) ==>
              forall ch :: ch in r ==> r[ch] != {}
  {
    if channel !in channels then channels
    else
      var members := channels[channel] - {c};
      assert forall x :: x in channels[channel] && x != c ==> x in members;
      if members == {} then channels - {channel} else channels[channel := members]
  }

  /** Either index lists the pairs of the other one turned around. */
  lemma PairsMirror(clients: map<ClientId, set<Channel>>, channels: map<Channel, set<ClientId>>)
    requires Mirrors(clients, channels)
    ensures PairsOf(clients) == set p | p in PairsOf(channels) :: (p.1, p.0)
  {
    var ps := PairsOf(channels);
    forall c, ch ensures (c, ch) in PairsOf(clients) <==> (ch, c) in ps {
      assert (c, ch) in PairsOf(clients) <==> c in clients && ch in clients[c];
      assert (ch, c) in ps <==> ch in channels && c in channels[ch];
    }
    hide PairsOf, Mirrors;
    var turned := set p | p in ps :: (p.1, p.0);
    forall c, ch ensures (c, ch) in PairsOf(clients) <==> (c, ch) in turned {
      if (ch, c) in ps { assert (c, ch) in turned; }
    }
  }

  /** Summing over clients and summing over channels gives the same number of subscriptions. */
  lemma TotalsAgree(clients: map<ClientId, set<Channel>>, channels: map<Channel, set<ClientId>>)
    requires Mirrors(clients, channels)
    ensures Total(clients) == Total(channels)
  {
    hide PairsOf, Mirrors, Total;
    TotalCountsPairs(clients);
    TotalCountsPairs(channels);
    PairsMirror(clients, channels);
    SwapSize(PairsOf(channels));
  }

  /* ---- The hub ---- */

  class Hub {
    var channels: map<Channel, set<ClientId>>
    var clients: map<ClientId, set<Channel>>
    var conns: map<ClientId, Conn>
    var shuttingDown: bool
    const capacity: nat

    ghost predicate Valid()
      reads this
    {
      Mirrors(clients, channels) && clients.Keys <= conns.Keys
    }

    /** The subscriptions the two maps stand for. */
    ghost function Subscriptions(): set<(ClientId, Channel)>
      reads this
    {
      PairsOf(clients)
    }

    constructor (clientWriteBuffer: int)
      ensures Valid() && clients == map[] && channels == map[] && conns == map[] && !shuttingDown
      ensures capacity == if clientWriteBuffer <= 0 then 64 else clientWriteBuffer
    {
      channels, clients, conns, shuttingDown := map[], map[], map[], false;
      capacity := if clientWriteBuffer <= 0 then 64 else clientWriteBuffer;
    }

    /** newClient and registerClient: a fresh connection with an empty buffer. */
    method RegisterClient(c: ClientId)
      requires Valid()
      modifies this
      ensures Valid() && unchanged(`channels) && unchanged(`shuttingDown)
      ensures clients.Keys == old(clients.Keys) + {c} && Subscriptions() == old(Subscriptions())
      ensures conns == if c in old(conns) then old(conns) else old(conns)[c := Conn([], [], false)]
    {
      if c !in conns {
        conns := conns[c := Conn([], [], false)];
      }
      if c !in clients {
        clients := clients[c := {}];
      }
    }

    method UnregisterClient(c: ClientId)
      requires Valid()
      modifies this`channels, this`clients
      ensures Valid()
      ensures clients == old(clients) - {c}
      ensures Subscriptions() == set p | p in old(Subscriptions()) && p.0 != c
      ensures forall ch :: ch in channels ==> c !in channels[ch]
    {
      if c !in clients {
        return;
      }
      var left := clients[c];
      while left != {}
        invariant clients == old(clients) && left <= clients[c]
        invariant forall ch, x :: (ch in channels && x in channels[ch]) <==>
                                  (x in clients && ch in clients[x] && (x != c || ch in left))
        invariant forall ch :: ch in channels ==> channels[ch] != {}
        decreases left
      {
        var channel :| channel in left;
        channels := DropMember(channels, channel, c);
        left := left - {channel};
      }
      clients := clients - {c};
    }

    method Subscribe(c: ClientId, channel: Channel)
      requires Valid()
      modifies this`channels, this`clients
      ensures Valid() && clients.Keys == old(clients.Keys)
      ensures Subscriptions() == old(Subscriptions()) + if c in old(clients) then {(c, channel)} else {}
    {
      if c !in clients || channel in clients[c] {
        return;
      }
      clients := clients[c := clients[c] + {channel}];
      var members := if channel in channels then channels[channel] else {};
      channels := channels[channel := members + {c}];
    }

    method Unsubscribe(c: ClientId, channel: Channel)
      requires Valid()
      modifies this`channels, this`clients
      ensures Valid() && clients.Keys == old(clients.Keys)
      ensures Subscriptions() == old(Subscriptions()) - {(c, channel)}
    {
      if c !in clients || channel !in clients[c] {
        return;
      }
      clients := clients[c := clients[c] - {channel}];
      channels := DropMember(channels, channel, c);
    }

    /** The total is the number of subscriptions, and the same summed over the channels. */
    method GetStats() returns (s: Stats)
      requires Valid()
      ensures s.activeConnections == |clients| && s.activeChannels == |channels|
      ensures s.totalSubscriptions == |Subscriptions()| == Total(clients) == Total(channels)
    {
      var total := 0;
      var left := clients;
      while left != map[]
        invariant total + |PairsOf(left)| == |PairsOf(clients)|
        decreases |left|
      {
        var c :| c in left;
        PairsWithoutRow(left, c);
        assert (left - {c}).Keys == left.Keys - {c};
        total := total + |left[c]|;
        left := left - {c};
      }
      TotalCountsPairs(clients);
      TotalsAgree(clients, channels);
      return Stats(|clients|, |channels|, total);
    }

    /** signalClose: closing twice is closing once. */
    method SignalClose(c: ClientId)
      requires c in conns
      modifies this`conns
      ensures conns == old(conns)[c := old(conns)[c].(closed := true)]
    {
      if !conns[c].closed {
        conns := conns[c := conns[c].(closed := true)];
      }
    }

    /** One non-blocking send, as Publish and queueSystem do it. */
    method Send(c: ClientId, frame: Frame) returns (ghost take: bool)
      requires c in conns
      modifies this`conns
      ensures conns == old(conns)[c := Offer(old(conns)[c], frame, capacity, take)]
      ensures conns.Keys == old(conns).Keys && (forall x :: x in conns && x != c ==> conns[x] == old(conns)[x])
      ensures Offered(old(conns)[c], frame, capacity, conns[c])
    {
      var conn := conns[c];
      var either: bool := *;
      take := either;
      if |conn.send| < capacity && (!conn.closed || either) {
        conns := conns[c := conn.(send := conn.send + [frame])];
      } else if !conn.closed {
        SignalClose(c);
      }
    }

    /**
     Publish: every member of the channel at the time is offered the frame once, nobody else is
     touched. None stands for data that cannot be marshalled.
     */
    method Publish(channel: Channel, payload: Option<int>)
      requires Valid()
      modifies this`conns
      ensures Valid() && conns.Keys == old(conns.Keys)
      ensures forall c :: c in conns ==>
                if !shuttingDown && payload.Some? && (c, channel) in Subscriptions()
                then Offered(old(conns)[c], App(channel, payload.value), capacity, conns[c])
                else conns[c] == old(conns)[c]
    {
      if shuttingDown || payload.None? {
        return;
      }
      if channel !in channels {
        return;
      }
      var frame := App(channel, payload.value);
      var targets := channels[channel];
      while targets != {}
        invariant targets <= channels[channel] && conns.Keys == old(conns.Keys)
        invariant forall c :: c in conns ==>
                    if c in channels[channel] - targets then Offered(old(conns)[c], frame, capacity, conns[c])
                    else conns[c] == old(conns)[c]
        decreases targets
      {
        var c :| c in targets;
        var _ := Send(c, frame);
        targets := targets - {c};
      }
    }
  }
}
