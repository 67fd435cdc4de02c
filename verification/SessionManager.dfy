/**
 The worker's session manager. Session goroutines, kill signals and shutdown race with each other;
 every region under the manager's mutex is one step, and so is each call on its WaitGroup.
 */
module SessionManager {
  import opened Wrappers

  type Id = nat
  type ClientId = nat
  type Chan = nat
  type Gid = nat

  /** closes counts how often each kill channel was closed; nextChan is the next channel made. */
  datatype Mgr = Mgr(
    sessions: map<Id, Option<ClientId>>, kills: map<Id, Chan>, connecting: set<Id>,
    wg: int, shuttingDown: bool, closes: multiset<Chan>, nextChan: Chan)

  const EMPTY := Mgr(map[], map[], {}, 0, false, multiset{}, 0)

  /** A session of another client is replaced and keeps its place in the count. */
  predicate Replaces(m: Mgr, id: Id, client: Option<ClientId>) {
    id in m.sessions && m.sessions[id].Some? && m.sessions[id] != client
  }

  function WithSession(m: Mgr, id: Id, client: Option<ClientId>): Mgr {
    m.(wg := if Replaces(m, id, client) then m.wg else m.wg + 1,
       sessions := m.sessions[id := client], connecting := m.connecting - {id})
  }

  function WithoutSession(m: Mgr, id: Id): Mgr { m.(sessions := m.sessions - {id}) }

  /** connected: what IsConnected says of the session's client, if there is one. */
  predicate MayConnect(m: Mgr, id: Id, connected: bool) {
    && !m.shuttingDown && id !in m.connecting
    && !(id in m.sessions && m.sessions[id].Some? && connected)
  }

  function WithConnecting(m: Mgr, id: Id): Mgr { m.(connecting := m.connecting + {id}) }

  function WithoutConnecting(m: Mgr, id: Id): Mgr { m.(connecting := m.connecting - {id}) }

  function WithKill(m: Mgr, id: Id): Mgr {
    if id in m.kills then m
    else m.(kills := m.kills[id := m.nextChan], nextChan := m.nextChan + 1)
  }

  function WithoutKill(m: Mgr, id: Id): Mgr { m.(kills := m.kills - {id}) }

  /** A channel that is already closed is left alone. */
  function ClosedOnce(closes: multiset<Chan>, ch: Chan): multiset<Chan> {
    if ch in closes then closes else closes + multiset{ch}
  }

  function Killed(m: Mgr, id: Id): Mgr {
    if id in m.kills then m.(closes := ClosedOnce(m.closes, m.kills[id])) else m
  }

  /** These channels have been closed as well, those that were not before. */
  ghost predicate ClosedThese(before: multiset<Chan>, these: set<Chan>, now: multiset<Chan>) {
    forall ch :: now[ch] == if ch in these && ch !in before then 1 else before[ch]
  }

  ghost function Channels(kills: map<Id, Chan>, ids: set<Id>): set<Chan> {
    set id | id in ids && id in kills :: kills[id]
  }

  /** The locked part of Shutdown: every registered kill channel is closed and forgotten. */
  ghost predicate IsShutDown(m: Mgr, t: Mgr) {
    && t == m.(shuttingDown := true, kills := map[], closes := t.closes)
    && ClosedThese(m.closes, Channels(m.kills, m.kills.Keys), t.closes)
  }

  lemma CloseOneMore(before: multiset<Chan>, these: set<Chan>, now: multiset<Chan>, ch: Chan)
    requires ClosedThese(before, these, now)
    ensures ClosedThese(before, these + {ch}, ClosedOnce(now, ch))
  {
  }

  class Manager {
    var sessions: map<Id, Option<ClientId>>
    var kills: map<Id, Chan>
    var connecting: set<Id>
    var handlerWG: int
    var shuttingDown: bool
    var closes: multiset<Chan>
    var nextChan: Chan

    ghost function View(): Mgr
      reads this
    {
      Mgr(sessions, kills, connecting, handlerWG, shuttingDown, closes, nextChan)
    }

    constructor ()
      ensures View() == EMPTY
    {
      sessions, kills, connecting := map[], map[], {};
      handlerWG, shuttingDown, closes, nextChan := 0, false, multiset{}, 0;
    }

    method Set(id: Id, client: Option<ClientId>)
      modifies this
      ensures View() == WithSession(old(View()), id, client)
      ensures sessions == old(sessions)[id := client] && connecting == old(connecting) - {id}
      ensures kills == old(kills) && closes == old(closes) && shuttingDown == old(shuttingDown)
      ensures var other := id in old(sessions) && old(sessions)[id].Some? && old(sessions)[id] != client;
              handlerWG == old(handlerWG) + if other then 0 else 1
    {
      if id in sessions && sessions[id] != None && sessions[id] != client {
        // the old client is disconnected
      } else {
        handlerWG := handlerWG + 1;
      }
      sessions := sessions[id := client];
      connecting := connecting - {id};
    }

    /** The locked half of Delete; the call to Done follows without the lock. */
    method Remove(id: Id) returns (ok: bool)
      modifies this
      ensures ok == (id in old(sessions))
      ensures View() == WithoutSession(old(View()), id)
      ensures sessions == old(sessions) - {id} && handlerWG == old(handlerWG)
      ensures kills == old(kills) && connecting == old(connecting) && closes == old(closes)
    {
      if id !in sessions {
        assert sessions - {id} == sessions;
        return false;
      }
      sessions := sessions - {id};
      return true;
    }

    method Done()
      modifies this`handlerWG
      ensures handlerWG == old(handlerWG) - 1
    {
      handlerWG := handlerWG - 1;
    }

    method Delete(id: Id)
      modifies this
      ensures View() == if id in old(sessions)
                        then WithoutSession(old(View()), id).(wg := old(handlerWG) - 1) else old(View())
      ensures sessions == old(sessions) - {id} && kills == old(kills) && connecting == old(connecting)
      ensures handlerWG == old(handlerWG) - if id in old(sessions) then 1 else 0
    {
      var ok := Remove(id);
      if ok {
        Done();
      }
    }

    method TryStartConnect(id: Id, connected: bool) returns (ok: bool)
      modifies this`connecting
      ensures ok == MayConnect(old(View()), id, connected)
      ensures View() == if ok then WithConnecting(old(View()), id) else old(View())
      ensures ok <==> !shuttingDown && id !in old(connecting)
                      && (connected ==> id !in sessions || sessions[id].None?)
      ensures connecting == if ok then old(connecting) + {id} else old(connecting)
    {
      if shuttingDown {
        return false;
      }
      if id in connecting {
        return false;
      }
      if id in sessions && sessions[id] != None && connected {
        return false;
      }
      connecting := connecting + {id};
      return true;
    }

    method ClearConnecting(id: Id)
      modifies this`connecting
      ensures View() == WithoutConnecting(old(View()), id)
      ensures connecting == old(connecting) - {id}
    {
      connecting := connecting - {id};
    }

    method RegisterKill(id: Id) returns (ch: Chan)
      modifies this`kills, this`nextChan
      ensures View() == WithKill(old(View()), id)
      ensures id in kills && ch == kills[id]
      ensures if id in old(kills) then kills == old(kills) && nextChan == old(nextChan)
              else kills == old(kills)[id := old(nextChan)] && nextChan == old(nextChan) + 1
    {
      if id in kills {
        return kills[id];
      }
      ch := nextChan;
      nextChan := nextChan + 1;
      kills := kills[id := ch];
    }

    method CloseIfOpen(ch: Chan)
      modifies this`closes
      ensures closes == ClosedOnce(old(closes), ch)
    {
      if ch !in closes {
        closes := closes + multiset{ch};
      }
    }

    method SendKill(id: Id)
      modifies this`closes
      ensures View() == Killed(old(View()), id)
      ensures id !in kills ==> closes == old(closes)
      ensures id in kills ==>
                && closes[kills[id]] == (if old(closes)[kills[id]] == 0 then 1 else old(closes)[kills[id]])
                && forall ch :: ch != kills[id] ==> closes[ch] == old(closes)[ch]
    {
      if id in kills {
        CloseIfOpen(kills[id]);
      }
    }

    method CleanupKill(id: Id)
      modifies this`kills
      ensures View() == WithoutKill(old(View()), id)
      ensures kills == old(kills) - {id}
    {
      kills := kills - {id};
    }

    /** The locked part of Shutdown. A second call does nothing. */
    method BeginShutdown()
      modifies this
      ensures if old(shuttingDown) then View() == old(View()) else IsShutDown(old(View()), View())
      ensures shuttingDown && sessions == old(sessions) && connecting == old(connecting)
      ensures !old(shuttingDown) ==>
                && kills == map[] && handlerWG == old(handlerWG)
                && (forall id :: id in old(kills) ==> old(kills)[id] in closes)
                && (forall ch :: closes[ch] == old(closes)[ch]
                                 || (old(closes)[ch] == 0 && closes[ch] == 1 && ch in old(kills).Values))
    {
      if shuttingDown {
        return;
      }
      shuttingDown := true;
      ghost var before := kills;
      CloseAllKills();
      assert Channels(before, before.Keys) == before.Values;
      forall id | id in before ensures before[id] in closes {
        assert before[id] in Channels(before, before.Keys);
      }
    }

    method CloseAllKills()
      modifies this`kills, this`closes
      ensures kills == map[] && ClosedThese(old(closes), Channels(old(kills), old(kills).Keys), closes)
    {
      ghost var all := kills;
      ghost var gone: set<Id> := {};
      var left := kills.Keys;
      while left != {}
        invariant gone <= all.Keys && left == all.Keys - gone && kills == all - gone
        invariant ClosedThese(old(closes), Channels(all, gone), closes)
        decreases left
      {
        var id :| id in left;
        var ch := kills[id];
        CloseOneMore(old(closes), Channels(all, gone), closes, ch);
        CloseIfOpen(ch);
        assert Channels(all, gone + {id}) == Channels(all, gone) + {ch};
        kills := kills - {id};
        left := left - {id};
        gone := gone + {id};
      }
      assert gone == all.Keys && kills == map[];
    }
  }

  /* ---- Runs ---- */

  /** Where a start is. Launching: it has the right to connect and has not yet added itself. */
  datatype Place =
    | Launching | Resolving | HasSession | Serving | Cleared | Deleting | Deleted | KillCleaned

  datatype Routine = Routine(id: Id, at: Place)

  datatype State = State(m: Mgr, rs: map<Gid, Routine>, clients: set<ClientId>)

  const INITIAL := State(EMPTY, map[], {})

  datatype Event =
    | Start(g: Gid, id: Id, connected: bool)
    | Launch(g: Gid)
    | SetSession(g: Gid, client: ClientId)
    | RegisterKill(g: Gid)
    | Return(g: Gid)
    | Delete(g: Gid)
    | DeleteDone(g: Gid)
    | CleanupKill(g: Gid)
    | Exit(g: Gid)
    | SendKill(id: Id)
    | Shutdown(closes: multiset<Chan>)

  predicate IsAt(s: State, g: Gid, at: Place) { g in s.rs && s.rs[g].at == at }

  ghost predicate Enabled(s: State, e: Event) {
    match e
    case Start(g, id, connected) => g !in s.rs && MayConnect(s.m, id, connected)
    case Launch(g) => IsAt(s, g, Launching)
    case SetSession(g, client) => IsAt(s, g, Resolving) && client !in s.clients
    case RegisterKill(g) => IsAt(s, g, HasSession)
    case Return(g) => IsAt(s, g, Resolving) || IsAt(s, g, Serving)
    case Delete(g) => IsAt(s, g, Cleared)
    case DeleteDone(g) => IsAt(s, g, Deleting)
    case CleanupKill(g) => IsAt(s, g, Deleted)
    case Exit(g) => IsAt(s, g, KillCleaned)
    case SendKill(_) => true
    case Shutdown(closes) =>
      !s.m.shuttingDown
      && IsShutDown(s.m, s.m.(shuttingDown := true, kills := map[], closes := closes))
  }

  function Moved(s: State, g: Gid, at: Place, m: Mgr): State
    requires g in s.rs
  { s.(m := m, rs := s.rs[g := s.rs[g].(at := at)]) }

  ghost function Step(s: State, e: Event): State
    requires Enabled(s, e)
  {
    match e
    case Start(g, id, _) => s.(m := WithConnecting(s.m, id), rs := s.rs[g := Routine(id, Launching)])
    case Launch(g) => Moved(s, g, Resolving, s.m.(wg := s.m.wg + 1))
    case SetSession(g, client) =>
      Moved(s, g, HasSession, WithSession(s.m, s.rs[g].id, Some(client)))
        .(clients := s.clients + {client})
    case RegisterKill(g) => Moved(s, g, Serving, WithKill(s.m, s.rs[g].id))
    case Return(g) => Moved(s, g, Cleared, WithoutConnecting(s.m, s.rs[g].id))
    case Delete(g) =>
      if s.rs[g].id in s.m.sessions then Moved(s, g, Deleting, WithoutSession(s.m, s.rs[g].id))
      else Moved(s, g, Deleted, s.m)
    case DeleteDone(g) => Moved(s, g, Deleted, s.m.(wg := s.m.wg - 1))
    case CleanupKill(g) => Moved(s, g, KillCleaned, WithoutKill(s.m, s.rs[g].id))
    case Exit(g) => s.(m := s.m.(wg := s.m.wg - 1), rs := s.rs - {g})
    case SendKill(id) => s.(m := Killed(s.m, id))
    case Shutdown(closes) => s.(m := s.m.(shuttingDown := true, kills := map[], closes := closes))
  }

  ghost predicate ValidRun(s: State, run: seq<Event>)
    decreases |run|
  {
    run == [] || (Enabled(s, run[0]) && ValidRun(Step(s, run[0]), run[1..]))
  }

  ghost function Run(s: State, run: seq<Event>): State
    requires ValidRun(s, run)
    decreases |run|
  {
    if run == [] then s else Run(Step(s, run[0]), run[1..])
  }

  /* ---- WaitGroup accounting ---- */

  /** The goroutines that are running. */
  ghost function Live(s: State): set<Gid> { set g | g in s.rs && s.rs[g].at != Launching }

  /** The deletes between taking a session out of the map and calling Done. */
  ghost function BetweenDeletes(s: State): set<Gid> { set g | g in s.rs && s.rs[g].at == Deleting }

  ghost predicate Accounted(s: State) {
    s.m.wg == |Live(s)| + |s.m.sessions| + |BetweenDeletes(s)|
  }

  lemma SessionCount(m: map<Id, Option<ClientId>>, id: Id, c: Option<ClientId>)
    ensures |m[id := c]| == |m| + if id in m then 0 else 1
    ensures |m - {id}| == |m| - if id in m then 1 else 0
  {
    assert m[id := c].Keys == m.Keys + {id};
    assert (m - {id}).Keys == m.Keys - {id};
    if id in m {
      assert m.Keys == m.Keys + {id};
    } else {
      assert m.Keys - {id} == m.Keys;
    }
  }

  /** Moving one goroutine changes the two counts by that goroutine alone. */
  lemma MoveCounts(s: State, g: Gid, at: Place, m: Mgr)
    requires g in s.rs && s.rs[g].at != Launching && at != Launching
    ensures var t := Moved(s, g, at, m);
            && |Live(t)| == |Live(s)|
            && |BetweenDeletes(t)| + (if s.rs[g].at == Deleting then 1 else 0)
               == |BetweenDeletes(s)| + if at == Deleting then 1 else 0
  {
    var t := Moved(s, g, at, m);
    assert Live(t) == Live(s);
    if s.rs[g].at == Deleting {
      assert BetweenDeletes(s) == (BetweenDeletes(s) - {g}) + {g};
      assert BetweenDeletes(t) == if at == Deleting then BetweenDeletes(s) else BetweenDeletes(s) - {g};
    } else {
      assert BetweenDeletes(t) == if at == Deleting then BetweenDeletes(s) + {g} else BetweenDeletes(s);
    }
  }

  /**
   Exactly when Set keeps the account: unless the slot holds a session without a client, or of the
   very same client, for then it adds to the WaitGroup although no session is added.
   */
  lemma SetKeepsAccount(s: State, id: Id, client: Option<ClientId>)
    requires Accounted(s)
    ensures Accounted(s.(m := WithSession(s.m, id, client)))
            <==> id !in s.m.sessions || Replaces(s.m, id, client)
  {
    SessionCount(s.m.sessions, id, client);
    var t := s.(m := WithSession(s.m, id, client));
    assert Live(t) == Live(s) && BetweenDeletes(t) == BetweenDeletes(s);
  }

  /** A fresh client is in no session. */
  ghost predicate ClientsKnown(s: State) {
    forall id :: id in s.m.sessions ==> s.m.sessions[id].Some? && s.m.sessions[id].value in s.clients
  }

  lemma StepKeepsClients(s: State, e: Event)
    requires ClientsKnown(s) && Enabled(s, e)
    ensures ClientsKnown(Step(s, e))
  {
  }

  lemma SameCounts(s: State, t: State)
    requires s.rs == t.rs
    ensures Live(s) == Live(t) && BetweenDeletes(s) == BetweenDeletes(t)
  {
  }

  lemma SetSessionKeepsAccount(s: State, g: Gid, client: ClientId)
    requires Accounted(s) && ClientsKnown(s) && Enabled(s, SetSession(g, client))
    ensures Accounted(Step(s, SetSession(g, client)))
  {
    var id := s.rs[g].id;
    var t, u := Step(s, SetSession(g, client)), s.(m := WithSession(s.m, id, Some(client)));
    SetKeepsAccount(s, id, Some(client));
    SameCounts(s, u);
    MoveCounts(s, g, HasSession, u.m);
    SameCounts(t, Moved(s, g, HasSession, u.m));
  }

  /** The moves of a running goroutine that leave its client alone. */
  lemma MoveKeepsAccount(s: State, e: Event)
    requires e.RegisterKill? || e.Return? || e.Delete? || e.DeleteDone? || e.CleanupKill?
    requires Accounted(s) && Enabled(s, e)
    ensures Accounted(Step(s, e))
  {
    var t := Step(s, e);
    SessionCount(s.m.sessions, s.rs[e.g].id, None);
    MoveCounts(s, e.g, t.rs[e.g].at, t.m);
  }

  lemma StartKeepsAccount(s: State, e: Event)
    requires e.Start? && Accounted(s) && Enabled(s, e)
    ensures Accounted(Step(s, e))
  {
    var t := Step(s, e);
    assert Live(t) == Live(s);
    assert BetweenDeletes(t) == BetweenDeletes(s);
  }

  lemma LaunchKeepsAccount(s: State, g: Gid)
    requires Accounted(s) && Enabled(s, Launch(g))
    ensures Accounted(Step(s, Launch(g)))
  {
    var t := Step(s, Launch(g));
    assert Live(t) == Live(s) + {g};
    assert BetweenDeletes(t) == BetweenDeletes(s);
  }

  lemma ExitKeepsAccount(s: State, g: Gid)
    requires Accounted(s) && Enabled(s, Exit(g))
    ensures Accounted(Step(s, Exit(g)))
  {
    var t := Step(s, Exit(g));
    assert Live(s) == Live(t) + {g};
    assert BetweenDeletes(t) == BetweenDeletes(s);
  }

  lemma StepKeepsAccount(s: State, e: Event)
    requires Accounted(s) && ClientsKnown(s) && Enabled(s, e)
    ensures Accounted(Step(s, e))
  {
    match e {
      case Start(_, _, _) => StartKeepsAccount(s, e);
      case Launch(g) => LaunchKeepsAccount(s, g);
      case SetSession(g, client) => SetSessionKeepsAccount(s, g, client);
      case Exit(g) => ExitKeepsAccount(s, g);
      case SendKill(_) => SameCounts(s, Step(s, e));
      case Shutdown(_) => SameCounts(s, Step(s, e));
      case _ => MoveKeepsAccount(s, e);
    }
  }

  /* ---- Kill channels ---- */

  ghost predicate ClosedAtMostOnce(s: State) { forall ch :: s.m.closes[ch] <= 1 }

  lemma StepClosesOnce(s: State, e: Event)
    requires ClosedAtMostOnce(s) && Enabled(s, e)
    ensures ClosedAtMostOnce(Step(s, e))
  {
  }

  /* ---- Nothing is left behind ---- */

  /** Some goroutine of this id is at one of these places. */
  ghost predicate Owned(s: State, id: Id, places: set<Place>) {
    exists g :: g in s.rs && s.rs[g].id == id && s.rs[g].at in places
  }

  const SESSION_OWNERS: set<Place> := {HasSession, Serving, Cleared}
  const CONNECTING_OWNERS: set<Place> := {Launching, Resolving}
  const KILL_OWNERS: set<Place> := {Serving, Cleared, Deleting, Deleted}

  /** Every entry has a goroutine that is still going to remove it. */
  ghost predicate AllOwned(s: State) {
    && (forall id :: id in s.m.sessions ==> Owned(s, id, SESSION_OWNERS))
    && (forall id :: id in s.m.connecting ==> Owned(s, id, CONNECTING_OWNERS))
    && (forall id :: id in s.m.kills ==> Owned(s, id, KILL_OWNERS))
  }

  /** An owner stays one unless it is the goroutine that moved. */
  lemma OwnerStays(s: State, t: State, g: Gid, id: Id, places: set<Place>)
    requires Owned(s, id, places)
    requires forall x :: x in s.rs && x != g ==> x in t.rs && t.rs[x] == s.rs[x]
    requires g in s.rs && s.rs[g].id == id && s.rs[g].at in places ==> Owned(t, id, places)
    ensures Owned(t, id, places)
  {
    var x :| x in s.rs && s.rs[x].id == id && s.rs[x].at in places;
    if x != g { assert t.rs[x] == s.rs[x]; }
  }

  lemma MoveKeepsOwners(s: State, e: Event, g: Gid)
    requires AllOwned(s) && Enabled(s, e)
    requires e.Launch? || e.SetSession? || e.RegisterKill? || e.Return? || e.Delete?
             || e.DeleteDone? || e.CleanupKill? || e.Exit?
    requires g == e.g
    ensures AllOwned(Step(s, e))
  {
    var t := Step(s, e);
    assert !e.Exit? ==> g in t.rs && t.rs[g].id == s.rs[g].id;
    forall id | id in t.m.sessions ensures Owned(t, id, SESSION_OWNERS) {
      if e.SetSession? && id == s.rs[g].id {
        assert t.rs[g].at in SESSION_OWNERS;
      } else {
        OwnerStays(s, t, g, id, SESSION_OWNERS);
      }
    }
    forall id | id in t.m.connecting ensures Owned(t, id, CONNECTING_OWNERS) {
      OwnerStays(s, t, g, id, CONNECTING_OWNERS);
    }
    forall id | id in t.m.kills ensures Owned(t, id, KILL_OWNERS) {
      if e.RegisterKill? && id == s.rs[g].id {
        assert t.rs[g].at in KILL_OWNERS;
      } else {
        OwnerStays(s, t, g, id, KILL_OWNERS);
      }
    }
  }

  lemma StepKeepsOwners(s: State, e: Event)
    requires AllOwned(s) && Enabled(s, e)
    ensures AllOwned(Step(s, e))
  {
    var t := Step(s, e);
    match e {
      case Start(g, id, _) =>
        assert t.rs[g].at in CONNECTING_OWNERS;
        forall x, places | Owned(s, x, places) ensures Owned(t, x, places) {
          OwnerStays(s, t, g, x, places);
        }
      case SendKill(_) =>
      case Shutdown(_) =>
      case _ => MoveKeepsOwners(s, e, e.g);
    }
  }

  ghost predicate Inv(s: State) {
    Accounted(s) && ClientsKnown(s) && ClosedAtMostOnce(s) && AllOwned(s)
  }

  lemma {:induction false} RunKeepsInv(s: State, run: seq<Event>)
    requires Inv(s) && ValidRun(s, run)
    ensures Inv(Run(s, run))
    decreases |run|
  {
    if run == [] {
    } else {
      StepKeepsAccount(s, run[0]);
      StepKeepsClients(s, run[0]);
      StepClosesOnce(s, run[0]);
      StepKeepsOwners(s, run[0]);
      RunKeepsInv(Step(s, run[0]), run[1..]);
    }
  }

  lemma InitialOk()
    ensures Inv(INITIAL)
  {
    assert Live(INITIAL) == {} && BetweenDeletes(INITIAL) == {};
  }

  /**
   The main theorem, for every interleaving of starts, kills, deletes and shutdown: the WaitGroup
   counts the running goroutines, the sessions and the deletes not yet done, so it is never
   negative; no kill channel is closed twice; and when Wait can return there is no session left
   and no goroutine running.
   */
  lemma WaitGroupIsExact(run: seq<Event>)
    requires ValidRun(INITIAL, run)
    ensures var s := Run(INITIAL, run);
            && s.m.wg == |Live(s)| + |s.m.sessions| + |BetweenDeletes(s)| >= 0
            && (forall ch :: s.m.closes[ch] <= 1)
            && (s.m.wg == 0 ==> s.m.sessions == map[] && Live(s) == {})
  {
    InitialOk();
    RunKeepsInv(INITIAL, run);
    var s := Run(INITIAL, run);
    if s.m.wg == 0 { assert |s.m.sessions| == 0; }
  }

  lemma NoOwners(s: State)
    requires s.rs == map[] && AllOwned(s)
    ensures s.m.sessions.Keys == {} && s.m.connecting == {} && s.m.kills.Keys == {}
  {
    forall id ensures id !in s.m.sessions && id !in s.m.connecting && id !in s.m.kills {
      assert !Owned(s, id, SESSION_OWNERS) && !Owned(s, id, CONNECTING_OWNERS);
      assert !Owned(s, id, KILL_OWNERS);
    }
  }

  /** When the last goroutine is gone, the manager is empty: no session, mark or channel leaks. */
  lemma NothingLeaks(run: seq<Event>)
    requires ValidRun(INITIAL, run) && Run(INITIAL, run).rs == map[]
    ensures var m := Run(INITIAL, run).m;
            m.sessions == map[] && m.connecting == {} && m.kills == map[] && m.wg == 0
  {
    InitialOk();
    RunKeepsInv(INITIAL, run);
    var s := Run(INITIAL, run);
    NoOwners(s);
    assert s.m.sessions.Keys == {} && s.m.kills.Keys == {};
    assert Live(s) == {} && BetweenDeletes(s) == {};
  }

  /** After shutdown, with no start under way, nothing ever starts again. */
  lemma {:induction false} ShutdownIsFinal(s: State, run: seq<Event>)
    requires s.m.shuttingDown && s.rs == map[] && ValidRun(s, run)
    ensures Run(s, run).rs == map[] && Run(s, run).m.wg == s.m.wg
    decreases |run|
  {
    if run == [] {
    } else {
      ShutdownIsFinal(Step(s, run[0]), run[1..]);
    }
  }

  lemma LaunchRuns(s: State, g: Gid)
    requires IsAt(s, g, Launching)
    ensures ValidRun(s, [Launch(g)]) && g in Live(Run(s, [Launch(g)]))
  {
    var t := Step(s, Launch(g));
    assert [Launch(g)][1..] == [];
    assert ValidRun(t, []) && Run(t, []) == t;
  }

  /**
   Exactly when shutdown is the end: once Wait can return, some goroutine can still run if and only
   if a start was admitted and has not launched its goroutine yet.
   */
  lemma WaitCoversAllIff(run: seq<Event>)
    requires ValidRun(INITIAL, run)
    requires var s := Run(INITIAL, run); s.m.shuttingDown && s.m.wg == 0
    ensures var s := Run(INITIAL, run);
            (exists more :: ValidRun(s, more) && Live(Run(s, more)) != {}) <==> s.rs != map[]
  {
    WaitGroupIsExact(run);
    var s := Run(INITIAL, run);
    if s.rs != map[] {
      var g :| g in s.rs;
      assert g !in Live(s);
      LaunchRuns(s, g);
    } else {
      forall more | ValidRun(s, more) ensures Live(Run(s, more)) == {} {
        ShutdownIsFinal(s, more);
      }
    }
  }

  /** So it happens: Wait can return, and a goroutine runs afterwards. */
  lemma LateStartOutlivesShutdown()
    ensures exists run, k :: 0 <= k <= |run|
              && ValidRun(INITIAL, run) && ValidRun(INITIAL, run[..k])
              && Run(INITIAL, run[..k]).m.shuttingDown && Run(INITIAL, run[..k]).m.wg == 0
              && Live(Run(INITIAL, run)) != {}
  {
    var e0, e1, e2 := Start(0, 1, false), Shutdown(multiset{}), Launch(0);
    var s1 := Step(INITIAL, e0);
    var s2 := Step(s1, e1);
    var s3 := Step(s2, e2);
    var run := [e0, e1, e2];
    assert run[1..] == [e1, e2] && run[1..][1..] == [e2] && [e2][1..] == [];
    var before := run[..2];
    assert before == [e0, e1] && before[1..] == [e1] && [e1][1..] == [];
    assert ValidRun(s3, []) && Run(s3, []) == s3;
    assert ValidRun(s2, [e2]) && Run(s2, [e2]) == s3;
    assert ValidRun(s1, run[1..]) && Run(s1, run[1..]) == s3;
    assert ValidRun(s2, []) && ValidRun(s1, [e1]) && Run(s1, [e1]) == s2;
    assert 0 in Live(s3);
  }
}
