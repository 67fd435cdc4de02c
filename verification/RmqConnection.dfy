/**
 The life of a RabbitMQ connection, without Shutdown. Other goroutines look at the client at any
 time, so each write to the fields is one observable moment, which Record appends to a history, and the
 theorems are about every moment of every history.
 */
module RmqConnection {
  import opened Wrappers

  datatype ConnState = Disconnected | Connecting | Connected | Disabled | ShuttingDown

  /** The fields as another goroutine could see them; true means set. */
  datatype Moment = Moment(
    state: ConnState, conn: bool, publishCh: bool, confirms: bool, replyCh: bool, replyQueue: bool)

  const NEW := Moment(Disconnected, false, false, false, false, false)

  predicate Complete(m: Moment) {
    m.conn && m.publishCh && m.confirms && m.replyCh && m.replyQueue
  }

  predicate Bare(m: Moment) {
    !m.conn && !m.publishCh && !m.confirms && !m.replyCh && !m.replyQueue
  }

  /** What one write changes: the state, or the fields behind one of the three locks. */
  predicate OneWrite(a: Moment, b: Moment) {
    || b == a.(state := b.state)
    || b == a.(conn := b.conn)
    || b == a.(publishCh := b.publishCh, confirms := b.confirms)
    || b == a.(replyCh := b.replyCh, replyQueue := b.replyQueue)
  }

  /**
   No write is left out; connected means everything is set; and once disabled the client stays
   disabled.
   */
  ghost predicate Sound(history: seq<Moment>) {
    && (forall i :: 0 < i < |history| ==> OneWrite(history[i - 1], history[i]))
    && (forall i :: 0 <= i < |history| && history[i].state == Connected ==> Complete(history[i]))
    && (forall i, j :: 0 <= i < j < |history| && history[i].state == Disabled ==>
                         history[j].state == Disabled)
  }

  ghost predicate NeverDisabled(history: seq<Moment>) {
    forall i :: 0 <= i < |history| ==> history[i].state != Disabled
  }

  lemma StillEnabled(history: seq<Moment>)
    requires Sound(history) && history != [] && history[|history| - 1].state != Disabled
    ensures NeverDisabled(history)
  {
  }

  /** How one dial ends: no connection, a connection whose setup fails at some stage, or success. */
  datatype Dial = DialFails | SetupFails(stage: SetupStage) | Succeeds

  datatype SetupStage =
    | PublishChannel | EnableConfirms | Exchanges | Queues | ReplyChannel | ReplyQueue | Subscribe

  datatype Error = DialError | SetupError(stage: SetupStage) | ContextDone | InvalidState(s: ConnState)

  /** The first dial that succeeds, or how many there are. */
  function FirstSuccess(dials: seq<Dial>): (k: nat)
    ensures k <= |dials|
    ensures k < |dials| ==> dials[k] == Succeeds
    ensures forall i :: 0 <= i < k ==> dials[i] != Succeeds
  {
    if dials == [] || dials[0] == Succeeds then 0 else 1 + FirstSuccess(dials[1..])
  }

  function Min(a: nat, b: nat): nat { if a < b then a else b }

  /** What can end a connection that is up: the run is cancelled, a clean close, or a loss
      followed by a new round of dials, cancelled before one of them or not. */
  datatype Ending = RunDone | CleanClose | Lost(dials: seq<Dial>, cancelBefore: nat)

  /** None of the first n dials got as far as a connection. */
  predicate NoneConnects(dials: seq<Dial>, n: nat) {
    forall i :: 0 <= i < n && i < |dials| ==> dials[i] == DialFails
  }

  /** A round of dials connects if one succeeds before the attempts, or the context, run out. */
  predicate Connects(attempts: nat, dials: seq<Dial>, cancelBefore: nat) {
    FirstSuccess(dials) < Min(attempts, cancelBefore)
  }

  /** Where a connected client ends: the first loss it cannot repair disables it, whatever follows. */
  function EndState(attempts: nat, endings: seq<Ending>): ConnState {
    if endings == [] then Connected
    else match endings[0]
      case RunDone => Connected
      case CleanClose => Connected
      case Lost(dials, cancelBefore) =>
        if Connects(attempts, dials, cancelBefore) then EndState(attempts, endings[1..]) else Disabled
  }

  class Client {
    var state: ConnState
    var conn: bool
    var publishCh: bool
    var confirms: bool
    var replyCh: bool
    var replyQueue: bool
    const attempts: nat

    /** How many AMQP channels the client has open on its connection. */
    var channels: nat

    ghost var history: seq<Moment>

    function Now(): Moment
      reads this
    {
      Moment(state, conn, publishCh, confirms, replyCh, replyQueue)
    }

    ghost predicate Valid()
      reads this
    {
      && attempts > 0
      && history != [] && history[|history| - 1] == Now()
      && Sound(history)
    }

    constructor (reconnectAttempts: int)
      ensures Valid() && Now() == NEW && history == [NEW] && channels == 0
      ensures attempts == if reconnectAttempts <= 0 then 10 else reconnectAttempts
    {
      state := Disconnected;
      conn, publishCh, confirms, replyCh, replyQueue := false, false, false, false, false;
      attempts := if reconnectAttempts <= 0 then 10 else reconnectAttempts;
      channels := 0;
      history := [NEW];
    }

    /** The fields have just been written; from now on everyone sees them so. */
    ghost method Record()
      requires attempts > 0 && history != [] && Sound(history) && NeverDisabled(history)
      requires OneWrite(history[|history| - 1], Now())
      requires state == Connected ==> Complete(Now())
      modifies this`history
      ensures Valid() && old(history) <= history && |history| == |old(history)| + 1
      ensures state != Disabled ==> NeverDisabled(history)
    {
      history := history + [Now()];
    }

    /**
     setupChannels: the fields are written only when every stage has succeeded, and a stage that
     fails closes exactly the channels that were opened before it.
     */
    method SetupChannels(dial: Dial) returns (r: Result<(), Error>)
      requires Valid() && NeverDisabled(history)
      requires state == Connecting
      modifies this
      ensures Valid() && NeverDisabled(history) && old(history) <= history
      ensures !old(conn) ==> r.Err?
      ensures r.Ok? <==> old(conn) && dial == Succeeds
      ensures r.Err? && old(conn) && dial.SetupFails? ==> r == Err(SetupError(dial.stage))
      ensures Now() == if r.Ok? then Moment(Connecting, true, true, true, true, true) else old(Now())
      ensures channels == old(channels) + if r.Ok? then 2 else 0
    {
      hide Sound, NeverDisabled;
      if !conn || dial == DialFails {
        return Err(DialError);
      }
      if dial == SetupFails(PublishChannel) {
        return Err(SetupError(PublishChannel));
      }
      channels := channels + 1;
      if dial == SetupFails(EnableConfirms) || dial == SetupFails(Exchanges) || dial == SetupFails(Queues)
         || dial == SetupFails(ReplyChannel) {
        channels := channels - 1;
        return Err(SetupError(dial.stage));
      }
      channels := channels + 1;
      if dial.SetupFails? {
        assert dial.stage == ReplyQueue || dial.stage == Subscribe;
        channels := channels - 1;
        channels := channels - 1;
        return Err(SetupError(dial.stage));
      }
      publishCh, confirms := true, true;
      Record();
      replyCh, replyQueue := true, true;
      Record();
      return Ok(());
    }

    /** One turn of dialAndSetup. */
    method DialOnce(dial: Dial) returns (r: Result<(), Error>)
      requires Valid() && NeverDisabled(history) && state == Connecting
      modifies this
      ensures Valid() && NeverDisabled(history) && old(history) <= history
      ensures r.Ok? <==> dial == Succeeds
      ensures r != Err(ContextDone)
      ensures Now() == if r.Ok? then Moment(Connecting, true, true, true, true, true)
                       else old(Now()).(conn := old(conn) && dial == DialFails)
      ensures channels == old(channels) + if r.Ok? then 2 else 0
    {
      hide Sound, NeverDisabled;
      if dial == DialFails {
        return Err(DialError);
      }
      conn := true;
      Record();
      var setup := SetupChannels(dial);
      if setup.Err? {
        conn := false;
        Record();
        return Err(SetupError(dial.stage));
      }
      return Ok(());
    }

    /**
     dialAndSetup: at most `attempts` dials, fewer if one succeeds or the context is done first;
     afterwards either everything is set, or nothing has changed but that a connection is dropped.
     */
    method DialAndSetup(dials: seq<Dial>, cancelBefore: nat)
      returns (r: Result<(), Error>, dialed: nat)
      requires Valid() && NeverDisabled(history) && |dials| == attempts
      requires state == Connecting
      modifies this
      ensures Valid() && NeverDisabled(history) && old(history) <= history
      ensures dialed == Min(Min(FirstSuccess(dials) + 1, attempts), cancelBefore)
      ensures r.Ok? <==> Connects(attempts, dials, cancelBefore)
      ensures r == Err(ContextDone) <==> cancelBefore < attempts && cancelBefore <= FirstSuccess(dials)
      ensures r.Ok? ==> Now() == Moment(Connecting, true, true, true, true, true)
      ensures r.Err? ==> Now() == old(Now()).(conn := old(conn) && NoneConnects(dials, dialed))
      ensures channels == old(channels) + if r.Ok? then 2 else 0
    {
      hide Sound, NeverDisabled;
      var attempt := 0;
      var lastErr := DialError;
      dialed := 0;
      while attempt < attempts
        invariant Valid() && NeverDisabled(history) && old(history) <= history
        invariant attempts == |dials| && Now() == old(Now()).(conn := old(conn) && NoneConnects(dials, dialed))
        invariant attempt == dialed <= Min(attempts, cancelBefore)
        invariant dialed <= FirstSuccess(dials)
        invariant lastErr != ContextDone && channels == old(channels)
      {
        if attempt == cancelBefore {
          return Err(ContextDone), dialed;
        }
        dialed := dialed + 1;
        var turn := DialOnce(dials[attempt]);
        if turn.Ok? {
          return Ok(()), dialed;
        }
        lastErr := turn.error;
        attempt := attempt + 1;
      }
      return Err(lastErr), dialed;
    }

    method Start(dials: seq<Dial>, cancelBefore: nat) returns (r: Result<(), Error>)
      requires Valid() && |dials| == attempts
      modifies this
      ensures Valid() && old(history) <= history
      ensures old(state) != Disconnected ==>
                r == Err(InvalidState(old(state))) && Now() == old(Now()) && history == old(history)
      ensures old(state) == Disconnected ==>
                && (r.Ok? <==> Connects(attempts, dials, cancelBefore))
                && state == if r.Ok? then Connected else Disabled
      ensures r.Ok? ==> NeverDisabled(history)
      ensures channels == old(channels) + if r.Ok? then 2 else 0
    {
      hide Sound, NeverDisabled;
      if state != Disconnected {
        return Err(InvalidState(state));
      }
      StillEnabled(history);
      state := Connecting;
      Record();
      var dialed;
      r, dialed := DialAndSetup(dials, cancelBefore);
      state := if r.Ok? then Connected else Disabled;
      Record();
    }

    method ForgetChannels()
      requires Valid() && NeverDisabled(history) && state == Disconnected
      modifies this
      ensures Valid() && NeverDisabled(history) && old(history) <= history
      ensures Now() == Moment(Disconnected, old(conn), false, false, false, false)
      ensures channels == old(channels)
    {
      hide Sound, NeverDisabled;
      publishCh, confirms := false, false;
      Record();
      replyCh, replyQueue := false, false;
      Record();
    }

    /** The first half of a turn after a loss, which closed all channels: nothing is left set. */
    method ForgetConnection()
      requires Valid() && NeverDisabled(history)
      modifies this
      ensures Valid() && NeverDisabled(history) && old(history) <= history
      ensures Now() == Moment(Connecting, false, false, false, false, false) && channels == 0
    {
      hide Sound, NeverDisabled;
      channels := 0;
      state := Disconnected;
      Record();
      ForgetChannels();
      conn := false;
      Record();
      state := Connecting;
      Record();
    }

    /** One turn of reconnectLoop; `on` tells whether the loop goes on watching. */
    method Reconnect(ending: Ending) returns (on: bool)
      requires Valid() && NeverDisabled(history) && state == Connected
      requires ending.Lost? ==> |ending.dials| == attempts
      modifies this
      ensures Valid() && old(history) <= history
      ensures on ==> state == Connected && NeverDisabled(history)
      ensures !ending.Lost? ==> !on && Now() == old(Now()) && channels == old(channels)
      ensures ending.Lost? ==> channels == if on then 2 else 0
      ensures ending.Lost? ==>
                && (on <==> Connects(attempts, ending.dials, ending.cancelBefore))
                && (!on ==> state == Disabled && Bare(Now()))
    {
      hide Sound, NeverDisabled;
      match ending {
        case RunDone => return false;
        case CleanClose => return false;
        case Lost(dials, cancelBefore) =>
          ForgetConnection();
          var r, _ := DialAndSetup(dials, cancelBefore);
          on := r.Ok?;
          state := if on then Connected else Disabled;
          Record();
      }
    }

    /**
     A whole life: start, then one reconnect after another for as long as the loop runs. At every
     moment on the way a connected client is complete and a disabled one stays disabled, and it
     ends connected just when the first round and every round after a loss connects, with two open
     channels then and with none otherwise.
     */
    method Live(dials: seq<Dial>, cancelBefore: nat, endings: seq<Ending>)
      requires Valid() && Now() == NEW && history == [NEW] && channels == 0
      requires |dials| == attempts
      requires forall e :: e in endings && e.Lost? ==> |e.dials| == attempts
      modifies this
      ensures Valid() && history[0] == NEW
      ensures channels == if state == Connected then 2 else 0
      ensures state == if Connects(attempts, dials, cancelBefore) then EndState(attempts, endings)
                       else Disabled
    {
      var started := Start(dials, cancelBefore);
      if started.Err? {
        return;
      }
      var i, on := 0, true;
      while on && i < |endings|
        invariant 0 <= i <= |endings| && Valid() && history[0] == NEW
        invariant state == Connected || state == Disabled
        invariant channels == if state == Connected then 2 else 0
        invariant on ==> state == Connected && NeverDisabled(history)
        invariant EndState(attempts, endings) == if on then EndState(attempts, endings[i..]) else state
      {
        assert endings[i..][1..] == endings[i + 1..];
        on := Reconnect(endings[i]);
        i := i + 1;
      }
    }
  }
}
