/**
 Publisher confirms on one RabbitMQ channel. Publishes are serialised: each sends, then waits for
 the next confirm of the stream. The broker confirms in order. A wait given up by timeout or
 cancellation leaves its confirm in the stream for a later publish to read.
 */
module PublisherConfirms {
  import opened RmqConnection
  import opened Wrappers

  /** How the wait of one send ended. Read(i, ack): it read the i-th confirm of the channel. */
  datatype Wait = Waiting | Read(index: nat, ack: bool) | Abandoned | StreamClosed

  /** One channel: the waits of its sends in order, the broker's confirms, how many were read. */
  datatype Stream = Stream(waits: seq<Wait>, confirms: seq<bool>, read: nat, open: bool)

  const FRESH := Stream([], [], 0, true)

  datatype Event = Send | Confirm(ack: bool) | ReadConfirm | Abandon | Close | ReadClosed

  predicate IsWaiting(s: Stream) { s.waits != [] && s.waits[|s.waits| - 1] == Waiting }

  predicate Enabled(s: Stream, e: Event) {
    match e
    case Send => s.open && !IsWaiting(s)
    case Confirm(_) => s.open && |s.confirms| < |s.waits|
    case ReadConfirm => IsWaiting(s) && s.read < |s.confirms|
    case Abandon => IsWaiting(s)
    case Close => s.open
    case ReadClosed => IsWaiting(s) && !s.open && s.read == |s.confirms|
  }

  function Ended(s: Stream, w: Wait): Stream
    requires s.waits != []
  { s.(waits := s.waits[|s.waits| - 1 := w]) }

  function Step(s: Stream, e: Event): Stream
    requires Enabled(s, e)
  {
    match e
    case Send => s.(waits := s.waits + [Waiting])
    case Confirm(ack) => s.(confirms := s.confirms + [ack])
    case ReadConfirm => Ended(s, Read(s.read, s.confirms[s.read])).(read := s.read + 1)
    case Abandon => Ended(s, Abandoned)
    case Close => s.(open := false)
    case ReadClosed => Ended(s, StreamClosed)
  }

  predicate ValidRun(s: Stream, run: seq<Event>)
    decreases |run|
  {
    run == [] || (Enabled(s, run[0]) && ValidRun(Step(s, run[0]), run[1..]))
  }

  function Run(s: Stream, run: seq<Event>): Stream
    requires ValidRun(s, run)
    decreases |run|
  {
    if run == [] then s else Run(Step(s, run[0]), run[1..])
  }

  /** How many of these waits were given up. */
  function GivenUp(waits: seq<Wait>): nat {
    if waits == [] then 0
    else GivenUp(waits[..|waits| - 1]) + if waits[|waits| - 1] == Abandoned then 1 else 0
  }

  lemma {:induction false} GivenUpBounded(waits: seq<Wait>)
    ensures GivenUp(waits) <= |waits|
    ensures forall j :: 0 <= j < |waits| && waits[j] == Abandoned ==> GivenUp(waits) > 0
  {
    if waits == [] {
    } else {
      GivenUpBounded(waits[..|waits| - 1]);
    }
  }

  /** What the j-th wait read, if it read: the confirm of send j minus the waits given up. */
  ghost predicate Aligned(s: Stream, j: nat)
    requires j < |s.waits|
  {
    s.waits[j].Read? ==>
      && s.waits[j].index == j - GivenUp(s.waits[..j])
      && s.waits[j].index < s.read <= |s.confirms|
      && s.confirms[s.waits[j].index] == s.waits[j].ack
  }

  /** The last send has not used up a confirm: it waits, or its stream closed. */
  predicate Unserved(s: Stream) {
    s.waits != [] && (s.waits[|s.waits| - 1] == Waiting || s.waits[|s.waits| - 1] == StreamClosed)
  }

  ghost predicate Inv(s: Stream) {
    && s.read <= |s.confirms| <= |s.waits|
    && s.read + GivenUp(s.waits) + (if Unserved(s) then 1 else 0) == |s.waits|
    && (s.open && s.waits != [] ==> s.waits[|s.waits| - 1] != StreamClosed)
    && (forall j :: 0 <= j < |s.waits| ==> Aligned(s, j))
  }

  lemma AlignedStays(s: Stream, t: Stream, j: nat)
    requires j < |s.waits| <= |t.waits| && Aligned(s, j)
    requires s.waits[..j + 1] == t.waits[..j + 1]
    requires s.read <= t.read <= |t.confirms| && s.confirms <= t.confirms
    ensures Aligned(t, j)
  {
    assert s.waits[j] == s.waits[..j + 1][j] == t.waits[j];
    assert s.waits[..j] == s.waits[..j + 1][..j] == t.waits[..j];
  }

  lemma EndKeepsInv(s: Stream, e: Event)
    requires Inv(s) && Enabled(s, e) && (e == ReadConfirm || e == Abandon || e == ReadClosed)
    ensures Inv(Step(s, e))
  {
    var t, n := Step(s, e), |s.waits|;
    assert t.waits[..n - 1] == s.waits[..n - 1];
    forall j | 0 <= j < n ensures Aligned(t, j) {
      if j < n - 1 {
        assert t.waits[..j + 1] == s.waits[..j + 1];
        AlignedStays(s, t, j);
      }
    }
  }

  lemma StepKeepsInv(s: Stream, e: Event)
    requires Inv(s) && Enabled(s, e)
    ensures Inv(Step(s, e))
  {
    match e {
      case Send =>
        var t, n := Step(s, e), |s.waits|;
        assert t.waits[..n] == s.waits;
        forall j | 0 <= j < |t.waits| ensures Aligned(t, j) {
          if j < n {
            assert t.waits[..j + 1] == s.waits[..j + 1];
            AlignedStays(s, t, j);
          }
        }
      case Confirm(_) =>
        var t := Step(s, e);
        forall j | 0 <= j < |t.waits| ensures Aligned(t, j) { AlignedStays(s, t, j); }
      case Close =>
        var t := Step(s, e);
        forall j | 0 <= j < |t.waits| ensures Aligned(t, j) { AlignedStays(s, t, j); }
      case _ => EndKeepsInv(s, e);
    }
  }

  lemma {:induction false} RunKeepsInv(s: Stream, run: seq<Event>)
    requires Inv(s) && ValidRun(s, run)
    ensures Inv(Run(s, run))
    decreases |run|
  {
    if run == [] {
    } else {
      StepKeepsInv(s, run[0]);
      RunKeepsInv(Step(s, run[0]), run[1..]);
    }
  }

  /**
   Confirm alignment: send j reads confirm j - a, where a counts the earlier waits given up on the
   channel. So it reads its own confirm if and only if a is zero.
   */
  lemma ConfirmsAlign(run: seq<Event>, j: nat)
    requires ValidRun(FRESH, run)
    requires var s := Run(FRESH, run); j < |s.waits| && s.waits[j].Read?
    ensures var s := Run(FRESH, run);
            var a := GivenUp(s.waits[..j]);
            && s.waits[j].index == j - a
            && s.waits[j].index < |s.confirms| && s.confirms[j - a] == s.waits[j].ack
            && (s.waits[j].index == j <==> a == 0)
  {
    RunKeepsInv(FRESH, run);
    assert Aligned(Run(FRESH, run), j);
    GivenUpBounded(Run(FRESH, run).waits[..j]);
  }

  lemma {:induction false} NoneGivenUp(waits: seq<Wait>)
    requires Abandoned !in waits
    ensures GivenUp(waits) == 0
  {
    if waits == [] {
    } else {
      assert forall w :: w in waits[..|waits| - 1] ==> w in waits;
      NoneGivenUp(waits[..|waits| - 1]);
    }
  }

  /** With no wait given up before it, a publish that reports success was acked by the broker. */
  lemma SuccessMeansAcked(run: seq<Event>, j: nat)
    requires ValidRun(FRESH, run)
    requires var s := Run(FRESH, run);
             j < |s.waits| && s.waits[j].Read? && s.waits[j].ack && Abandoned !in s.waits[..j]
    ensures var s := Run(FRESH, run); j < |s.confirms| && s.confirms[j]
  {
    ConfirmsAlign(run, j);
    NoneGivenUp(Run(FRESH, run).waits[..j]);
  }

  lemma RunCons(end: Stream, e: Event, s: Stream, rest: seq<Event>)
    requires Enabled(s, e) && ValidRun(Step(s, e), rest) && Run(Step(s, e), rest) == end
    ensures ValidRun(s, [e] + rest) && Run(s, [e] + rest) == end
  {
    assert ([e] + rest)[1..] == rest;
  }

  /* ---- When a success can mean nothing ---- */

  /** One of these sends was told of success, and the broker refused its message. */
  ghost predicate Misreports(s: Stream, from: nat) {
    exists j :: from <= j < |s.waits| && j < |s.confirms|
                && s.waits[j].Read? && s.waits[j].ack && !s.confirms[j]
  }

  /** Going on like this without giving up another wait ends in such a report. */
  ghost predicate LeadsToMisreport(s: Stream, more: seq<Event>, from: nat) {
    ValidRun(s, more) && Abandon !in more && Misreports(Run(s, more), from)
  }

  predicate Idle(s: Stream) { s.open && !IsWaiting(s) }

  lemma LeadsCons(s: Stream, e: Event, more: seq<Event>, from: nat)
    requires Enabled(s, e) && e != Abandon && LeadsToMisreport(Step(s, e), more, from)
    ensures LeadsToMisreport(s, [e] + more, from)
  {
    RunCons(Run(Step(s, e), more), e, s, more);
  }

  /** The broker refuses the next messages it has not answered, n of them. */
  lemma {:induction false} RefusalsMisreport(s: Stream, n: nat, from: nat) returns (more: seq<Event>)
    requires s.open && |s.confirms| + n <= |s.waits| && n > 0
    requires from <= |s.confirms| + n - 1
    requires var j := |s.confirms| + n - 1; s.waits[j].Read? && s.waits[j].ack
    ensures LeadsToMisreport(s, more, from)
    decreases n
  {
    var t := Step(s, Confirm(false));
    if n == 1 {
      assert !t.confirms[|s.confirms|];
      assert Misreports(t, from);
      assert ValidRun(t, []) && Run(t, []) == t;
      more := [];
    } else {
      more := RefusalsMisreport(t, n - 1, from);
    }
    LeadsCons(s, Confirm(false), more, from);
    more := [Confirm(false)] + more;
  }

  /** One wait given up: the next send reads a confirm that comes for an earlier message. */
  lemma StaleReadMisreports(s: Stream, from: nat) returns (more: seq<Event>)
    requires Idle(s) && Inv(s) && s.read == |s.confirms| && GivenUp(s.waits) > 0 && from <= |s.waits|
    ensures LeadsToMisreport(s, more, from)
  {
    var s1 := Step(s, Send);
    var s2 := Step(s1, Confirm(true));
    var s3 := Step(s2, ReadConfirm);
    assert s3.waits[|s.waits|] == Read(s.read, true);
    more := RefusalsMisreport(s3, GivenUp(s.waits), from);
    LeadsCons(s2, ReadConfirm, more, from);
    LeadsCons(s1, Confirm(true), [ReadConfirm] + more, from);
    LeadsCons(s, Send, [Confirm(true)] + ([ReadConfirm] + more), from);
    more := [Send] + ([Confirm(true)] + ([ReadConfirm] + more));
  }

  /** Before that, each send reads one of the confirms that are there. */
  lemma {:induction false} GivenUpMisreports(s: Stream, from: nat) returns (more: seq<Event>)
    requires Idle(s) && Inv(s) && GivenUp(s.waits) > 0 && from <= |s.waits|
    ensures LeadsToMisreport(s, more, from)
    decreases |s.confirms| - s.read
  {
    if s.read == |s.confirms| {
      more := StaleReadMisreports(s, from);
    } else {
      var s1 := Step(s, Send);
      var s2 := Step(s1, ReadConfirm);
      StepKeepsInv(s, Send);
      StepKeepsInv(s1, ReadConfirm);
      assert s2.waits[..|s.waits|] == s.waits;
      more := GivenUpMisreports(s2, from);
      LeadsCons(s1, ReadConfirm, more, from);
      LeadsCons(s, Send, [ReadConfirm] + more, from);
      more := [Send] + ([ReadConfirm] + more);
    }
  }

  lemma StepGivesUpNone(s: Stream, e: Event)
    requires Enabled(s, e) && e != Abandon && GivenUp(s.waits) == 0
    ensures GivenUp(Step(s, e).waits) == 0
  {
    var t := Step(s, e);
    if e == Send {
      assert t.waits[..|s.waits|] == s.waits;
    } else if e == ReadConfirm || e == ReadClosed {
      assert t.waits[..|t.waits| - 1] == s.waits[..|s.waits| - 1];
    }
  }

  lemma {:induction false} RunGivesUpNone(s: Stream, more: seq<Event>)
    requires ValidRun(s, more) && Abandon !in more && GivenUp(s.waits) == 0
    ensures GivenUp(Run(s, more).waits) == 0
    decreases |more|
  {
    if more == [] {
    } else {
      assert more[0] in more && forall e :: e in more[1..] ==> e in more;
      StepGivesUpNone(s, more[0]);
      RunGivesUpNone(Step(s, more[0]), more[1..]);
    }
  }

  lemma {:induction false} NoneGivenUpBefore(waits: seq<Wait>, j: nat)
    requires GivenUp(waits) == 0 && j <= |waits|
    ensures GivenUp(waits[..j]) == 0
    decreases |waits|
  {
    if j == |waits| {
      assert waits[..j] == waits;
    } else {
      NoneGivenUpBefore(waits[..|waits| - 1], j);
      assert waits[..|waits| - 1][..j] == waits[..j];
    }
  }

  lemma NoMisreport(s: Stream, more: seq<Event>, from: nat)
    requires Inv(s) && GivenUp(s.waits) == 0 && ValidRun(s, more) && Abandon !in more
    ensures !Misreports(Run(s, more), from)
  {
    RunKeepsInv(s, more);
    RunGivesUpNone(s, more);
    var t := Run(s, more);
    forall j | from <= j < |t.waits| && j < |t.confirms| && t.waits[j].Read?
      ensures t.waits[j].ack == t.confirms[j]
    {
      assert Aligned(t, j);
      NoneGivenUpBefore(t.waits, j);
    }
  }

  /**
   Exactly when a success can still mean nothing: from any channel that is open and idle, without
   giving up another wait, some later publish can be told of success for a message that the broker
   refused if and only if a wait on this channel was given up before.
   */
  lemma MisreportsIffGivenUp(run: seq<Event>)
    requires ValidRun(FRESH, run) && Idle(Run(FRESH, run))
    ensures var s := Run(FRESH, run);
            (exists more :: LeadsToMisreport(s, more, |s.waits|)) <==> GivenUp(s.waits) > 0
  {
    RunKeepsInv(FRESH, run);
    var s := Run(FRESH, run);
    if GivenUp(s.waits) > 0 {
      var more := GivenUpMisreports(s, |s.waits|);
    } else {
      forall more | LeadsToMisreport(s, more, |s.waits|) ensures false {
        NoMisreport(s, more, |s.waits|);
      }
    }
  }

  /** So it happens: one abandoned wait, and the next publish reports success for a refused message. */
  lemma StaleConfirmMisreports()
    ensures exists run ::
              && ValidRun(FRESH, run)
              && var s := Run(FRESH, run);
                 |s.waits| == 2 == |s.confirms| && s.waits[1].Read? && s.waits[1].ack && !s.confirms[1]
  {
    var s1 := Step(FRESH, Send);
    var s2 := Step(s1, Abandon);
    var s3 := Step(s2, Confirm(true));
    var s4 := Step(s3, Send);
    var s5 := Step(s4, ReadConfirm);
    var s6 := Step(s5, Confirm(false));
    RunCons(s6, Confirm(false), s5, []);
    RunCons(s6, ReadConfirm, s4, [Confirm(false)]);
    RunCons(s6, Send, s3, [ReadConfirm, Confirm(false)]);
    RunCons(s6, Confirm(true), s2, [Send, ReadConfirm, Confirm(false)]);
    RunCons(s6, Abandon, s1, [Confirm(true), Send, ReadConfirm, Confirm(false)]);
    RunCons(s6, Send, FRESH, [Abandon, Confirm(true), Send, ReadConfirm, Confirm(false)]);
  }

  /* ---- publishBytes ---- */

  datatype Failure =
    | Disabled | ShuttingDown | NotConnected | SendFailed | ConnectionLost | Nacked | ConfirmTimeout
    | Cancelled

  /** How the wait ends: the first two read the stream, the others leave it alone. */
  datatype Ending = ByConfirm | ByClosedStream | ByTimeout | ByCancel

  /** What the caller is told about a wait that ended so. */
  predicate Reports(w: Wait, ending: Ending, r: Result<(), Failure>) {
    match ending
    case ByConfirm => w.Read? && r == if w.ack then Ok(()) else Err(Nacked)
    case ByClosedStream => w == StreamClosed && r == Err(ConnectionLost)
    case ByTimeout => w == Abandoned && r == Err(ConfirmTimeout)
    case ByCancel => w == Abandoned && r == Err(Cancelled)
  }

  /** The stream once a message is sent and some confirms have come in. */
  function Sent(s: Stream, arriving: seq<bool>): (t: Stream)
    requires s.open && !IsWaiting(s) && |s.confirms| + |arriving| <= |s.waits| + 1
    ensures IsWaiting(t) && t.open
  {
    s.(waits := s.waits + [Waiting], confirms := s.confirms + arriving)
  }

  lemma {:induction false} SentKeepsInv(s: Stream, arriving: seq<bool>)
    requires s.open && !IsWaiting(s) && |s.confirms| + |arriving| <= |s.waits| + 1 && Inv(s)
    ensures Inv(Sent(s, arriving))
  {
    if arriving == [] {
      StepKeepsInv(s, Send);
      assert s.confirms + arriving == s.confirms;
    } else {
      var n := |arriving| - 1;
      SentKeepsInv(s, arriving[..n]);
      StepKeepsInv(Sent(s, arriving[..n]), Confirm(arriving[n]));
      assert s.confirms + arriving == s.confirms + arriving[..n] + [arriving[n]];
    }
  }

  /** Whether a publish gets as far as the broker. */
  predicate Sends(before: ConnState, inside: ConnState, ready: bool, sendFails: bool) {
    before == Connected && inside == Connected && ready && !sendFails
  }

  class Publisher {
    var stream: Stream

    constructor ()
      ensures stream == FRESH
    {
      stream := FRESH;
    }

    /**
     One publish. `before` and `inside` are the connection state at the two checks, without and
     with the publish lock; `ready` says that the channel and its confirms are set; `arriving` are
     the confirms that come in during the wait. A send on a closed channel fails.
     */
    method PublishBytes(before: ConnState, inside: ConnState, ready: bool, sendFails: bool,
                        arriving: seq<bool>, ending: Ending)
      returns (r: Result<(), Failure>)
      requires !IsWaiting(stream) && Inv(stream)
      requires Sends(before, inside, ready, sendFails) ==>
                 && stream.open && |stream.confirms| + |arriving| <= |stream.waits| + 1
                 && (ending == ByConfirm ==> stream.read < |stream.confirms| + |arriving|)
                 && (ending == ByClosedStream ==> stream.read == |stream.confirms| + |arriving|)
      modifies this
      ensures Inv(stream) && !IsWaiting(stream)
      ensures before != Connected ==> r == Err(match before
                                               case Disabled => Failure.Disabled
                                               case ShuttingDown => Failure.ShuttingDown
                                               case _ => NotConnected)
      ensures before == Connected && (inside != Connected || !ready) ==> r == Err(NotConnected)
      ensures before != Connected || inside != Connected || !ready || sendFails ==>
                stream == old(stream)
      ensures before == inside == Connected && ready && sendFails ==> r == Err(SendFailed)
      ensures before == inside == Connected && ready && !sendFails ==>
                && stream.confirms == old(stream).confirms + arriving
                && |stream.waits| == |old(stream).waits| + 1
                && stream.waits[..|old(stream).waits|] == old(stream).waits
                && Reports(stream.waits[|old(stream).waits|], ending, r)
      ensures r.Ok? <==> Sends(before, inside, ready, sendFails) && ending == ByConfirm
                         && (old(stream).confirms + arriving)[old(stream).read]
    {
      match before {
        case Disabled => return Err(Failure.Disabled);
        case ShuttingDown => return Err(Failure.ShuttingDown);
        case Connected =>
        case _ => return Err(NotConnected);
      }
      if inside != Connected || !ready {
        return Err(NotConnected);
      }
      if sendFails {
        return Err(SendFailed);
      }
      SentKeepsInv(stream, arriving);
      hide Inv, Reports, Aligned;
      stream := Sent(stream, arriving);
      r := Await(ending);
    }

    method Await(ending: Ending) returns (r: Result<(), Failure>)
      requires stream.open && IsWaiting(stream) && Inv(stream)
      requires ending == ByConfirm ==> stream.read < |stream.confirms|
      requires ending == ByClosedStream ==> stream.read == |stream.confirms|
      modifies this
      ensures Inv(stream) && !IsWaiting(stream) && stream.confirms == old(stream).confirms
      ensures var n := |old(stream).waits| - 1;
              && |stream.waits| == n + 1 && stream.waits[..n] == old(stream).waits[..n]
              && Reports(stream.waits[n], ending, r)
      ensures r.Ok? <==> ending == ByConfirm && old(stream).confirms[old(stream).read]
    {
      match ending {
        case ByConfirm =>
          StepKeepsInv(stream, ReadConfirm);
          var ack := stream.confirms[stream.read];
          stream := Step(stream, ReadConfirm);
          r := if ack then Ok(()) else Err(Nacked);
        case ByClosedStream =>
          StepKeepsInv(stream, Close);
          stream := Step(stream, Close);
          StepKeepsInv(stream, ReadClosed);
          stream := Step(stream, ReadClosed);
          r := Err(ConnectionLost);
        case ByTimeout =>
          StepKeepsInv(stream, Abandon);
          stream := Step(stream, Abandon);
          r := Err(ConfirmTimeout);
        case ByCancel =>
          StepKeepsInv(stream, Abandon);
          stream := Step(stream, Abandon);
          r := Err(Cancelled);
      }
    }
  }
}
