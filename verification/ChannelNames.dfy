/**
 The names under which the backend publishes ticket frames are those that the browser joins. Each
 side spells them out on its own.
 */
module ChannelNames {
  import EventKey
  import SocketClient
  import opened Tickets

  function StatusName(s: Status): string {
    match s case Pending => "pending" case Open => "open" case Closed => "closed"
  }

  /** The name that the backend publishes under. */
  function ChannelName(ch: Channel): string {
    match ch
    case StatusChannel(s) => "tickets:" + StatusName(s)
    case TicketChannel(id) => "ticket:" + EventKey.PrintNat(id)
    case Notification => "notification"
  }

  /** Joining a tab, a chat box or the notifications subscribes to what is published for it. */
  lemma JoinsMeetPublishes(s: Status, id: nat)
    ensures SocketClient.EmitToMessages(SocketClient.JoinTickets(StatusName(s)))
            == [SocketClient.Subscribe(ChannelName(StatusChannel(s)))]
    ensures SocketClient.EmitToMessages(SocketClient.JoinChatBox(EventKey.PrintNat(id)))
            == [SocketClient.Subscribe(ChannelName(TicketChannel(id)))]
    ensures SocketClient.EmitToMessages(SocketClient.JoinNotification)
            == [SocketClient.Subscribe(ChannelName(Notification)), SocketClient.Subscribe("global")]
  {
  }

  /** The second frames unsubscribe from what the first ones subscribe to. */
  predicate Undoes(joins: seq<SocketClient.Frame>, leaves: seq<SocketClient.Frame>) {
    && |joins| == |leaves|
    && (forall i :: 0 <= i < |joins| ==>
          joins[i].Subscribe? && leaves[i] == SocketClient.Unsubscribe(joins[i].channel))
  }

  /** Leaving names the same channels, in the same order. */
  lemma LeavesMatchJoins(ticket: string, status: string)
    ensures Undoes(SocketClient.EmitToMessages(SocketClient.JoinChatBox(ticket)),
                   SocketClient.EmitToMessages(SocketClient.LeaveChatBox(ticket)))
    ensures Undoes(SocketClient.EmitToMessages(SocketClient.JoinTickets(status)),
                   SocketClient.EmitToMessages(SocketClient.LeaveTickets(status)))
    ensures Undoes(SocketClient.EmitToMessages(SocketClient.JoinNotification),
                   SocketClient.EmitToMessages(SocketClient.LeaveNotification))
    ensures SocketClient.EmitToMessages(SocketClient.Unknown) == []
  {
  }

  lemma NameBegins(ch: Channel)
    ensures var x := ChannelName(ch);
            && |x| >= 7
            && (ch.StatusChannel? <==> x[0] == 't' && x[6] == 's')
            && (ch.TicketChannel? <==> x[0] == 't' && x[6] == ':')
  {
  }

  lemma StatusNamesDiffer(a: Status, b: Status)
    requires StatusName(a) == StatusName(b)
    ensures a == b
  {
    assert StatusName(Pending)[0] == 'p' && StatusName(Open)[0] == 'o' && StatusName(Closed)[0] == 'c';
  }

  /** Different channels have different names, so nobody hears frames meant for others. */
  lemma NamesDiffer(a: Channel, b: Channel)
    requires ChannelName(a) == ChannelName(b)
    ensures a == b
  {
    var x, y := ChannelName(a), ChannelName(b);
    NameBegins(a);
    NameBegins(b);
    if a.StatusChannel? {
      assert x[8..] == StatusName(a.status) && y[8..] == StatusName(b.status);
      StatusNamesDiffer(a.status, b.status);
    } else if a.TicketChannel? {
      assert x[7..] == EventKey.PrintNat(a.id) && y[7..] == EventKey.PrintNat(b.id);
      EventKey.ValueOfPrint(a.id);
      EventKey.ValueOfPrint(b.id);
    }
  }
}
