# WhaTicket: a verified model

WhaTicket is a shared inbox for WhatsApp. A Go backend keeps contacts, tickets and messages in
PostgreSQL and pushes changes to browsers over WebSockets; Go workers hold the WhatsApp sessions;
backend and workers talk over RabbitMQ. This project models the places where a small body of code has
to keep an invariant over unbounded runs, and proves that it does, or exactly when it does.

`dafny verify dfyconfig.toml` checks everything.

## How it is built

Code that changes state is a class with the same fields and methods, each method proved against a
function of the old state. Concurrent code is modelled twice over: its locked regions as methods, and
its runs as sequences of events, where one event is one locked region, one channel operation, one
transaction or one frame. A theorem about runs quantifies over every event sequence that the code
allows, and uses the same functions that the methods are proved against. What these functions come to
is also stated without them, column by column, place by place or buffer by buffer. Tables are finite maps,
clients and goroutines are opaque numbers, the broker is a set of multisets.

| Module | What it is about |
|---|---|
| `MessageWindow` | The chat box: the page query, the merging reducer, and why the list is always a window |
| `SocketClient` | The browser's reference-counted socket, with resubscribe and replay after a drop |
| `HubIndex`, `HubDelivery` | The backend's hub: two inverse maps, bounded buffers, lossless-or-closed delivery |
| `Tickets`, `TicketRuns`, `TicketTab` | Find, reopen or create; what the ticket table keeps; a browser tab as a replica of it |
| `RmqConnection`, `PublisherConfirms`, `RpcCorrelation`, `RmqDelivery` | The RabbitMQ client's four protocols |
| `SessionManager` | The worker's sessions, kill channels and WaitGroup |
| `Contacts`, `ExtraInfo` | Contact identity and merge; custom fields |
| `LikeSearch`, `Base64`, `DataUrl`, `EventKey`, `ChannelNames` | Texts that one side writes and the other reads |
| `Text`, `Wrappers` | String helpers of Go's library, Option and Result |

## What the code does not do

The code and what one would expect of it part ways in some places. The model follows the code; each of
these is a lemma.

- **A contact merge never succeeds on the migrated schema.** `merge` gives the LID to the surviving
  contact before it deletes the other one (backend/internal/contact/merge.go:74-77), and the partial
  unique index on `lid` (backend/migrations/00008_contacts.sql:16) refuses that UPDATE, so the
  transaction rolls back. `Contacts.RequestMeaning` proves that this happens for every request whose two
  keys belong to two contacts, and for no other one; without the index the same lemma proves that the
  merge is right. `MergeIsReached` gets there from empty tables in three requests.
- **A publish can report success for a message that the broker refused.** A wait given up by timeout or
  cancellation leaves its confirm in the stream for the next publish. `PublisherConfirms.ConfirmsAlign`
  says exactly which confirm is read, `MisreportsIffGivenUp` that one wait given up is enough, and that
  nothing else will do; `StaleConfirmMisreports` gives a run.
- **Shutdown does not wait for a start that was just admitted.** Between `TryStartConnect` and
  `handlerWG.Add` a session is counted nowhere. `SessionManager.WaitCoversAllIff`: once Wait can return,
  a goroutine can still run if and only if such a start is left; `LateStartOutlivesShutdown` is a run.
- **An update can leave a pair with two active tickets.** Reopening a closed ticket looks for no other
  active one: `TicketRuns.OneActiveKeptIff` says exactly when, `ReopeningBreaks` that any admin can.
- **A page can bring back the old text of an edited message.** An answer that was on its way during the
  edit overwrites what the live event showed, unless the edit has been undone by then.
  `MessageWindow.DeliverKeepsWindowIff` says that a late page keeps the list right if and only if each of
  its messages is still stored as it was answered, and `ListIsWindow` says it of whole runs.
- **`hasMore` is one-sided.** False is always right; true is right if and only if the list did not show
  everything before: `MessageWindow.HasMoreIsRightIff`, with a run in `HasMoreMayOverstate`.
- **A filtered tab can show a stale ticket.** `TicketTab.NeverStaleIffUnfiltered`: only a tab that shows
  everyone's tickets and searches nothing always shows stored versions; `UpdateLeavesStaleIff` says which
  updates it is that leave an old version on the screen.
- **Overlapping publishes can reach a browser in the wrong order.** The hub offers frames outside its lock.
  `HubDelivery.OrderAtRiskIff` says exactly when that can happen: when two different frames are owed to a
  client at once. `OverlapMayReorder` is a run.
- **A media type can be lost on the way to the worker.** A comma, a blank bare type or the word base64
  breaks the data URL; `DataUrl.RoundTrip` says that nothing else does.

## Model

| member | source | states |
|---|---|---|
| MessageWindow.ReverseInPlace | backend/internal/message/list.go:37-39 | The two-index swap loop reverses the slice, whatever its length |
| MessageWindow.List | backend/internal/message/list.go:12-42 | A request without a ticket is refused; otherwise the answer is the page of twenty in chronological order, counted from the newest, the count, and a flag that is true just when older messages exist |
| MessageWindow.MessagesReducer.LoadMessages | frontend/src/components/MessagesList/index.js:265-279 | Known messages are refreshed in place and unknown ones put in front in page order |
| MessageWindow.MessagesReducer.AddMessage | frontend/src/components/MessagesList/index.js:281-292 | A live message replaces the first entry with its id in its place, or is appended if there is none |
| MessageWindow.MessagesReducer.UpdateMessage | frontend/src/components/MessagesList/index.js:294-303 | An update replaces the first entry with the id and no other, and adds nothing |
| MessageWindow.MessagesReducer.Reset | frontend/src/components/MessagesList/index.js:305-307 | Changing the ticket empties the list |
| MessageWindow.MergeStretch | frontend/src/components/MessagesList/index.js:265-279 | Merging any stretch of the real list into a window: the overlap changes nothing and exactly the part outside the window is new |
| MessageWindow.PageKeepsWindow | frontend/src/components/MessagesList/index.js:265-279 | After merging a page the list is a window again if and only if the page begins inside or right behind the window or lies beyond the list's end |
| MessageWindow.DeliverKeepsWindowIff | frontend/src/components/MessagesList/index.js:333-342 | A page that comes late keeps the window if and only if each of its messages is still stored in the version that was answered; arrivals in between do no harm |
| MessageWindow.RepeatKeepsWindowIff | frontend/src/components/MessagesList/index.js:281-292 | A live event that comes again for a stored message keeps the window if and only if the message is in it, or is the newest and nothing is shown |
| MessageWindow.EditMakesStale | frontend/src/components/MessagesList/index.js:294-303 | Every change to a message makes each page stale that holds it on the way |
| MessageWindow.ListIsWindow | backend/internal/message/list.go:12-42 | For all runs of arrivals, edits, page answers and pages delivered in any order and however late: the list holds the newest messages in order without duplicates, at least min(n, 20p) of them, and all of them once hasMore is false; and it shows their stored contents at every moment if and only if every delivered page holds its messages in the versions stored at that moment |
| MessageWindow.HasMoreIsRightIff | backend/internal/message/list.go:40 | After any delivered page the flag tells whether older messages are missing if and only if the answer said no or some were missing before |
| MessageWindow.FetchedHasMoreIsRightIff | backend/internal/message/list.go:40 | The same for a page fetched in one moment, by a condition on what is there before the fetch |
| MessageWindow.HasMoreMayOverstate | backend/internal/message/list.go:40 | A run after which hasMore is true although the list shows everything |
| SocketClient.SharedClient.Send | frontend/src/services/socket-io.js:225-232 | A frame goes out on an open socket and is queued on any other |
| SocketClient.SharedClient.AcquireChannel | frontend/src/services/socket-io.js:207-213 | Only the first reference to a channel sends a subscribe |
| SocketClient.SharedClient.ReleaseChannel | frontend/src/services/socket-io.js:215-223 | Only the last reference to a channel sends an unsubscribe |
| SocketClient.SharedClient.OnOpen | frontend/src/services/socket-io.js:122-129 | Opening sends one subscribe per counted channel, then the whole queue, and empties it |
| SocketClient.SharedClient.OnClose | frontend/src/services/socket-io.js:159-163 | Closing drops the connection and nothing of the counts or the queue |
| SocketClient.SocketHandle.Emit | frontend/src/services/socket-io.js:311-328 | The frames of one emit take effect in turn, each seeing the one before |
| SocketClient.SocketHandle.EmitFrame | frontend/src/services/socket-io.js:311-328 | A subscribe counts one more in the handle and in the shared client, an unsubscribe one less in both; one that the handle does not hold, or any emit after disposal, does nothing; no other channel is touched |
| SocketClient.SocketHandle.Disconnect | frontend/src/services/socket-io.js:330-343 | Whatever the order of its channels, each shared count goes down by what the handle held, and a second disconnect does nothing |
| SocketClient.LeaveUndoesJoin | frontend/src/services/socket-io.js:311-328 | Joining a channel and leaving it restores the handle and all counts |
| SocketClient.OpenKeepsStep | frontend/src/services/socket-io.js:122-129 | Resubscribing and then replaying a queue of any history leaves the new connection with exactly the counted channels |
| SocketClient.ServerAgreesWithHandles | frontend/src/services/socket-io.js:122-343 | For all runs of handles and connection drops: each count is the sum over the handles, and the server, once it has read the wire, is subscribed to exactly the channels that some handle holds |
| HubIndex.TotalsAgree | backend/internal/ws/hub.go:119-131 | Counting the subscriptions by client and by channel gives the same number |
| HubIndex.Hub.constructor | backend/internal/ws/hub.go:31-39 | A hub starts without clients; a buffer size that is not positive becomes 64 |
| HubIndex.Hub.RegisterClient | backend/internal/ws/hub.go:48-54 | Registering adds a client without subscriptions and changes no other |
| HubIndex.Hub.UnregisterClient | backend/internal/ws/hub.go:56-72 | Exactly the subscriptions of the client go, from both maps, and no channel stays empty |
| HubIndex.Hub.Subscribe | backend/internal/ws/hub.go:74-98 | Both maps gain the one pair, if the client is registered |
| HubIndex.Hub.Unsubscribe | backend/internal/ws/hub.go:100-117 | Both maps lose the one pair and nothing else |
| HubIndex.Hub.GetStats | backend/internal/ws/hub.go:119-131 | The reported total is the number of pairs, the sum over clients and the sum over channels |
| HubIndex.Hub.SignalClose | backend/internal/ws/client.go:174-178 | Closing twice is closing once |
| HubIndex.Hub.Send | backend/internal/ws/client.go:155-172 | An open client with room gets exactly the frame and stays open; an open one without room is closed; a closed one stays closed; nobody else is touched |
| HubIndex.Hub.Publish | backend/internal/ws/hub.go:133-187 | So for exactly the members of the channel, once each, and everyone else is as before; on shutdown, or for data that does not encode, nobody is touched |
| HubIndex.OfferMeans | backend/internal/ws/hub.go:170-178 | One offer, said without the select, if and only if some choice of the select comes to it |
| HubDelivery.LosslessOrClosed | backend/internal/ws/hub.go:133-187 | For all interleavings, overlapping publishes included: a client that is not closed was queued each frame just as often as it was published to its channels at the time, up to the offers still to come, and in the order of publishing when publishes do not overlap; buffers stay bounded |
| HubDelivery.ClosedIff | backend/internal/ws/hub.go:170-187 | For all interleavings: a client is closed if and only if it was told to close, or was offered a frame with its buffer full |
| HubDelivery.OrderAtRiskIff | backend/internal/ws/hub.go:133-187 | After any interleaving that has kept the order for an open client: some continuation without another publish spoils it if and only if two different frames are owed to the client at once |
| HubDelivery.NeverAtRiskIsInOrder | backend/internal/ws/hub.go:133-187 | For all interleavings: publishes may overlap, and the order is kept, as long as no client is owed two different frames at once |
| HubDelivery.OverlapMayReorder | backend/internal/ws/hub.go:133-187 | A run with any two payloads in which the later frame comes first |
| HubDelivery.ClosedForever | backend/internal/ws/client.go:174-178 | No run reopens a client that was closed |
| HubDelivery.DepartedGetsNothingNew | backend/internal/ws/hub.go:56-72 | A client that has left keeps no subscription |
| Tickets.Find | backend/internal/ticket/findorcreate.go:45-47 | The lookup loop answers the most recently updated matching ticket, or none just when there is none |
| Tickets.EmitsReach | backend/internal/ticket/wsemit.go:18-51 | Exactly the channels that hear of a creation, an update and a deletion, each once and with the same payload |
| Tickets.Service.FindOrCreate | backend/internal/ticket/findorcreate.go:23-128 | The row, the id and the frames of every branch, and the refused inputs |
| Tickets.FindOrCreateWrites | backend/internal/ticket/findorcreate.go:43-126 | Column by column: a bump sets the unread count alone, a reopening also goes back to pending without a user, a new ticket is pending, of the kind asked for, without user and queue; one row is written and emitted |
| Tickets.Service.Update | backend/internal/ticket/service.go:52-170 | Each refusal leaves everything alone; success rewrites one row and emits its change, or nothing when nothing changed; which and what is in the next rows |
| Tickets.UpdateRefuses | backend/internal/ticket/service.go:52-135 | Exactly which updates are refused and how: by status, by ticket, by who may change it, by who may assign whom |
| Tickets.UpdateWrites | backend/internal/ticket/service.go:74-170 | Column by column what an accepted update writes: no user after going back to pending, the named user or the actor after a request to open, no unread messages after opening a ticket that had some, all else as asked or as before; the row is untouched and nothing is emitted if and only if the request asks for no change |
| Tickets.Service.Delete | backend/internal/ticket/service.go:172-199 | Only an admin deletes, one row goes, and its three frames are emitted |
| Tickets.Service.UpdateLastMessage | backend/internal/ticket/service.go:201-218 | One column of one row changes and its update is emitted |
| TicketRuns.FindOrCreateDecides | backend/internal/ticket/findorcreate.go:43-105 | Without reference to the queries: bump if an active ticket exists, else reopen the most recent one within two hours (any one for a group), else create; all other rows stay |
| TicketRuns.OneActiveKeptIff | backend/internal/ticket/service.go:52-170 | An operation keeps at most one active ticket per pair if and only if it is not an update that reopens a ticket beside an active one |
| TicketRuns.ReopeningBreaks | backend/internal/ticket/service.go:52-170 | Any closed ticket whose pair has an active one can be reopened by an admin, and then the pair has two |
| TicketRuns.ActiveStaysUnique | backend/internal/ticket/findorcreate.go:43-105 | For all such runs, deletions included: at most one active ticket per contact and connection |
| TicketRuns.LookupAnswersTheActiveTicket | backend/internal/ticket/findorcreate.go:43-105 | After any such run a lookup answers the pair's one active ticket, and the next lookup answers the same |
| TicketRuns.TicketsStaySpaced | backend/internal/ticket/findorcreate.go:15-15 | For all runs: of two tickets of a pair the later was created more than two hours after the earlier |
| TicketRuns.GroupKeepsOneTicket | backend/internal/ticket/findorcreate.go:66-70 | For all runs: a group that starts without a ticket never has two |
| TicketTab.TicketsReducer.LoadTickets | frontend/src/components/TicketsList/index.js:75-91 | The loop over a page replaces, raises or appends each ticket in turn |
| TicketTab.TicketsReducer.UpdateTicket | frontend/src/components/TicketsList/index.js:104-115 | The entry is replaced in its place, or a new one put in front |
| TicketTab.TicketsReducer.UpdateTicketUnreadMessages | frontend/src/components/TicketsList/index.js:117-129 | The entry is replaced and moved to the front |
| TicketTab.TicketsReducer.DeleteTicket | frontend/src/components/TicketsList/index.js:140-148 | The entry with the id goes, the others keep their order |
| TicketTab.ChangesPlace | frontend/src/components/TicketsList/index.js:104-148 | Where each change puts the ticket: in its old place, in front, or out; the others keep their order |
| TicketTab.LoadPlaces | frontend/src/components/TicketsList/index.js:75-91 | Each ticket of a page in turn: a new one goes to the end, a known one with unread messages to the front, any other one keeps its place |
| TicketTab.HeardFramesPlace | frontend/src/components/TicketsList/index.js:187-243 | Once any frame of an emit is heard: a version of the tab's status, queues and users is shown, in its old place or first; one that has left or is deleted is gone; one with a new message is first; anything else changes nothing |
| TicketTab.EmitMeans | backend/internal/ticket/wsemit.go:18-51 | Hearing any of the frames of one emit, once or several times, leaves the list right about that ticket and as it was about all others |
| TicketTab.OpKeepsReplica | backend/internal/ticket/wsemit.go:18-51 | Every ticket operation with the frames it emits keeps the tab a replica, whatever channels it hears besides its own |
| TicketTab.TabIsReplica | frontend/src/components/TicketsList/index.js:74-243 | For all runs of operations, messages and page loads, late ones that still fit included: the tab shows each ticket once and only tickets whose stored status is the tab's, with exactly their stored rows when it filters nothing |
| TicketTab.TabShowsAllThatIsDue | frontend/src/components/TicketsList/index.js:74-243 | For all runs of operations, messages and pages of any age: the tab shows exactly the tickets last loaded or heard as fitting and not heard to leave since, each once and in that version |
| TicketTab.LoadKeepsReplicaIff | frontend/src/components/TicketsList/index.js:75-91 | A page, however late, keeps the tab a replica if and only if its tickets still belong there, in their stored versions when the tab filters nothing |
| TicketTab.UpdateLeavesStaleIff | frontend/src/components/TicketsList/index.js:187-229 | The old version of an updated ticket stays if and only if no frame is heard, or the update is of the tab's status and queues and is filtered out |
| TicketTab.NeverStaleIffUnfiltered | frontend/src/components/TicketsList/index.js:187-229 | No operation ever leaves an old version on a screen that was right if and only if the tab filters nothing |
| TicketTab.FilteredTabMayBeStale | frontend/src/components/TicketsList/index.js:190-229 | Every tab that searches or hides other users' tickets has a screen that is right and an operation that leaves it showing an old version |
| RmqConnection.Client.SetupChannels | backend/internal/rmq/client.go:243-310 | All or nothing: the fields change only when every stage succeeds, and each stage that fails leaves as many channels open as there were |
| RmqConnection.Client.DialOnce | backend/internal/rmq/client.go:207-224 | One turn: success sets everything, a failed setup drops the connection, a failed dial changes nothing |
| RmqConnection.Client.DialAndSetup | backend/internal/rmq/client.go:201-241 | The exact number of dials, at most ReconnectAttempts; success just when some dial before cancellation succeeds; a failure changes nothing but that a connection is dropped |
| RmqConnection.Client.Start | backend/internal/rmq/client.go:121-141 | Refused in any state but disconnected, and otherwise, whatever is set at the time, connected with everything set or disabled |
| RmqConnection.Client.ForgetConnection | backend/internal/rmq/client.go:334-348 | After a loss every field is cleared, state first, before the client is connecting again |
| RmqConnection.Client.Reconnect | backend/internal/rmq/client.go:312-357 | A loss leads back to connected or to disabled with nothing set; a clean close or the end of the run changes nothing |
| RmqConnection.Client.Live | backend/internal/rmq/client.go:121-357 | For all lives with one Start and without Shutdown, at every observable moment: connected means everything is set, and disabled is never left; and where the life ends, for every outcome of every dial, with two open channels or none |
| PublisherConfirms.ConfirmsAlign | backend/internal/rmq/publisher.go:61-99 | For all runs of a channel: send j reads confirm j minus the waits given up before it, so its own if and only if none was |
| PublisherConfirms.SuccessMeansAcked | backend/internal/rmq/publisher.go:81-92 | With no wait given up before it, a publish that reports success was acked |
| PublisherConfirms.MisreportsIffGivenUp | backend/internal/rmq/publisher.go:81-98 | From every open, idle channel: some later publish can be told of success for a refused message, without another wait given up, if and only if one was given up before |
| PublisherConfirms.StaleConfirmMisreports | backend/internal/rmq/publisher.go:93-98 | A run in which one given-up wait makes the next publish report success for a refused message |
| PublisherConfirms.Publisher.PublishBytes | backend/internal/rmq/publisher.go:27-100 | Every refusal leaves the channel alone, closed or not; a send appends one wait and reports its ending, success just when the next unread confirm is an ack; the alignment is kept |
| PublisherConfirms.Publisher.Await | backend/internal/rmq/publisher.go:81-99 | Each ending of the wait with the error it reports, and whether it consumes a confirm |
| RpcCorrelation.Client.TryPut | backend/internal/rmq/client.go:373-379 | An empty buffer then holds exactly the message, a full one drops it, and no other buffer changes |
| RpcCorrelation.Client.FailPendingRPCs | backend/internal/rmq/client.go:383-393 | In any order of the map every pending empty buffer then holds the error, all others are as before, and the table is empty |
| RpcCorrelation.CallsAreCorrelated | backend/internal/rmq/rpc_client.go:49-103 | For all interleavings: a buffer holds at most one message; what a call receives is the first message that entered its buffer, its own reply or the failure; a live call that is no longer pending has a message waiting |
| RpcCorrelation.PendingReplyIsFound | backend/internal/rmq/client.go:360-370 | The consumer gets hold of the buffer if and only if the call is pending |
| RpcCorrelation.OfferEnters | backend/internal/rmq/client.go:373-379 | After any run: a reply offered to a live call with an empty buffer is what the buffer holds, and what a waiting call receives next |
| RpcCorrelation.FirstReplyIsReceived | backend/internal/rmq/rpc_client.go:76-103 | For all runs after that: the call holds that reply as long as it waits, and ends with it unless it timed out or could not publish |
| RpcCorrelation.FailureReachesEveryCall | backend/internal/rmq/client.go:383-393 | After any run and a failure, no live call is without a message |
| RpcCorrelation.TableEmptiesWithCalls | backend/internal/rmq/rpc_client.go:57-62 | For all runs: when every call has returned, nothing is pending |
| RmqDelivery.Consumer.DispatchDelivery | backend/internal/rmq/consumer.go:124-168 | Every path, panic included, settles the delivery exactly once: success is acked, a handler error requeued, the rest dropped, and only a delivery still outstanding changes anything at the broker |
| RmqDelivery.Consumer.DispatchRPC | backend/internal/rmq/rpc_server.go:109-176 | Every path settles the delivery exactly once: requeued when the response does not get out, dropped when malformed or after a panic, else acked; and sends at most one reply, whether or not an error reply gets out |
| RmqDelivery.Consumer.PublishRPCError | backend/internal/rmq/rpc_server.go:196-231 | An error reply is sent just when the request names a reply queue and the publish works |
| RmqDelivery.DeliveriesAreConserved | backend/internal/rmq/consumer.go:107-168 | For all runs of handler outcomes and channel losses, deliveries dispatched after the loss included: every published message is queued, outstanding, acked or dropped; ended dispatches were settled once and running ones never; a message is acked no more often than a handler succeeded on it, and dropped no more often than it was malformed or panicked |
| RmqDelivery.FailureRequeues | backend/internal/rmq/consumer.go:154-158 | After any run, a handler error on an outstanding delivery, or a reply that does not get out, puts that message back and does nothing else at the broker |
| RmqDelivery.ExactWithoutLoss | backend/internal/rmq/consumer.go:107-168 | For all runs without a channel loss the bounds are exact: the acked messages are those whose handlers succeeded, the dropped ones those malformed or panicked |
| RmqDelivery.LossRequeuesAll | backend/internal/rmq/consumer.go:107-168 | After any run, losing every channel puts all that is outstanding back into the queue |
| SessionManager.Manager.Set | worker/internal/whatsmeow/manager.go:58-69 | The slot, the connecting mark and the count after a Set, for every old and new session |
| SessionManager.Manager.Remove | worker/internal/whatsmeow/manager.go:78-96 | The locked half of Delete takes out the one session, if there is one |
| SessionManager.Manager.Delete | worker/internal/whatsmeow/manager.go:78-96 | A session that is there goes and is counted down once; without one nothing changes |
| SessionManager.Manager.TryStartConnect | worker/internal/whatsmeow/manager.go:105-119 | Exactly when a start is admitted, and then it is marked |
| SessionManager.Manager.ClearConnecting | worker/internal/whatsmeow/manager.go:121-125 | The mark of this id goes and no other |
| SessionManager.Manager.RegisterKill | worker/internal/whatsmeow/manager.go:127-136 | A second registration gets the channel of the first |
| SessionManager.Manager.SendKill | worker/internal/whatsmeow/manager.go:138-150 | A registered channel ends up closed, and is not closed again |
| SessionManager.Manager.CleanupKill | worker/internal/whatsmeow/manager.go:152-156 | The channel of this id is forgotten, and not closed |
| SessionManager.Manager.BeginShutdown | worker/internal/whatsmeow/manager.go:198-215 | Every registered channel is closed and forgotten, in any order of the map |
| SessionManager.SetKeepsAccount | worker/internal/whatsmeow/manager.go:58-69 | Set keeps the WaitGroup exact if and only if the slot is empty or holds another client's session |
| SessionManager.WaitGroupIsExact | worker/internal/whatsmeow/manager.go:58-240 | For all interleavings of starts, kills, deletes and shutdown: the counter is the running goroutines plus the sessions plus the deletes not yet done; no channel is closed twice; at zero there is no session and no running goroutine |
| SessionManager.NothingLeaks | worker/internal/whatsmeow/session.go:54-131 | For all runs: when the last goroutine has ended, no session, mark or kill channel is left |
| SessionManager.ShutdownIsFinal | worker/internal/whatsmeow/manager.go:105-119 | After shutdown with no start under way, nothing starts again |
| SessionManager.WaitCoversAllIff | worker/internal/whatsmeow/manager.go:198-240 | For all runs after which Wait can return: a goroutine can still run if and only if an admitted start has not launched its own yet |
| SessionManager.LateStartOutlivesShutdown | worker/internal/whatsmeow/session.go:35-52 | A run in which Wait can return and a session goroutine runs afterwards |
| Contacts.FindOneByField | backend/internal/contact/service.go:310-323 | The lookup answers the lowest id with that value, and nothing for an empty value |
| Contacts.Service.CreateOrUpdate | backend/internal/contact/service.go:39-91 | The statements of each merge case in turn, and a rollback on any failure, come to the specified answer and tables |
| Contacts.RequestMeaning | backend/internal/contact/merge.go:19-130 | Keys stay unique and references whole; the answered contact holds both keys; only the rows of the one contact merged away change owner; exactly which requests fail, and that these change nothing |
| Contacts.RequestWrites | backend/internal/contact/merge.go:34-130 | What an answered request writes: name, picture, email and both keys of the answered contact as asked where something was asked, else as before; which contact goes; that every other contact is unchanged; and which custom fields go along |
| Contacts.NumberMeans | backend/internal/contact/normalize.go:10-16 | A group's id is trimmed; any other number comes down to its digits, spaces or not |
| Contacts.MergeIsReached | backend/internal/contact/merge.go:60-81 | For every number and LID: one request with each and one with both, from empty tables, end in a refusal with the unique indexes and in a merge without |
| Contacts.MergeKeepsRows | backend/internal/contact/merge.go:60-81 | Because tickets and messages move first, the cascading delete takes none of them along |
| Contacts.ShownRequestChangesNothing | backend/internal/contact/merge.go:49-58 | A request that a contact already shows finds that contact and changes nothing |
| Contacts.RequestIsIdempotent | backend/internal/contact/service.go:39-66 | Repeating any answered request changes nothing and answers the same contact |
| Contacts.RunsStaySound | backend/internal/contact/service.go:39-66 | For all runs of requests: keys stay unique and no ticket or message is lost |
| ExtraInfo.ValidateExtraInfo | backend/internal/contact/validator.go:98-116 | A payload is accepted if and only if no id occurs twice and no name is blank |
| ExtraInfo.Store.DeleteUnlisted | backend/internal/contact/extrainfo.go:28-38 | Exactly the rows of the contact that no item names are deleted |
| ExtraInfo.Store.UpdateListed | backend/internal/contact/extrainfo.go:40-46 | In any order of the map: the contact's named rows are rewritten, and an id of another contact has no effect |
| ExtraInfo.Store.InsertNew | backend/internal/contact/extrainfo.go:48-60 | One row per item without an id, in payload order, and nothing else changes |
| ExtraInfo.Store.UpsertExtraInfo | backend/internal/contact/extrainfo.go:11-63 | An invalid payload changes nothing; a valid one ends in the table that the payload describes, whatever the iteration order |
| ExtraInfo.UpsertIsDetermined | backend/internal/contact/extrainfo.go:40-46 | That description leaves no choice: two outcomes of the same upsert are equal |
| ExtraInfo.RowsAreThePayload | backend/internal/contact/extrainfo.go:11-63 | The contact's rows and the items that own or create one are in one-to-one correspondence, each row showing its item |
| ExtraInfo.ResubmitChangesNothing | backend/internal/contact/extrainfo.go:11-63 | Sending back the rows that a contact has changes nothing |
| LikeSearch.EscapedIsLiteral | backend/internal/ticket/list.go:178-181 | An escaped text matches itself and nothing else, whatever pattern follows |
| LikeSearch.LikeFindsSubstring | backend/internal/ticket/list.go:141-155 | For all texts, metacharacters included: the pattern matches exactly the strings that contain the text |
| LikeSearch.NumberFilterMeaning | backend/internal/ticket/list.go:141-155 | Blank input filters nothing, any other keeps exactly the numbers containing the trimmed text, and the database never refuses the pattern |
| Base64.DecodeEncode | backend/internal/message/send.go:298-305 | Decoding the encoding gives back the bytes, for all byte strings (section 4 of RFC 4648) |
| Base64.EncodeBits | backend/internal/message/send.go:298-305 | Three bytes are written as four symbols with the same bits, a shorter group padded with zero bits and equals signs, and the length is four for every three begun (section 4 of RFC 4648) |
| Base64.DecodeRejects | worker/internal/media/outbound.go:33-69 | A text with any character outside the alphabet, line ends aside, is refused |
| DataUrl.DecodeDataURL | worker/internal/media/outbound.go:33-69 | Accepted if and only if there is a comma, a base64 mark somewhere before it and a decodable text behind it; the type is the first part that is neither empty nor the mark, or the default |
| DataUrl.DecodeDataURLOrFetch | worker/internal/media/outbound.go:19-31 | Exactly which inputs are decoded, fetched or refused |
| DataUrl.RoundTrip | backend/internal/message/send.go:298-305 | For all bytes and non-empty types: the worker recovers the bytes and the bare type if and only if the type has no comma and its bare part is neither blank nor base64 |
| DataUrl.RoundTripPlain | backend/internal/message/send.go:298-305 | A type without parameters comes back unchanged |
| DataUrl.RoundTripUntyped | backend/internal/message/send.go:298-305 | Without a type both services agree on application/octet-stream |
| EventKey.ParsePrinted | backend/internal/waevents/consumer.go:97-113 | What the backend reads from every key that a worker can print, negative and oversized ids included |
| EventKey.ParseMeans | backend/internal/waevents/consumer.go:97-113 | Of all texts, exactly those with the prefix, a decimal id of 64 bits, a dot and a name are read, and as that id and name |
| EventKey.PrintsKey | worker/internal/whatsmeow/events.go:192-196 | What the worker prints for an id of 64 bits and a name is such a key |
| EventKey.RoundTrip | worker/internal/whatsmeow/events.go:192-196 | A key round-trips if and only if the id is an unsigned 64-bit number and the name is not empty; dots in the name do no harm |
| EventKey.KeysAreInjective | worker/internal/whatsmeow/events.go:192-196 | Two events never share a key, whatever their ids and names |
| ChannelNames.JoinsMeetPublishes | frontend/src/services/socket-io.js:57-84 | Joining a tab, a chat box or the notifications subscribes to the name under which the backend publishes for it |
| ChannelNames.LeavesMatchJoins | frontend/src/services/socket-io.js:57-84 | Each leave unsubscribes from what its join subscribes to, and an unknown name does nothing |
| ChannelNames.NamesDiffer | backend/internal/ticket/wsemit.go:53-59 | Different tabs, tickets and the notifications never share a channel name |

## Left out

Assumptions of the model:

- The broker confirms in order on each channel and redelivers what a lost channel held; publishes on a channel are serialised by the publish mutex, and a send on a closed channel fails.
- A transaction and the query of a page each happen at one moment; the live event of a message arrives with its row; the frames of a tab arrive in order; time does not run backwards.
- Ids come from a sequence that stays ahead of them and correlation ids are distinct. Metrics and logging do nothing that matters here.
- Contacts: tables carry the foreign keys of the migrations (backend/migrations/00008_contacts.sql:21, 00009_tickets.sql:10, 00010_messages.sql:5-6), and theorems hold with and without the two unique indexes. The tolerance for a missing table (backend/internal/contact/merge.go:132-148), timestamps and the published contact events are left out. CreateOrUpdate calls are atomic; two that race on a fresh key are settled by the index.

Contracts that say less than the code does:

- MessageWindow.List: database errors are left out, and the rows are read at one moment.
- Tickets.Service.FindOrCreate: database errors, which roll back, are left out.
- Tickets.Service.Update: database errors and a request without a user are left out.
- Tickets.Service.Delete: database errors are left out.
- Tickets.Service.UpdateLastMessage: database errors are left out.
- TicketTab.TabIsReplica: pages that no longer fit the tab are excluded from the runs; LoadKeepsReplicaIff says that they break the replica.
- Contacts.Service.CreateOrUpdate: database errors other than the unique indexes, and the published event, are left out.
- ExtraInfo.Store.UpsertExtraInfo: database errors are left out.
- LikeSearch.NumberFilterMeaning: the branches for names and message bodies, which lower-case both sides, are left out.

Parts of the repository:

- SocketClient: token rotation, denied or more than 100 subscriptions, listener functions and reconnect delays.
- HubDelivery: shutdown of the hub, the authorizer and the WebSocket wire; read and write pumps are reduced to the frames they take.
- RmqConnection: Shutdown and its race with a reconnect, timers between dials, and a second Start beside the reconnect loop; the servers call it once.
- RmqDelivery: the retry loop that opens a consumer again, the prefetch limit, and redelivery order. The broker has no fields in the source, so its state is one value.
- RpcCorrelation: marshalling of payloads, and the state check before a call, which only prevents calls.
- SessionManager: what happens inside a session, the handlers' own counting, and liveness: a kill sent before its channel is registered is lost.
- Tickets: the unlocked creation in the HTTP handler, `user.Delete`, contact merges that move tickets, and the advisory lock itself, which makes a lookup one step.
- TicketTab: tabs without a status, of which the search list is the one in use (frontend/src/components/TicketsManager/index.js:291-295), so a searching tab with a status is a case of the code and not of the screen; frames that change only a contact or an unread count, and reset.
- MessageWindow: deleted messages, and live events that come later than a page with their message.
- LikeSearch: the contact list's copy of the same escape.
- Text: TrimSpace strips the code points for which Go's unicode.IsSpace holds; strings are sequences of characters, not of bytes.
- EventKey: the id is read as 64 bits, as Go's uint is on the servers in use.
- worker/internal/rmq is a copy of backend/internal/rmq and is modelled once.
- HTTP routing, JSON, authentication, media storage, stickers, rendering, translations and the CRUD services.
