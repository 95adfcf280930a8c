# Golem Service Bus: a verified model

The Golem Service Bus routes messages between processes. A router keeps a table of service names and the
connections that own them; clients register names, call each other by name, stream replies, and reconnect
when the link breaks. Router and client are written as actors.

This project models the routing protocol as step machines and proves what holds in every run. A machine is a
state, a total `Step` function (a step that is not possible leaves the state alone) and `Exec`, which plays
any sequence of steps from the initial state; the main lemmas quantify over all sequences. Where the program
updates fields in place there is also a class whose methods carry the same steps out on mutable state, each
proved to make exactly the machine's step.

| module | what it is about |
|---|---|
| `PrefixLookup`, `RouterTables`, `NodeId` | longest-path-prefix lookup, the router's shared tables, node ids in addresses |
| `Lifecycle` | connections against the shared tables: register, unregister, Hello, takeover, cleanup, node events |
| `Takeovers` | one client's connections over time at that router, each taking over from the one before |
| `SinkWriter`, `BackPressure` | the buffered writer, and the bounded output with its hold queue |
| `InputReader`, `ReplyRouting` | one message in processing at a time, error replies, routing of call replies |
| `PendingCalls` | a caller's calls at a service whose connection ends |
| `CommandMatching` | client commands and their replies, matched only by order |
| `RemoteBindings`, `LocalBindings` | registrations across reconnects; local handlers and the registrations they cause |
| `Registrations` | the two together: from local handlers to the router's endpoints |
| `Streaming`, `Subsequences` | a streamed call from the service to the caller's application |
| `Codec` | the incremental frame decoder |
| `Namespace` | FNV-1a names of data directories and the default socket path |

## What the model takes for granted

- Mailboxes, channels and links deliver in order; a oneshot is resolved at most once.
- Each acquisition of the router lock is one atomic step, and so is each handler between two acquisitions.
- A peer may stop being `connected` at any time; after `ctx.stop()` a connection handles no further input.
- The connections never close their own writer; it ends only when the sink fails.
- In the end-to-end lemma the texts of errors are valid UTF-8; `CallReplies` models what happens otherwise.
- A client sends its Hello before anything else on a connection, always with its own instance id, which no other
  client uses (src/connection.rs:478-492, src/connection.rs:36-50).
- A service's reply to a call reaches its router connection only after the call was written to the service.
- The outcome of a forward, once there is one, is seen before the forward's timer.
- Clocks, sockets, the payload codec and other connections are inputs of the steps, with any behaviour.

## Where the code and its documentation differ

The model follows the code.

- README.md:34-38 describes a 64-bit frame header; the code reads and writes one 32-bit length, cast with
  `as u32`. `RoundTripExactly` shows the exact limit.
- README.md:70-71 promises that a disconnected client's services are removed. `cleanup` does so only for
  clients that said Hello: `StopFreesEndpointsExactly` is the exact condition, `NoHelloLeavesEndpoint` the
  failing family, `UngreetedOwner` a run that reaches it.
- README.md:71-72 promises a failure reply for every pending call to a lost service. The exact condition is
  `StopAnswersUnwrittenCalls`: an unanswered call gets one if and only if it had not been written to the service
  when its connection ended. `WrittenCallIsForgotten` is a run in which the caller gets nothing.
- An emptied buffer drains the whole hold queue but lets through at most `high_buffer_mark` messages; live
  messages beyond that are canceled (`OverfullDrainCancelsTheRest`, `LossExactly`), and it takes no more than a
  burst of messages to get there (`BurstIsCanceled`).
- A repeated subscription prepares a bad-request reply and sends the default one (`AnswersMeanTheirRequest`).
- The Remove messages of a prefix unbind are sent when its future runs, so a name bound again in the meantime
  loses its registration (`LateRemoveLosesBinding`, `BindingsAgreeExactly`).

## Model

| member | source | states |
|---|---|---|
| `Lifecycle.Reachable` | crates/router/src/connection.rs:151-164 | In every interleaving of lock steps the shared endpoint table, the private service sets, the instance table and the pending drops are mutually consistent. |
| `Lifecycle.ServicesAgreeWithTable` | crates/router/src/connection.rs:378-409 | For every connected peer and every name it is not midway through updating, the table gives it the name exactly when the name is in its private set. |
| `Lifecycle.OwnerKeepsEndpoint` | crates/router/src/router.rs:380-413 | No conflicting register, foreign unregister or other connection's cleanup takes an endpoint from a connected peer; only its own unregister, drop or stop does. |
| `Lifecycle.StopFreesEndpointsExactly` | crates/router/src/connection.rs:133-164 | After the stop hook a connection owns nothing if and only if it had said Hello or owned nothing before. |
| `Lifecycle.NoHelloLeavesEndpoint` | crates/router/src/connection.rs:151-153 | From any state: a client that owns a name and never said Hello stops and disconnects, its endpoint stays, and the name is refused to everybody. |
| `Lifecycle.UngreetedOwner` | crates/router/src/connection.rs:378-397 | Such a state is reached by one registration on a fresh connection. |
| `Lifecycle.StaleEndpointIsReleased` | crates/router/src/router.rs:397-413 | The endpoint left behind in that way is taken off the table by anybody's unregister. |
| `Lifecycle.RegistrationAnnounces` | crates/router/src/connection.rs:382-396 | In every run, the second half of a successful registration adds the name to the private set; the first address of the form head/net/id announces New for that id, and nothing else announces anything. |
| `Lifecycle.HelloAsksForDrop` | crates/router/src/router.rs:431-452 | In every run, a first Hello under an instance id in use sends its holder a DropConnection, which it can handle unless it is midway through an update; the newcomer takes the entry and waits for that holder. |
| `Lifecycle.OtherHellos` | crates/router/src/connection.rs:479-499 | A Hello under a free id takes it and waits for nobody; a second Hello stops its connection and leaves the tables alone. |
| `Lifecycle.DropIsCarriedOut` | crates/router/src/connection.rs:527-531 | In every run, the addressee of a drop is cleaned up and stopped and gives up every endpoint, and a newcomer waiting for it goes on. |
| `Lifecycle.TakeoverHappens` | crates/router/src/router.rs:431-465 | A run of five steps from the empty router in which a second connection takes the instance over. |
| `Lifecycle.SmallSteps` | crates/router/src/connection.rs:89-102 | Losing the link, stopping and giving up on a drop change one connection in one respect each, in every run. |
| `Lifecycle.Takeover` | crates/router/src/router.rs:431-465 | Once the old connection acknowledges the drop, in every continuation it owns no endpoint and no instance entry; the newcomer's entry survives the old one's cleanup, and a name it does not already hold can be refused to it only because a third connection has it. |
| `Lifecycle.CleanedForever` | crates/router/src/connection.rs:527-531 | Cleanup is never undone by any later step. |
| `Lifecycle.NodeEventsBalance` | crates/router/src/connection.rs:151-164 | In every run, New minus Lost events of a node id is the number of connections standing for it whose cleanup body has not run; each connection sends at most one New, then at most one Lost, of its own id. |
| `Lifecycle.Connection.RegisterLocked` | crates/router/src/connection.rs:378-381 | The first half of a registration changes the table, and nothing private, as the machine's step does. |
| `Lifecycle.Connection.RegisterFinished` | crates/router/src/connection.rs:382-396 | The second half records the service, announces the node on the first node address and picks the reply code. |
| `Lifecycle.Connection.UnregisterLocked` | crates/router/src/connection.rs:398-401 | The first half of an unregistration is the machine's step. |
| `Lifecycle.Connection.UnregisterFinished` | crates/router/src/connection.rs:402-408 | The second half forgets the service exactly when the table released it. |
| `Lifecycle.Connection.HandleHello` | crates/router/src/connection.rs:479-499 | A first Hello takes over the instance id, and the connection that held it is sent a DropConnection and named; a second one stops the connection and changes no table. |
| `Lifecycle.Connection.CleanUp` | crates/router/src/connection.rs:151-164 | Without a Hello nothing happens; with one, exactly the services that are the connection's own or whose owner is gone leave the table, the instance entry goes if it is its own, and the loss is announced if there is an id. |
| `Lifecycle.Connection.HandleDropConnection` | crates/router/src/connection.rs:527-531 | Cleaned up, then stopped. |
| `NodeId.NodeIdOfNetAddress` | crates/router/src/connection.rs:143-149 | Every address of the form head/net/id, with anything below it, yields that id. |
| `NodeId.NodeIdComesFromNetAddress` | crates/router/src/connection.rs:143-149 | Only addresses of that form yield an id. |
| `PrefixLookup.LookupKeyIsLongest` | crates/util/src/lib.rs:20-52 | For all strings, the walk over prefixes finds the longest stored non-empty key equal to the address or followed in it by a slash, or there is none. |
| `PrefixLookup.LongestMatchUnique` | crates/util/src/lib.rs:50-52 | There is only one such key, so the longest match determines the answer. |
| `PrefixLookup.CoversParent` | crates/util/src/lib.rs:23-34 | One step of the iteration passes over exactly one covering path. |
| `PrefixLookup.RevPrefixes.Next` | crates/util/src/lib.rs:23-34 | Yields the current path, shrinks strictly, and leaves exactly the other covering paths. |
| `PrefixLookup.PrefixLookupBag.FindKey` | crates/util/src/lib.rs:58-64 | The search with the iterator returns the longest match, or reports that nothing covers the address. |
| `PrefixLookup.PrefixLookupBag.Get` | crates/util/src/lib.rs:50-52 | The value at the longest match. |
| `PrefixLookup.PrefixLookupBag.GetMut` | crates/util/src/lib.rs:58-64 | Exactly the slot `get` reads can be changed; all others stay. |
| `PrefixLookup.PrefixLookupBag.Entry` | crates/util/src/lib.rs:70-76 | Opens the longest match if anything covers the key, else the key itself. |
| `PrefixLookup.PrefixLookupBag.Insert` | crates/util/src/lib.rs:66-68 | One key changes and its previous value is returned. |
| `PrefixLookup.PrefixLookupBag.Remove` | crates/util/src/lib.rs:78-80 | One key goes and its value is returned. |
| `RouterTables.RegisterResolution` | crates/router/src/router.rs:376-395 | A new endpoint takes over exactly the addresses at or under it that had no match as long as it; all others resolve as before. |
| `RouterTables.UnregisterResolution` | crates/router/src/router.rs:397-413 | A removed endpoint's addresses fall to the longest endpoint above it; all others resolve as before. |
| `RouterTables.RegisterRoundTrip` | crates/router/src/router.rs:380-413 | A successful register followed by the owner's unregister restores the resolution of every address; a refused register or unregister changes none. |
| `RouterTables.UnregisterExactly` | crates/router/src/router.rs:397-413 | A name is released to its owner, and to anybody once its owner is not connected; to nobody else, and nothing else changes. |
| `RouterTables.Router.ResolveNode` | crates/router/src/router.rs:376-378 | The owner of the longest matching endpoint. |
| `RouterTables.Router.RegisterService` | crates/router/src/router.rs:380-395 | Insert and put back on conflict: the table changes only if the name was free. |
| `RouterTables.Router.UnregisterService` | crates/router/src/router.rs:397-413 | Remove and put back: the entry goes if the caller owns it or its owner is not connected. |
| `RouterTables.Router.NewConnection` | crates/router/src/router.rs:431-452 | The instance entry is replaced and the previous holder is the one to be dropped. |
| `RouterTables.Router.RemoveConnection` | crates/router/src/router.rs:454-465 | The instance entry goes only if it is the caller's own. |
| `SinkWriter.Conservation` | crates/util/src/writer.rs:60-80 | In every run, whatever the sink answers, items handed over followed by the buffer are the writes made before the first close, in order; CLOSED implies CLOSING, completion and everything handed over. |
| `SinkWriter.HandedOnlyGrows` | crates/util/src/writer.rs:137-154 | What the sink has been given is never taken back or reordered. |
| `SinkWriter.PollMeaning` | crates/util/src/writer.rs:130-191 | One poll hands over as many items as the sink is ready for; the callback is due exactly if the sink wanted more and flushed; the future completes exactly on an error its owner stops for or once closed with nothing left. |
| `SinkWriter.SinkWrite.Append` | crates/util/src/writer.rs:60-68 | Refuses the item exactly when closing was asked for. |
| `SinkWriter.SinkWrite.Shut` | crates/util/src/writer.rs:77-80 | Only sets the closing flag. |
| `SinkWriter.SinkWrite.PollOnce` | crates/util/src/writer.rs:124-194 | The loop hands over the longest prefix the sink is ready for; its not-CLOSED assertion cannot fire; the empty-buffer callback runs only with the buffer empty. |
| `BackPressure.ForwardedTrafficIsBounded` | crates/router/src/connection.rs:264-279 | In every run the forwarded messages in the buffer never exceed the high mark, however many direct replies are interleaved. |
| `BackPressure.OneOutcomeInOfferOrder` | crates/router/src/connection.rs:264-279 | Every offered message is held and undecided, or written once with its future Ok, or never written with its future Canceled; written messages keep the order of the offers. |
| `BackPressure.OutcomeIsFinal` | crates/router/src/connection.rs:546-568 | No continuation of a run changes an outcome. |
| `BackPressure.LossExactly` | crates/router/src/connection.rs:552-562 | Some message is canceled if and only if some step drained a queue longer than the mark or with an abandoned message in it, or ended the connection with messages held. |
| `BackPressure.OverfullDrainCancelsTheRest` | crates/router/src/connection.rs:552-562 | With all waiters present, the message at position k of a drained queue goes out if and only if k is below the mark; the others are canceled. |
| `BackPressure.DrainExactly` | crates/router/src/connection.rs:552-562 | Message by message: a held one goes out with its future Ok if and only if its waiter is there and fewer than the mark of those before it have theirs; every other one is canceled. |
| `BackPressure.NothingLostNothingMissing` | crates/router/src/connection.rs:264-279 | Without cancellation, written followed by held is every offered message in order. |
| `BackPressure.StepCancels` | crates/router/src/connection.rs:546-568 | Step by step, a first cancellation happens exactly at a step with that guard. |
| `BackPressure.OverfullMeansNotAllTaken` | crates/router/src/connection.rs:552-556 | A drain leaves out some held message if and only if the queue is longer than the mark or holds an abandoned one. |
| `BackPressure.BurstIsCanceled` | crates/router/src/connection.rs:552-562 | For every mark, 2 * mark + 1 offers and one poll of a sink ready for everything cancel the last offer while the connection runs on. |
| `BackPressure.Output.Send` | crates/router/src/connection.rs:264-279 | Writes directly or joins the hold queue as the machine's step does, and keeps the invariant. |
| `BackPressure.Output.Respond` | crates/router/src/connection.rs:166-173 | A direct reply bypasses the hold queue and keeps the invariant. |
| `BackPressure.Output.LetThrough` | crates/router/src/connection.rs:552-562 | The lazy drain, filter and take loop writes and settles Ok exactly the wanted messages that have room left by the wanted ones before them, and cancels the rest. |
| `BackPressure.Output.DrainHoldQueue` | crates/router/src/connection.rs:546-568 | The empty-buffer handler keeps the invariant. |
| `BackPressure.Output.Poll` | crates/util/src/writer.rs:130-191 | One writer poll with its callback, including the end of the connection, keeps the invariant. |
| `BackPressure.Output.Stop` | crates/util/src/writer.rs:162-168 | The end of the connection cancels everything held. |
| `BackPressure.Output.Forget` | crates/router/src/connection.rs:555-555 | A waiter that drops its receiver marks its held message, and no other. |
| `InputReader.OneMessageAtATime` | crates/router/src/connection/reader.rs:78-114 | Messages are dispatched in order, and at most one of them, the latest, has no outcome yet; the stream ends only when every message has one; the hello goes out once, before the first dispatch. |
| `InputReader.NextMessageIsTaken` | crates/router/src/connection/reader.rs:91-114 | In every run, a poll with nothing left in processing and the stream ready takes the next message of the input, or ends the reader when there is none; any other poll takes none. |
| `InputReader.ErrorRepliesExactly` | crates/router/src/connection.rs:175-242 | In every run error replies come in call order, at most one per call; a finished reply-wanted call gets BAD_REQUEST if and only if its address resolved to nothing, and SERVICE_FAILURE if and only if it was forwarded and the forward was canceled, found the mailbox closed or timed out, which its text tells; pushes get none. |
| `InputReader.TargetsAreResolved` | crates/router/src/connection.rs:180-188 | What a dispatched call resolved to is the owner of the longest match in the endpoint table at that moment, or nothing covers its address. |
| `InputReader.ActorStream.PollOnce` | crates/router/src/connection/reader.rs:78-114 | One poll finishes the message in processing before it takes another. |
| `PendingCalls.Reachable` | crates/router/src/connection.rs:175-223 | In every run of a caller and a service, a forward reported as successful is of a message the service's connection has written, and a reply passed on stays one to a written call. |
| `PendingCalls.StopAnswersUnwrittenCalls` | crates/router/src/connection.rs:175-223 | A call unanswered when the service's connection ends gets an answer, in any continuation in which its forward ends, if and only if it had not been written to the service. |
| `PendingCalls.UnwrittenCalls` | crates/router/src/connection.rs:264-279 | A forwarded call is unwritten exactly while it is in the mailbox or held, or after a drain canceled it. |
| `PendingCalls.WrittenCallIsForgotten` | crates/router/src/connection.rs:627-641 | For every address and mark above zero: one call is written, its service's connection stops, and its caller gets nothing in any continuation. |
| `PendingCalls.WrittenCallIsAnswered` | crates/router/src/connection.rs:244-262 | The same call is answered if the service replies before its connection stops. |
| `ReplyRouting.RepliesFollowTheirRequest` | crates/router/src/connection.rs:244-262 | Every delivered reply goes to the latest forwarder of its request id, with no Full reply of that conversation before it. |
| `ReplyRouting.FullRepliesAreBounded` | crates/router/src/connection.rs:627-641 | Delivered Full replies of a request id, plus one while a reply is outstanding, never exceed its reply-wanted forwards. |
| `ReplyRouting.PruningIsInvisible` | crates/router/src/connection.rs:111-129 | Removing all pruning ticks from a run changes no delivery. |
| `ReplyRouting.ReplyTable.RememberCaller` | crates/router/src/connection.rs:627-641 | A reply-wanted forward makes its sender the addressee and reports an id already in use; a push leaves the map alone. |
| `ReplyRouting.ReplyTable.RouteReply` | crates/router/src/connection.rs:244-262 | A reply goes to the remembered caller if its channel is open; a Full one ends the conversation either way. |
| `ReplyRouting.ReplyTable.RemoveDead` | crates/router/src/connection.rs:111-129 | The loop removes exactly the entries whose channel is closed. |
| `CommandMatching.EveryCommandGetsItsOwnReply` | src/connection.rs:201-213 | In every run of client, two channels and router, each waiter queue is the replies in flight followed by the requests in flight, so the client never stops on an unmatched reply, and the n-th command's future gets the n-th code the router chose. |
| `CommandMatching.DrainedMeansAnswered` | src/connection.rs:720-736 | With both channels empty no future is left waiting. |
| `CommandMatching.ReadsTakeTheFront` | src/connection.rs:546-593 | In every run, each read takes the message in front of its channel; the router answers each command it reads and the client resolves the future of each reply it reads. |
| `CommandMatching.ReadingAnswersAll` | src/connection.rs:720-736 | From any state of any run, reading both channels out answers every command ever issued. |
| `CommandMatching.OutcomeMeaning` | src/connection.rs:242-322 | For each kind, which codes the client knows, and that 0 means success, 409 a name already registered and any other known code a bad request. |
| `CommandMatching.DecideIsKnown` | src/connection.rs:500-539 | The router sends only codes the client knows for that kind of command. |
| `CommandMatching.DecidedOnItsOwnRequest` | crates/router/src/connection.rs:378-478 | Every code was chosen at a step of the run that read the command issued under the same number, on that command's kind and argument and the table and topics of that step. |
| `CommandMatching.AnswersMeanTheirRequest` | crates/router/src/connection.rs:378-478 | In every run a future's result says what was true when its own request was read: a bind fails exactly when its name was taken, an unbind when the entry was not this connection's to release, an unsubscribe when there was no subscription; subscribing twice succeeds; and the table and topics changed accordingly. |
| `CommandMatching.Client.Send` | src/connection.rs:720-736 | The waiter joins the queue of its kind and the command is the last in the channel. |
| `CommandMatching.Client.HandleReply` | src/connection.rs:201-213 | The front waiter takes the reply; an unknown code or an empty queue stops the client. |
| `RemoteBindings.CommandsRebuildBindings` | src/remote_router.rs:70-89 | Across updates, losses, restarts and reconnects, replaying the commands issued on the current connection from the empty set gives the local bindings. |
| `RemoteBindings.DrainedOwnership` | src/remote_router.rs:184-215 | Once the router has read everything on the current connection, it owns exactly the bindings less the names whose latest bind met another owner; all of them if and only if there is no such name. |
| `RemoteBindings.RefusalsAreForeign` | crates/router/src/connection.rs:479-498 | If every takeover was acknowledged, a name is refused only because a connection of another client held it: the client's own earlier connections are never in the way. |
| `RemoteBindings.ReconnectRegainsBindings` | src/remote_router.rs:70-89 | Across losses, restarts and reconnects: if every takeover was acknowledged and no other client held a name when it was bound, then once the Hello is through and everything is read, the names owned by the client's connections, the current and all earlier ones, are exactly its bindings. |
| `RemoteBindings.CurrentOwnsBindings` | src/remote_router.rs:70-89 | Under the same condition the current connection alone owns exactly the bindings as soon as all commands issued are read. |
| `RemoteBindings.FailedTakeoverRefusesOwnName` | crates/router/src/router.rs:439-450 | From any state: the predecessor still owns the next name and the drop fails; the bind is refused because of the client's own earlier connection. |
| `RemoteBindings.OwnNameRefused` | crates/router/src/router.rs:439-450 | A run of nine steps without any other client that reaches such a state and ends with the client's own name refused to it. |
| `RemoteBindings.OwnNameRegained` | crates/router/src/router.rs:439-450 | The same run with the drop acknowledged ends with the name owned by the new connection. |
| `RemoteBindings.AcknowledgedTakeoverRegainsName` | crates/router/src/router.rs:439-450 | From any state: the predecessor acknowledges the drop, owns nothing any more, and its name is bound to the new connection. |
| `RemoteBindings.NoClashNoRefusal` | crates/router/src/router.rs:380-395 | With every takeover acknowledged, only a bind read while another client holds the name leaves a refused name. |
| `Takeovers.MoveKeepsInv` | crates/router/src/router.rs:431-465 | Under any step of any connection, the client's connections own nothing before their Hello or while it waits, and the instance entry is the latest one greeted until that one is cleaned up. |
| `Takeovers.MoveKeepsChain` | crates/router/src/router.rs:439-450 | As long as takeovers are acknowledged, each of the client's connections is cleaned up before its successor goes on. |
| `Takeovers.OnlyTheActiveOneOwns` | crates/router/src/connection.rs:479-498 | Then a connection of the client that is past its Hello is the only one of them that owns any endpoint, lingering ones included. |
| `RemoteBindings.OthersKeepOwned` | crates/router/src/router.rs:397-413 | No step of the router but its own commands and its own end changes what a connected client owns. |
| `RemoteBindings.CallsAreAnsweredOrWaiting` | src/remote_router.rs:102-133 | Every request for a connection is answered or waiting, never both, and none waits while there is a connection. |
| `RemoteBindings.CallsGetTheCurrentConnection` | src/remote_router.rs:57-78 | A request is answered once, with the connection current at that moment, or with the timeout error and then only by the timeout; the answer never changes. |
| `RemoteBindings.AskingWaits` | src/remote_router.rs:121-133 | In every run, a request without a connection joins the waiting ones unanswered, and one with a connection is answered with it at once. |
| `RemoteBindings.WaitersAreReleased` | src/remote_router.rs:57-78 | In every run, a transport that comes up answers everybody who waits with the new connection, and the timeout everybody with the error. |
| `RemoteBindings.EarlyCallGetsTheConnection` | src/remote_router.rs:102-133 | A request made before there is any connection gets the first one. |
| `RemoteBindings.RemoteRouter.HandleUpdate` | src/remote_router.rs:187-214 | The set is always updated; the command is issued only on a connection. |
| `RemoteBindings.RemoteRouter.CleanPendingCalls` | src/remote_router.rs:102-119 | The loop gives every waiting call the same answer and empties the list. |
| `RemoteBindings.RemoteRouter.BindAll` | src/remote_router.rs:79-85 | Every binding is issued exactly once, in some order. |
| `RemoteBindings.RemoteRouter.OnTransport` | src/remote_router.rs:70-89 | A new transport becomes the connection, releases the waiting calls and rebinds everything. |
| `RemoteBindings.RemoteRouter.Restarting` | src/remote_router.rs:167-171 | A restart forgets the connection and keeps the bindings and the waiting calls. |
| `RemoteBindings.RemoteRouter.Connection` | src/remote_router.rs:121-133 | Answers at once with a connection, otherwise queues the caller. |
| `LocalBindings.BindingsFollowHandlers` | src/local_router.rs:448-476 | In every interleaving of operations, unbind futures and the remote mailbox, the drained bindings contain every bound name that is not lost and otherwise only names whose Remove is unsent. |
| `LocalBindings.BindingsAgreeExactly` | src/local_router.rs:465-475 | With no future under way, the drained bindings equal the handler keys if and only if no bound name had its Remove sent after its latest bind. |
| `LocalBindings.NoClobberNoLoss` | src/local_router.rs:465-475 | Only a Remove sent for a name that is bound again loses a name. |
| `LocalBindings.PromptFuturesAgree` | src/local_router.rs:448-547 | If every unbind future completes before the next operation, the drained bindings are exactly the handler keys. |
| `LocalBindings.LateRemoveLosesBinding` | src/local_router.rs:448-476 | From any state: bind, prefix unbind, bind again, then run the future; the handler is there and the drained registration is not. |
| `LocalBindings.UnbindTakesStrictlyBelow` | src/local_router.rs:449-458 | A prefix unbind takes exactly the keys strictly under the path, with or without a trailing slash. |
| `LocalBindings.BindStores` | src/local_router.rs:435-537 | In every run, a bind stores this handler, also over an older one, and sends its registration; a try-bind does so only on a free address; nothing else changes. |
| `LocalBindings.ExactUnbindRemoves` | src/local_router.rs:540-547 | In every run, an exact unbind takes the handler and the registration of a bound address away and leaves all others. |
| `LocalBindings.PrefixUnbindRemoves` | src/local_router.rs:448-463 | In every run, a prefix unbind leaves no handler under the path and all others, and sends nothing yet. |
| `LocalBindings.RemoveIsSent` | src/local_router.rs:465-475 | A future's step moves one Remove to the end of the mailbox. |
| `LocalBindings.MailboxDrains` | src/remote_router.rs:184-215 | The remote router works its mailbox off, front first, and then has the bindings it stands for. |
| `Registrations.SameBindings` | src/remote_router.rs:184-215 | In every run of the local router, the remote router and the router, the updates taken from the mailbox keep one set of bindings on both sides. |
| `Registrations.EndpointsFollowHandlers` | src/local_router.rs:448-547 | Across binds, unbinds, losses, restarts and reconnects, uncontested and with every takeover acknowledged: once nothing is under way, the router gives the client a name if and only if there is a local handler for it that no late Remove has hit. |
| `Registrations.PromptHandlersAreEndpoints` | src/local_router.rs:448-547 | With unbind futures run promptly, the client's endpoints are exactly the local handler keys. |
| `LocalBindings.LocalRouter.BindRaw` | src/local_router.rs:512-518 | The handler is stored and its registration queued. |
| `LocalBindings.LocalRouter.BindTyped` | src/local_router.rs:435-446 | The same under the path extended by the message id. |
| `LocalBindings.LocalRouter.TryBindRaw` | src/local_router.rs:523-537 | Succeeds exactly when the address is free and never replaces a handler. |
| `LocalBindings.LocalRouter.UnbindExactly` | src/local_router.rs:540-547 | The address has no handler afterwards, all others keep theirs, and a Remove is queued exactly when there was one. |
| `LocalBindings.LocalRouter.UnbindBelow` | src/local_router.rs:448-463 | Collects and removes exactly the matching keys, sends nothing, and reports whether there were any. |
| `LocalBindings.LocalRouter.RunUnbind` | src/local_router.rs:465-475 | The completed future has sent one Remove per key, in order, and left the messages of other futures unsent. |
| `Streaming.AnswerCall` | src/connection.rs:324-391 | The fold writes one reply per stream item and adds an end of stream unless the last item was one. |
| `Streaming.ServiceRepliesAreDelivered` | crates/router/src/connection.rs:244-262 | After a forward, whatever else passes and whatever the service sends, the replies to its id delivered to the caller are exactly those that arrived up to the first Full one. |
| `Streaming.UpToFullMeaning` | crates/router/src/connection.rs:249-252 | Those are a prefix of what arrived, end with their only Full one, and are everything while none was Full. |
| `Streaming.CallerOutput` | crates/router/src/connection.rs:546-585 | The replies that leave the caller's router connection are a subsequence of those offered, and all of them if nothing is canceled and the output is drained. |
| `Streaming.EmitShape` | src/connection.rs:343-388 | The service's replies end with their only Full one and carry the stream's chunks. |
| `Streaming.EmitMeaning` | src/connection.rs:343-388 | One reply per item under the call's id, partial for Part chunks, full for Full chunks and, with the failure code, for errors; the last reply is full, an empty one being added if need be. |
| `Streaming.ExpectedMeaning` | src/lib.rs:68-73 | The stream the caller is meant to hear is every chunk and the error in order, but for an empty Full at the end. |
| `Streaming.StreamEndToEnd` | src/local_router.rs:681-685 | In every run of a call whose own forward did not fail, for every stream of Part chunks optionally ended by a Full chunk or an error: the caller has heard a subsequence of it at any time, and exactly it (an empty Full vanishes) once all is through and no drain of the caller's output was lossy. |
| `Streaming.StreamArrives` | src/local_router.rs:681-685 | For every such stream and every mark above zero there is a run in which the caller hears all of it. |
| `Streaming.DirectRepliesLeaveInOrder` | crates/router/src/connection.rs:166-173 | The router's own replies to a call leave in the order made, all of them once the buffer is out, past the hold queue and the mark. |
| `Streaming.BadRequestIsHeard` | src/connection.rs:438-450 | A call the router refuses is heard as a bad request with the router's text and nothing else. |
| `Streaming.ItemMeaning` | src/connection.rs:441-450 | Code 0 is a Part or Full chunk, 400 a bad request, 500 a failure. |
| `Subsequences.SubseqPositions` | crates/router/src/connection.rs:552-562 | What the end-to-end lemma calls a subsequence stands at strictly increasing positions of the stream. |
| `Streaming.PipeReachable` | src/connection.rs:415-468 | In every such run the service's router has read a prefix of the replies written, and the caller's router has been offered a prefix of those read. |
| `Streaming.CallReplies.StartCall` | src/connection.rs:701-704 | A call opens an empty channel under its request id. |
| `Streaming.CallReplies.HandleReply` | src/connection.rs:415-468 | A reply reaches the channel of its own id only, as the chunk, bad request or failure its code says, and a Full one closes it; an unknown code or an unreadable text on an open call stops the client and changes nothing else. |
| `Streaming.CallReplies.HandleAll` | src/connection.rs:601-606 | Through any traffic, a call's channel gets exactly its own replies up to the first Full one, and is open exactly while there was none, until the first reply that cannot be read stops the client. |
| `Codec.FragmentationIsInvisible` | crates/proto/src/codec.rs:135-152 | For every cut of every byte stream and every payload decoder, the stateful decoder yields the messages, failure, pending header and leftover of parsing the whole stream at once. |
| `Codec.DrainExtends` | crates/proto/src/codec.rs:135-152 | Decoding a longer buffer is decoding a shorter one and then feeding the rest. |
| `Codec.RoundTrip` | crates/proto/src/codec.rs:112-118 | Any list of messages with encodings under 2^32 bytes survives encoding, any fragmentation and decoding, with nothing left over. |
| `Codec.RoundTripExactly` | crates/proto/src/codec.rs:114-115 | A message whose payload codec is a left inverse comes back alone and complete if and only if its encoding is shorter than 2^32 bytes. |
| `Codec.U32RoundTrip` | crates/proto/src/codec.rs:84-91 | Reading a written length gives it back modulo 2^32. |
| `Codec.WordIsBigEndian` | crates/proto/src/codec.rs:88-89 | The length is the big-endian value of its four bytes. |
| `Codec.GsbMessageDecoder.DecodeHeader` | crates/proto/src/codec.rs:84-91 | Consumes four bytes or nothing. |
| `Codec.GsbMessageDecoder.DecodeMessage` | crates/proto/src/codec.rs:93-110 | Consumes a whole payload or nothing and tells a message, an unknown packet and a corrupt one apart. |
| `Codec.GsbMessageDecoder.Decode` | crates/proto/src/codec.rs:135-152 | One call is one decoding step; after a failure the header stays set. |
| `Codec.GsbMessageDecoder.DecodeAvailable` | crates/proto/src/codec.rs:131-153 | The reader's loop over a buffer terminates and yields every complete frame up to the first failure. |
| `Codec.EncodeMessage` | crates/proto/src/codec.rs:112-118 | Appends four big-endian bytes holding the payload's length modulo 2^32, then the payload, and keeps what was there. |
| `Namespace.RoundIsBijective` | crates/proto/src/lib.rs:155-157 | For each byte the FNV-1a round has a two-sided inverse on 64-bit words. |
| `Namespace.TailKeepsDifference` | crates/proto/src/lib.rs:151-157 | A common tail neither merges different hashes nor splits equal ones. |
| `Namespace.OneByteSeparates` | crates/proto/src/lib.rs:147-159 | Byte strings of equal length that differ in exactly one place hash differently. |
| `Namespace.HexOfWord` | crates/proto/src/lib.rs:158-158 | Different 64-bit hashes have different 16-digit names. |
| `Namespace.XorBits` | crates/proto/src/lib.rs:156-156 | The exclusive or sets exactly the bits in which its arguments differ. |
| `Namespace.KnownHashes` | crates/proto/src/lib.rs:149-157 | The hash of the empty string and of "a" are the published FNV-1a values. |
| `Namespace.NamespaceIsTheHash` | crates/proto/src/lib.rs:158-158 | The namespace is the hash written with sixteen lower-case hexadecimal digits. |
| `Namespace.SocketPaths` | crates/proto/src/lib.rs:67-82 | The default and the custom socket path under an absolute runtime directory. |
| `Namespace.CustomSocketsAreDistinct` | crates/proto/src/lib.rs:62-83 | Data directories one byte apart get different socket paths under one runtime directory, and neither shares the default one. |

## Left out

- Sockets, TLS, Unix-socket file checks, the REST and SSE layer, the command line and configuration: input and output.
- Protobuf fields, serde formats and zlib: the payload codec is a parameter.
- The internals of actix, tokio and futures, including mailbox capacity, wakers and timer lengths.
- Broadcast delivery, lag and backlog, and the garbage collection of topics.
- The raw, non-streaming call's reading of its first chunk (src/connection.rs:675-691) and the typed, untyped and actix wrappers.
- A command refused by a closed writer: the client never closes its writer while it runs.
- `MsgTooBig`: the 32-bit length always fits the platforms the program is built for.
- The endpoint's trusted root and private directories, the fallback under the data directory and the macOS variant.
- Ping timing and the last-packet clock: a timeout is a stop that may happen at any time.
