# RPC client, command codec and server, modelled in Dafny

This project models the concurrent core of a JSON-RPC library and proves what its
documentation and its callers rely on. `dafny verify dfyconfig.toml` checks all of it.

**The websocket client** (`ClientProtocol`, `ClientInvariant`, `ClientRequests`,
`ClientLifecycle`, `ClientInduction`, `ClientTheorems`, `ClientOperations`, `ClientSockets`,
`ClientWindDown`, `ClientHang`). Senders, the reader, the writer, the reconnect handler,
resending goroutines and callers of Disconnect, Shutdown and Connect are threads of one
transition system; each access to shared state is a step, and a critical section that sends,
takes a second mutex or dials is many. Sockets are numbered: a dial adds one, a reader or
writer loads the last and then waits on it, and doDisconnect closes the last. The peer may
send any id at any time. One inductive invariant carries the theorems: every response
channel is sent to at most once, no request is lost but by the reconnect filter, no lock is
waited for in a cycle, and a finished client is disconnected and shut down.
`ClientOperations` says what each operation, run undisturbed, does to the table, the
deliveries and the connection, as the methods of `Client` do in one go. After Shutdown every
future is answered, and the goroutines can end on their own exactly when none waits for a
dial or on a socket that nobody will close. `RequestTable` is the map over the list, and
`Client` holds the methods that work on it as a class with the source's loops.

**The id on its way** (`Correlation`, `ServerTheorems.EndToEnd`). A 64-bit id passes through
a float64 on both sides, rounded as section 4.3.1 of IEEE 754-2019 says.

**The command codec** (`GoValues`, `JsonCodec`, `Registry`, `CmdCodec`, `CmdTheorems`,
`Assignment`, `AssignmentTheorems`, `CommandCreation`). Types, values and documents are
inductive datatypes. `RegisterCmd`, `MarshalCmd`, `UnmarshalCmd`, `assignField` and `NewCmd`
keep their loops and are proved against specification functions; for each of these a theorem
says when it succeeds, with what, and which error it gives otherwise, and the laws of the
codec are proved about them.

**The server connection** (`QueueHandler`, `ServerReplies`, `ServerPipeline`,
`ServerTheorems`, `ServerOperations`, `ServerWindDown`). The input handler, the services
under the semaphore and the output handler form a second transition system; replies are
accounted for message by message. Its theorems ask for `RegInv` of the registry, which
`Registry.AfterKeeps` gives for whatever sequence of RegisterCmd calls built it.

**Caches, flags, waits** (`UsageText`, `UsageCache`, `UsageFlags`, `StatusLine`, `Backoff`).

Requests are named by serial number; the id of request `r` is `(r + 1) mod 2^64`, so the
wrap of the counter is part of the model, and only the theorems that need unique ids ask for
at most 2^64 of them. Fields called history are written by the steps and read by none. What
dials, reads and writes give, the peer, handler results, `strconv`, JSON text and the
formatting verbs are choices of the schedule or function parameters.

Where the code departs from its documentation, the model follows the code:

- The errors' documentation says that pending requests fail with the disconnect error when
  auto-reconnect is on (`rpclient/infrastructure.go:46-51`). The code fails them only when
  it is off (line 870) and keeps them otherwise.
- A pending request whose method is not reissued is dropped at a reconnect without any
  answer, then or later (lines 462-467). It is the only way a request is lost, as
  `ClientTheorems.NoRequestLost` says in both directions; `RescanNeverAnswered` is a run.
- Shutdown is documented to stop all goroutines as well
  (`rpclient/infrastructure.go:883-885`). A Disconnect before the first connection sets the
  flag with no socket to close (lines 821-831), so after Connect the reconnect handler dials
  a second socket at once; the reader on the first is then released by nobody
  (`ClientHang.ShutdownHangs`). `ClientWindDown` and `ClientHang` say exactly when the
  goroutines end.
- `Connect` is documented to fail when no attempt succeeded; with a negative count it makes
  none and returns nil (`Backoff.NegativeTries`).
- `assignField` returns success without assigning when it meets a nil pointer between
  different base types, and panics on some others; `SuccessMeansAssigned` says exactly when,
  and `NilPointerFails` and `NullStringPanics` are inputs.
- `WaitForShutdown` is documented to return once the goroutines are stopped; a server
  connection's input handler may be left pushing into a full buffer for ever, exactly when
  `ServerWindDown.MayStrandIff` says (`rpcwebsocket.go:405-415`).
- An optional field pointing at a nil slice, map or pointer is sent as null and comes back
  nil, so marshalling is not idempotent there; the theorems give the exact condition.
- A limited user is refused with the code for invalid parameters, and requests with an
  absent or null id are answered when they name a protocol version (JSON-RPC 2.0, sections
  4.1 and 5, is not followed there).

## Model

Paths are relative to the repository.

| member | source | states |
|---|---|---|
| `ClientTheorems.AtMostOnce` | rpclient/infrastructure.go:174-212 | in every reachable state of the websocket client no response channel has been sent to twice, for any schedule, any peer and any number of calls to Disconnect, Shutdown and Connect, even after ids wrap |
| `ClientTheorems.SendsNeverBlock` | rpclient/infrastructure.go:315-326 | whoever is about to answer a request (a refused sender, a reader, the loops of Disconnect and Shutdown under `requestLock`) finds the channel never used, so the send is enabled |
| `ClientTheorems.RepliesReachTheirRequest` | rpclient/infrastructure.go:313-326 | every reply delivered bears the id of the request it was delivered to |
| `ClientTheorems.NoRequestLost` | rpclient/infrastructure.go:723-752 | each request an id was taken for is with its sender, pending, in a reader's hand or answered, never two of these, and none of them if and only if, in the run that led there, the locked filter of resendRequests found it in the list with a method that is not reissued |
| `ClientTheorems.StepDrops` | rpclient/infrastructure.go:455-472 | a step makes a request vanish if and only if it is that filter finding it, and what vanished never comes back |
| `ClientTheorems.DroppedStays` | rpclient/infrastructure.go:462-467 | a request the filter dropped is in no later state answered or anywhere else |
| `ClientTheorems.RescanNeverAnswered` | rpclient/infrastructure.go:440-472 | the failing input: a rescan pending when the connection is lost is dropped after the redial, and no continuation answers it |
| `ClientTheorems.WhereMeans` | rpclient/infrastructure.go:184-192 | the history variable the invariant speaks of is the sender's counter, the table, the reader's counter or the log, each if and only if |
| `ClientTheorems.ShutdownDrains` | rpclient/infrastructure.go:886-910 | once `shutdown` is closed, in every later state with `requestLock` free the table is empty and each request is answered, in a reader's hand, with a sender that will be refused, or was dropped by the filter in the run |
| `ClientTheorems.ShutdownStays` | rpclient/infrastructure.go:840-852 | no step reopens `shutdown` |
| `ClientTheorems.IndexIsSearch` | rpclient/infrastructure.go:200-212 | while ids are unique, looking an id up in `requestMap` in any reachable state is searching `requestList`, and finds every pending request |
| `ClientTheorems.LiveConnectionHasReader` | rpclient/infrastructure.go:353-381 | a connection that New or Connect has finished launching, and whose `disconnected` flag is false, has a reader that has yet to run its final Disconnect, or the handler is between the reset and `start` |
| `ClientTheorems.Quiescence` | rpclient/infrastructure.go:926-932 | for a client New or Connect has finished launching, when the WaitGroup is zero `disconnected` holds, the current `disconnect` channel is closed and, with auto-reconnect, so is `shutdown` |
| `ClientTheorems.ShutdownDuringReconnect` | rpclient/infrastructure.go:535-550 | a run reaches `shutdown` closed with the handler about to clear `disconnected`, so the race the previous row survives does occur |
| `ClientTheorems.FailingRuns` | rpclient/infrastructure.go:868-880 | from any such point the loop of Disconnect or Shutdown has a run that answers exactly what is left of the list, in order, once each, as the method FailAll does |
| `ClientTheorems.ChannelDiscipline` | rpclient/infrastructure.go:814-852 | `shutdown`, `connEstablished` and each generation of `disconnect` are closed at most once, and `disconnected` holds if and only if the current `disconnect` is closed |
| `ClientTheorems.ReplacedOnlyClosed` | rpclient/infrastructure.go:543-546 | when the reconnect handler replaces `disconnect`, the old channel is closed |
| `ClientTheorems.NoWaiterStranded` | rpclient/infrastructure.go:386-438 | whoever waits on an older generation of `disconnect`, or on the current one once disconnected, can go on |
| `ClientTheorems.WaitingIsShallow` | rpclient/infrastructure.go:859-910 | the wait-for relation over `requestLock` and `mtx` has no cycle and no chain longer than two |
| `ClientTheorems.LockHoldersProgress` | rpclient/infrastructure.go:886-910 | the holder of either lock can step, or waits for one that can |
| `ClientSockets.OwnSockets` | rpclient/infrastructure.go:814-834 | no move the client makes on its own leaves a socket open that was not, or releases one that was: open, and doDisconnect will not close it |
| `ClientSockets.WaitersStay` | rpclient/infrastructure.go:353-413 | who waits for a dial, or to read from or write to a socket so left, waits on in every run of own moves, and the WaitGroup stays above zero |
| `ClientWindDown.SomeoneDisconnects` | rpclient/infrastructure.go:886-910 | with `shutdown` closed the connection is disconnected or some goroutine is on its way to doDisconnect, reconnects in progress included |
| `ClientWindDown.ShutdownStopsGoroutinesIff` | rpclient/infrastructure.go:883-910 | from any reachable state with `shutdown` closed, a run of own moves (a blocked read or write ends only because its socket is closed, no dial ends) brings the WaitGroup to zero with nobody launching more, if and only if no goroutine waits for a dial or on a socket that nobody will close |
| `ClientWindDown.WindsDownFrom` | rpclient/infrastructure.go:926-932 | an established client is then disconnected |
| `ClientWindDown.ComesToRest` | rpclient/infrastructure.go:883-910 | with `shutdown` closed no infinite run of own moves exists, whatever the schedule |
| `ClientWindDown.AtRestMeans` | rpclient/infrastructure.go:883-910 | when no own move is left, all goroutines have ended or some wait for a dial or on a socket that nobody will close |
| `ClientWindDown.EveryRequestSettled` | rpclient/infrastructure.go:886-910 | no future hangs after Shutdown: from every reachable state with `shutdown` closed, under any schedule and whatever its sockets and dials wait for, the client comes to rest only with every request made so far answered, those with their senders included, but for the ones the filter had dropped before |
| `ClientHang.LeftOpenOnlyByEarlyDisconnect` | rpclient/infrastructure.go:814-834 | a goroutine waits on a socket that nobody will close only if, earlier in the run, a caller's Disconnect took effect before any dial had succeeded; never when New made the connection |
| `ClientHang.ShutdownStopsGoroutines` | rpclient/infrastructure.go:883-910 | short of such a Disconnect, once `shutdown` is closed and no dial is under way, nobody waits for the outside in any later state, whatever calls, messages and schedule lead there, and whenever the client is at rest the WaitGroup is zero |
| `ClientHang.DialDecides` | rpclient/infrastructure.go:507-559 | when they wait only for a dial, its success and its failure both let all of them end |
| `ClientHang.ShutdownHangs` | rpclient/infrastructure.go:883-910 | the failing input: Disconnect, Connect, a reconnect, Shutdown to its end; the first reader keeps waiting on the first socket and no run of own moves brings the WaitGroup to zero |
| `ClientInduction.StepKeeps` | rpclient/infrastructure.go:723-910 | every step of every goroutine keeps the whole invariant: locks, table, ownership of requests, log, channels, readers, WaitGroup |
| `ClientInduction.ReachableInv` | rpclient/infrastructure.go:1083-1192 | the invariant holds in every reachable state, for all four configurations of auto-reconnect and connect-on-new |
| `ClientOperations.ReplyDelivered` | rpclient/infrastructure.go:268-327 | with the lock free, a reader that reads a reply to an indexed id takes exactly that request out of list and index, sends the reply on its channel, which is one more delivery and nothing else, and goes back to read; the same effect as the method HandleMessage |
| `ClientOperations.OtherMessagesIgnored` | rpclient/infrastructure.go:268-320 | a notification, or a reply to an id no request has, changes nothing |
| `ClientOperations.ReceiveTakes` | rpclient/infrastructure.go:661-675 | a caller can take a response exactly when there is one, and takes it once |
| `ClientOperations.RequestRegistered` | rpclient/infrastructure.go:174-193 | a connected client that is not shut down appends the request to the list and indexes it under its id |
| `ClientOperations.RequestRefused` | rpclient/infrastructure.go:723-752 | otherwise the request is answered with the reason, not connected or shut down, and the table stays |
| `ClientOperations.CallUnmarshalled` | rpclient/infrastructure.go:758-784 | a command that does not marshal is answered with that error and never registered |
| `ClientOperations.MessageQueued` | rpclient/infrastructure.go:431-438 | its message enters `sendChan` when there is room, and need not once disconnected |
| `ClientOperations.ResendSnaps` | rpclient/infrastructure.go:455-472 | under the lock resendRequests takes out the requests that are not reissued, and what it walks is the list as it then is; nothing is answered |
| `ClientOperations.ResendKept` | rpclient/infrastructure.go:440-467 | what is kept are exactly the requests whose method is not on the list of long-running ones |
| `ClientOperations.Resends` | rpclient/infrastructure.go:474-483 | while the connection is up and there is room, every request of that list is sent once |
| `ClientOperations.LocksBlock` | rpclient/infrastructure.go:174-212 | no step that takes a mutex is enabled while it is held |
| `ClientOperations.WaitsExact` | rpclient/infrastructure.go:396-438 | a sender, the writer and the handler can go on exactly when there is room, a message, a disconnect of the connection they saw, or the shutdown, each as its select says |
| `ClientOperations.DisconnectAgain` | rpclient/infrastructure.go:814-865 | Disconnect of a disconnected client changes nothing |
| `ClientOperations.DisconnectKeepsRequests` | rpclient/infrastructure.go:814-881 | with auto-reconnect Disconnect closes the current channel and socket, sets the flag, and leaves the requests |
| `ClientOperations.DisconnectFailsAll` | rpclient/infrastructure.go:859-881 | without it, it also answers every pending request with the disconnect error, once each and in order, empties the table, and closes `shutdown`, as the method Disconnect does |
| `ClientOperations.ShutdownAgain` | rpclient/infrastructure.go:886-897 | Shutdown of a shut down client changes nothing |
| `ClientOperations.ShutdownFailsAll` | rpclient/infrastructure.go:886-910 | the first Shutdown answers every pending request with the shutdown error, once each and in order, empties the table, closes `shutdown` and disconnects, as the method Shutdown does |
| `ClientOperations.ReaderReads` | rpclient/infrastructure.go:353-368 | a reader not told to stop waits on the current socket |
| `ClientOperations.ReaderLeaves` | rpclient/infrastructure.go:358-381 | a read error and the shutdown lead it to Disconnect, and the WaitGroup is told at its end |
| `ClientOperations.WriterWrites` | rpclient/infrastructure.go:396-413 | the writer takes one message and writes it to the current socket, and a write error leads it to Disconnect |
| `ClientOperations.WriterSees` | rpclient/infrastructure.go:402-413 | once disconnected it can stop |
| `ClientOperations.WriterDrains` | rpclient/infrastructure.go:415-428 | on its way out it empties `sendChan` |
| `ClientOperations.HandlerWakes` | rpclient/infrastructure.go:495-515 | the disconnect wakes the reconnect handler, which dials unless the client is shut down |
| `ClientOperations.HandlerRetries` | rpclient/infrastructure.go:508-531 | a failed dial is tried again until the shutdown |
| `ClientOperations.HandlerEnds` | rpclient/infrastructure.go:496-563 | the shutdown ends the handler, and the WaitGroup is told |
| `ClientOperations.HandlerReconnects` | rpclient/infrastructure.go:533-557 | a dial that succeeds makes a new current socket, a new open `disconnect` channel, clears the flag and starts a reader, a writer and a goroutine that resends |
| `ClientOperations.ConnectAgain` | rpclient/infrastructure.go:1148-1161 | Connect of a client that has a connection changes nothing |
| `ClientOperations.ConnectFails` | rpclient/infrastructure.go:1163-1191 | when every attempt fails, or the count is negative, nothing has changed |
| `ClientOperations.ConnectSucceeds` | rpclient/infrastructure.go:1163-1187 | the first success within the attempts asked for, however many fail before it, sets the socket, announces the connection once and starts a reader, a writer and, unless switched off, the reconnect handler |
| `RequestTable.RemoveIsSearch` | rpclient/infrastructure.go:200-212 | with an exact index, removing by id returns what a linear search of the list finds and takes out just that element |
| `RequestTable.UniqueIds` | rpclient/infrastructure.go:162-164 | any two requests share an id exactly when their serial numbers differ by a multiple of 2^64 |
| `RequestTable.AddKeeps` | rpclient/infrastructure.go:190-192 | adding keeps index and list consistent, and keeps the index exact when the id is new |
| `RequestTable.RemoveKeeps` | rpclient/infrastructure.go:204-211 | removal keeps index and list consistent, changes nothing when the id is unknown, and else removes one request with that id |
| `RequestTable.RemoveUnlinks` | rpclient/infrastructure.go:204-211 | a request found is unlinked where it stands in the list and its id deleted; all else keeps its place |
| `RequestTable.KeepKeeps` | rpclient/infrastructure.go:455-472 | dropping what is not reissued keeps the index exact and keeps exactly the other requests |
| `RequestTable.KeptInOrder` | rpclient/infrastructure.go:455-472 | the reissued requests are a subsequence of the list: their original order is kept |
| `Client.Client.NextID` | rpclient/infrastructure.go:162-164 | the counter wraps at 2^64 and names the request by its serial number |
| `Client.Client.AddRequest` | rpclient/infrastructure.go:174-193 | refuses after shutdown without touching the table, else appends to the list and indexes the id |
| `Client.Client.RemoveRequest` | rpclient/infrastructure.go:200-212 | the new table and the request found are those of the specification, and those of a linear search when the index is exact |
| `Client.Client.HandleMessage` | rpclient/infrastructure.go:268-327 | a null, negative or fractional id, or one no request has, changes nothing; else exactly the request with that id leaves the table and its unused channel gets the reply |
| `Client.Client.RemoveAllRequests` | rpclient/infrastructure.go:218-221 | empties the table |
| `Client.Client.CollectResends` | rpclient/infrastructure.go:455-472 | the loop that unlinks while it walks leaves exactly the reissued requests, in order, in the list, the index and the copy |
| `Client.Client.FailAll` | rpclient/infrastructure.go:871-877 | the loop sends one error to each pending request, in order, to channels never used before |
| `Client.Client.DoDisconnect` | rpclient/infrastructure.go:814-834 | closes `disconnect` and sets the flag once; says whether it did |
| `Client.Client.DoShutdown` | rpclient/infrastructure.go:840-852 | closes `shutdown` once; says whether it did |
| `Client.Client.Disconnect` | rpclient/infrastructure.go:859-881 | only the first call, and only without auto-reconnect, answers every pending request with the disconnect error, empties the table and shuts down; otherwise the requests stay |
| `Client.Client.Shutdown` | rpclient/infrastructure.go:886-910 | only the first call answers every pending request with the shutdown error, empties the table and disconnects |
| `Correlation.RoundIsNearest` | rpcserver.go:303-314 | the float64 an integer id becomes is a number of at most 53 significant bits, and no other such number is nearer (IEEE 754-2019, section 4.3.1) |
| `Correlation.TiesToEven` | rpcserver.go:303-314 | of two equally near such numbers the one with the even significand is taken |
| `Correlation.ExactIff` | rpclient/infrastructure.go:302-313 | rounding leaves an id unchanged exactly when its bits below the top 53 are zero |
| `Correlation.RoundIdempotent` | rpclient/infrastructure.go:302-313 | the second trip through a float64 changes nothing more |
| `Correlation.RoundMonotone` | rpclient/infrastructure.go:302-313 | rounding never reverses the order of two ids |
| `Correlation.FirstCollision` | rpclient/infrastructure.go:302-315 | ids up to 2^53 never collide with another, and 2^53+1 collides with 2^53 |
| `Correlation.FitsUint64` | rpclient/infrastructure.go:313 | the echoed id fits the conversion to uint64 exactly for ids below 2^64 - 2^10 |
| `Correlation.ReplyFindsItsRequest` | rpclient/infrastructure.go:313-326 | the echo of a pending request's id takes out that very request if and only if the conversion to uint64 gives the id back; below the last 2^10 ids, whose conversion the language leaves open, if and only if the id survives rounding, as all up to 2^53 do |
| `JsonCodec.EncodeExact` | rpcjson/cmdparse.go:127-131 | the document of a value, kind by kind; null decodes to the zero value of every type |
| `JsonCodec.RoundTrip` | rpcjson/cmdparse.go:127-131 | decoding what was encoded from any well-typed value of any well-formed type gives the value's normal form |
| `JsonCodec.NormIff` | rpcjson/cmdparse.go:127-131 | the normal form is the value itself exactly when no pointer in it leads to something encoded as null and its unexported fields are zero |
| `JsonCodec.NormTyped` | rpcjson/cmdparse.go:127-131 | the normal form has the type and is its own normal form |
| `JsonCodec.DecodeTyped` | rpcjson/cmdparse.go:127-131 | whatever document is decoded, the result has the type: no field is mistyped |
| `Registry.ScanAcceptsIff` | rpcjson/register.go:182-250 | the walk over the fields accepts exactly the structs that meet every documented demand: exported, not embedded, supported kinds, optional fields last, defaults optional and decodable |
| `Registry.ScanBlames` | rpcjson/register.go:187-250 | a refused struct gets the error of its first field at fault, and what the error says of that field is so |
| `Registry.ScanExact` | rpcjson/register.go:187-250 | the walk succeeds exactly without a fault, gathers exactly the decoded tags as defaults, and otherwise reports the first fault of the first field that has one |
| `Registry.RegisterExact` | rpcjson/register.go:153-263 | RegisterCmd in every case: a duplicate method, a flag beyond the three, no pointer to a struct, then the first field at fault; otherwise exactly this method is added, with the counts of its required and optional fields and its defaults |
| `Registry.RegisteredIsLaidOut` | rpcjson/register.go:182-262 | in a registered command the first numReqParams fields are the required ones, the rest optional, the counts add up, and defaults lie on optional fields and have their type |
| `Registry.RegisterKeeps` | rpcjson/register.go:252-262 | registering keeps the invariant of the three maps, maps the type to the new method, and leaves every earlier method as it was |
| `Registry.AfterKeeps` | rpcjson/register.go:153-263 | the invariant holds after any sequence of calls, failed ones included |
| `Registry.SameTypeSameLayout` | rpcjson/register.go:252-262 | two methods registered with one type have the same counts and defaults |
| `CmdCodec.Commands.RegisterCmd` | rpcjson/register.go:153-263 | the loop answers with the first error the specification finds and then changes nothing, else updates all three maps; the invariant is kept |
| `CmdCodec.Commands.MarshalCmd` | rpcjson/cmdparse.go:34-63 | makeParams and NewRequest as loops: the parameters are the encodings of the fields before the first nil optional one, with the four error cases |
| `CmdCodec.Commands.UnmarshalCmd` | rpcjson/cmdparse.go:106-157 | the decoding loop: first failing parameter, wrong count, unknown method, or the decoded fields followed by the defaults |
| `CmdCodec.MarshalExact` | rpcjson/cmdparse.go:34-63 | MarshalCmd in every case: which fields travel (those in front of the first nil optional one, no others), their documents, method and id; and the condition of each error |
| `CmdCodec.UnmarshalExact` | rpcjson/cmdparse.go:68-157 | UnmarshalCmd in every case: it succeeds if and only if the method is registered, the number of parameters lies between the required and all, and each decodes into its field; the three errors each exactly when theirs is the first thing wrong; on success every field is its parameter, its default or zero |
| `CmdCodec.PopulateDefaults` | rpcjson/cmdparse.go:91-101 | fields without a parameter hold their default, or stay zero without one; the given ones are untouched |
| `CmdTheorems.WireRoundTrip` | rpcjson/cmdparse.go:34-157 | whatever MarshalCmd produces for a registered non-nil command, UnmarshalCmd accepts, and returns the fields that travelled in normal form followed by defaults or nil |
| `CmdTheorems.MarshalSucceeds` | rpcjson/cmdparse.go:34-63 | MarshalCmd fails on no registered non-nil command whose types all have a JSON image and whose id is valid |
| `CmdTheorems.RequiredTravel` | rpcjson/cmdparse.go:12-28 | the number of parameters sent is always one checkNumParams accepts |
| `CmdTheorems.TripIsTruncFillIff` | rpcjson/cmdparse.go:12-28 | the trip is exactly cut-at-first-nil-and-fill if and only if the fields that travel are lossless |
| `CmdTheorems.TruncFillIdempotent` | rpcjson/cmdparse.go:91-101 | cutting and filling twice is doing it once |
| `CmdTheorems.NormEncodes` | rpcjson/cmdparse.go:12-63 | a value and its normal form encode to the same document |
| `CmdTheorems.ReencodingExtendsIff` | rpcjson/cmdparse.go:12-28 | re-marshalling what came back only appends parameters, if and only if no optional field that travelled points at an encoded null |
| `CmdTheorems.SecondTripIff` | rpcjson/cmdparse.go:12-157 | a second trip changes nothing exactly when, with the cut before the first field of the original that is a hidden null among those that travel or is filled with nil behind them, each newly carried default is lossless and each field no longer carried is what would be filled in |
| `CmdTheorems.TripIdempotent` | rpcjson/cmdparse.go:12-157 | so with lossless defaults and no hidden null, two trips are one |
| `CmdTheorems.HiddenNullLosesParameters` | rpcjson/cmdparse.go:12-28 | the failing input, a well-typed command of a well laid out type: an optional slice given as a pointer to nil comes back nil, and the next trip drops the parameter after it |
| `CmdTheorems.UnmarshalledIsTyped` | rpcjson/cmdparse.go:121-156 | from the registry's invariant alone: field indexing stays in range and every unmarshalled field, defaults included, has its type |
| `Assignment.BaseType` | rpcjson/cmdparse.go:218-225 | the argument is that many pointers to a type that is no pointer |
| `Assignment.AssignField` | rpcjson/cmdparse.go:232-479 | the pointer loops and the two-level switch compute the specified outcome, the silent success on a nil chain and the panics included |
| `Assignment.OverflowIntExact` | rpcjson/cmdparse.go:298-305 | shifting up and back down in an int64 loses something exactly when the number is out of the N-bit signed range, for every width up to 64 |
| `Assignment.OverflowUintExact` | rpcjson/cmdparse.go:312-318 | the same for unsigned kinds |
| `AssignmentTheorems.IntegersExact` | rpcjson/cmdparse.go:287-369 | between any integer kinds, behind any pointers, the call succeeds if and only if the number is representable in the destination, and then builds a chain of exactly the declared depth ending in it |
| `AssignmentTheorems.ValuesExact` | rpcjson/cmdparse.go:232-479 | an argument without a nil pointer, of any type, for a field of any type: the field gets a chain of its declared depth ending in the value itself, the same number if it is in range, the narrowed float, what the parser made of the string if it fits, the same string or the decoded document; and every other pair of kinds fails |
| `AssignmentTheorems.NilsExact` | rpcjson/cmdparse.go:232-284 | an argument with a nil pointer: between equal base types handed over or a panic, between others an error or, for the pairs a conversion exists for, nothing at all |
| `AssignmentTheorems.AssignTyped` | rpcjson/cmdparse.go:232-479 | an assigned value has the destination's type, and behind a non-nil source all its pointers exist |
| `AssignmentTheorems.SuccessMeansAssigned` | rpcjson/cmdparse.go:232-479 | success without assignment happens exactly behind a nil pointer between different base types, and a panic exactly on following a nil pointer of the same base type or on the string "null" for an aggregate |
| `AssignmentTheorems.NilPointerFails` | rpcjson/cmdparse.go:242-284 | the failing inputs: a nil *int32 for an int64 field succeeds without assigning, a nil *int64 panics |
| `AssignmentTheorems.NullStringPanics` | rpcjson/cmdparse.go:465-474 | and the string "null" for a slice field panics |
| `AssignmentTheorems.PrefilterExact` | rpcjson/cmdparse.go:176-214 | some value converts between two different base types if and only if the prefilter accepts them and they are not an integer with a float |
| `AssignmentTheorems.NilOnlyFromNil` | rpcjson/cmdparse.go:242-252 | an assigned optional field is nil exactly when a nil pointer of its own type was handed over |
| `CommandCreation.NewCmd` | rpcjson/cmdparse.go:507-546 | the loop over the arguments computes the specified command, error or panic |
| `CommandCreation.NewExact` | rpcjson/cmdparse.go:507-546 | NewCmd in every case: it creates a command if and only if the method is registered, the number of arguments fits and each argument can be put into its field; else the error, or the panic, of what is wrong first; and what each field of the command is |
| `CommandCreation.CreatedHolds` | rpcjson/cmdparse.go:532-545 | a command created from non-nil arguments is well typed, holds each argument as assigned with all pointers present, and is zero after them |
| `CommandCreation.ThroughTheWire` | rpcjson/cmdparse.go:507-546 | MarshalCmd then sends exactly one parameter per argument, in order, and UnmarshalCmd returns the command's normal form with the tail defaults of the method filled in, which is the same command when the arguments are lossless, even when the type is also registered under other methods |
| `UsageFlags.String` | rpcjson/register.go:46-68 | the loop over the bits and the trimming print the names of the set flags and the rest in hexadecimal, joined by bars |
| `UsageFlags.ParsePrinted` | rpcjson/register.go:46-68 | splitting at bars and summing named bits and the hexadecimal rest recovers every flag value |
| `UsageFlags.PrintedInjective` | rpcjson/register.go:46-68 | no two flag values print alike |
| `UsageFlags.PrintedWords` | rpcjson/register.go:46-68 | the words printed are the names of the flags set, lowest first, and then the remaining bits in hexadecimal |
| `UsageFlags.AcceptedPrintNames` | rpcjson/register.go:162-167 | a value other than zero prints names only exactly when RegisterCmd accepts it |
| `UsageText.MethodUsageLine` | rpcjson/cmdinfo.go:176-215 | the loop that sorts usages into required and optional ones builds the specified line |
| `UsageText.ParametersInOrder` | rpcjson/cmdinfo.go:176-215 | for a registered command the line lists the parameters in the order they travel, the optional ones in parentheses |
| `UsageText.LineWords` | rpcjson/cmdinfo.go:176-215 | split at spaces, the line of a registered command is the method, the usages of its required fields, and those of its optional fields in one pair of parentheses, provided no usage has a space in it |
| `UsageText.FieldUsageExact` | rpcjson/cmdinfo.go:127-171 | the usage of a field is its tag; else a string's quoted name, or any scalar's name, with the default behind an equals sign |
| `UsageText.SingularExact` | rpcjson/cmdinfo.go:97-109 | plural endings of array names are taken off, ies, es and s |
| `UsageText.CreateRawTransactionLine` | rpcjson/cmdinfo.go:50-215 | the line of createrawtransaction, with a slice of structs, a tagged field and an optional number |
| `UsageCache.CallExact` | rpcjson/cmdinfo.go:220-245 | a call is answered with the fresh text if its method is registered, and with the error if not |
| `UsageCache.StepKeeps` | rpcjson/cmdinfo.go:220-245 | any lookup, write-back or registration keeps every cached text right and everything registered as it was |
| `UsageCache.AnswersAreFresh` | rpcjson/cmdinfo.go:220-245 | in every interleaving each answer is what generating the text now gives |
| `UsageCache.RegistrationsStay` | rpcjson/cmdinfo.go:238-244 | a stale write-back never undoes or alters a registration, from any point of a run on |
| `UsageCache.MethodUsageText` | rpcjson/cmdinfo.go:220-245 | one call answers with the fresh text or the unregistered error, and changes at most a usage text |
| `StatusLine.StatusLines.HttpStatusLine` | rpcserver.go:83-115 | the cached method: answer and new cache are those of the specification |
| `StatusLine.SlowReads` | rpcserver.go:92-112 | the line is the version, a space, the numeral of the code, a space, the text or a substitute naming the code, and the line end |
| `StatusLine.ItoaReads` | rpcserver.go:103-105 | the numeral reads as the code, has no space in it, and is decimal digits without a zero in front, behind a sign for a negative code |
| `StatusLine.CacheExact` | rpcserver.go:83-115 | after any calls the cache holds exactly the slow path's lines of the calls whose code has a text |
| `StatusLine.AnswerExact` | rpcserver.go:83-115 | after any calls the answer is the slow path's, unless the call with negated code and other protocol came before and has a text; then it is that one's |
| `StatusLine.NonNegativeExact` | rpcserver.go:83-115 | so the cache is invisible for all codes that are not negative |
| `StatusLine.NegativeFails` | rpcserver.go:83-90 | the failing input: a negative code after its mirror gets the mirror's line |
| `StatusLine.CallEnds` | rpcserver.go:90-112 | a call is answered after its two critical sections, and leaves the others as they are |
| `StatusLine.ConcurrentExact` | rpcserver.go:90-112 | the same for any interleaving of the two critical sections |
| `QueueHandler.RunKeeps` | rpcwebsocket.go:90-132 | in every reachable state sent and queued make up what was received, the queue is empty exactly when `skipQueue` is set and exactly when `dequeue` is nil, and else `next` is its head |
| `QueueHandler.ReceivedExact` | rpcwebsocket.go:97-114 | what is received is every message that comes on `in` before it is closed or quit is, in order; and the handler returns exactly then |
| `QueueHandler.RunIsLine` | rpcwebsocket.go:90-132 | the channel variables refine a plain queue: a message goes out at once only past an empty queue, else it waits its turn, and each send takes the first |
| `QueueHandler.OutputIsPrefix` | rpcwebsocket.go:90-132 | the output is always a prefix of the input |
| `QueueHandler.Drains` | rpcwebsocket.go:116-125 | from any state it has not exited in, as many sends as the queue is long deliver everything received |
| `QueueHandler.Slice.Shift` | rpcwebsocket.go:117-119 | the in-place copy drops the first element, keeps the others in order and clears the freed slot |
| `QueueHandler.Slice.Append` | rpcwebsocket.go:110 | appends, growing the buffer when it is full |
| `QueueHandler.HandleQueue` | rpcwebsocket.go:90-132 | the loop on any schedule receives exactly the messages that arrive before it returns, sends what the plain queue sends, and closes `out` exactly once |
| `ServerReplies.ParseExact` | rpcserver.go:273-298 | parsing fails with method not found if and only if the method is not registered, and with invalid parameters if and only if it is and their number or one of them does not fit |
| `ServerReplies.VerdictExact` | rpcwebsocket.go:204-322 | the verdict on every message: cut off, served, answered with its fault or ignored, each if and only if it is due; a request is served exactly when it is no notification, parses, and its client is an admin or its method is open to limited users |
| `ServerReplies.ServiceReplyExact` | rpcwebsocket.go:334-355 | the reply of a service in every case: whose result and which error it carries, and when there is none |
| `ServerReplies.JudgeExact` | rpcwebsocket.go:215-296 | only an unauthenticated client is cut off; else a message goes without a reply exactly when it is a notification or its id is no scalar; an error reply bears the message's id or the null id |
| `ServerReplies.ServiceExact` | rpcwebsocket.go:334-355 | a served request gets a reply with its own id unless its id is no scalar or its result does not marshal; the reply carries the handler's result and error, or a refusal when no handler has the method |
| `ServerReplies.ReplyCarriesId` | rpcserver.go:273-314 | whichever way a numeric request is answered, the reply bears the id rounded to 53 bits |
| `ServerPipeline.StepKeeps` | rpcwebsocket.go:194-415 | every step of the input handler, a service, the output handler or an outside Disconnect keeps tokens, order and accounting |
| `ServerPipeline.RunKeeps` | rpcwebsocket.go:447-488 | so they hold in every reachable state |
| `ServerOperations.ReadExact` | rpcwebsocket.go:194-225 | a run reads exactly the messages that come while the input handler is reading, in order |
| `ServerOperations.RequestServed` | rpcwebsocket.go:318-397 | on an idle connection a request without fault takes a token, is served, its reply, when there is one, is written as the next, and the token is given back |
| `ServerOperations.FaultAnswered` | rpcwebsocket.go:215-296 | a message at fault is answered with its fault, written as the next |
| `ServerOperations.OthersHandled` | rpcwebsocket.go:215-330 | a message to ignore leaves no trace; one to be cut off for ends the input handler and disconnects |
| `ServerOperations.OfflineDropped` | rpcwebsocket.go:405-415 | after a disconnect a reply that has not passed its check is dropped, and one that has is pushed all the same |
| `ServerTheorems.AtMostOneReply` | rpcwebsocket.go:334-355 | in every run a message is answered at most once, only if it is answerable, and by a reply that belongs to it |
| `ServerTheorems.LiveAccounting` | rpcwebsocket.go:194-355 | on a live authenticated connection each answerable message is answered or in hand, never both, and no other is answered |
| `ServerTheorems.IdleMeansAnswered` | rpcwebsocket.go:194-355 | when nothing is in hand, exactly the answerable messages have been answered |
| `ServerTheorems.ServicesLimited` | rpcwebsocket.go:318-322 | tokens held are services at work, never more than fifty, and the output buffer stays within its capacity |
| `ServerTheorems.AcceptedIsServed` | rpcwebsocket.go:318-322 | an accepted request waits for its token, is in service or is answered, unless the connection is lost, its id is no scalar, or some handler returned a result that does not marshal |
| `ServerTheorems.ServedOnce` | rpcwebsocket.go:318-322 | no request has two services |
| `ServerTheorems.WrittenInOrder` | rpcwebsocket.go:361-397 | what has been written is always a prefix of what was enqueued |
| `ServerTheorems.BlockedMeansProgress` | rpcwebsocket.go:405-415 | on a live connection, whenever someone waits for a token or for room, a goroutine can step with nothing from the peer and no handler returning; or the buffer is full and a write waits for the peer; or there is room and some handler is running |
| `ServerTheorems.EndToEnd` | rpcserver.go:273-314 | a reply to a client's request, through any run of the server, takes exactly that request out of the client's table if and only if the conversion to uint64 gives the id back; below the last 2^10 ids, if and only if the id survives rounding, as every id up to 2^53 does |
| `ServerWindDown.CommittedBounded` | rpcwebsocket.go:405-415 | once the output handler has left, replies in the buffer and goroutines past the check of SendMessage are at most fifty-one for fifty slots, so at most one goroutine is left pushing at a full buffer |
| `ServerWindDown.MayStrandIff` | rpcwebsocket.go:405-415 | then an input handler past the check may be left behind if and only if the buffer and the services past theirs fill all the slots |
| `ServerWindDown.StrandedForever` | rpcwebsocket.go:456-460 | an input handler left behind never ends, in any continuation, so WaitForShutdown does not return |
| `ServerWindDown.ReaderStrands` | rpcwebsocket.go:405-415 | it happens: on any server that serves some request of an authenticated client, a run in which only the failed write disconnects leaves the input handler behind |
| `ServerWindDown.HandlersEndIff` | rpcwebsocket.go:318-397 | from every reachable disconnected state both handlers can end, with nothing more read and no write succeeding, if and only if the input handler is not left behind |
| `Backoff.WaitIsIdeal` | rpclient/infrastructure.go:524-528 | up to 1844674407 failures in a row each wait is min(5n, 60) seconds, and positive |
| `Backoff.OverflowsNext` | rpclient/infrastructure.go:524-528 | the bound is sharp: the next product wraps and the wait is negative |
| `Backoff.WaitIdealIff` | rpclient/infrastructure.go:524-528 | for every count, the wait is right exactly when it is at most twelve or the wrapped product still reaches a minute |
| `Backoff.WaitsNeverShrink` | rpclient/infrastructure.go:1167-1171 | within the bound waits never decrease nor exceed a minute |
| `Backoff.TotalWait` | rpclient/infrastructure.go:1163-1173 | n failures wait 5n(n+1)/2 seconds in all up to twelve, and 390 + 60(n - 12) beyond |
| `Backoff.Dialer.Connect` | rpclient/infrastructure.go:1148-1192 | never dials more than `tries` times when that is positive; past its two early checks it returns nil exactly when a dial succeeded or `tries` is negative; waits, closes and starts are counted |
| `Backoff.Dialer.Redial` | rpclient/infrastructure.go:507-559 | the redial loop waits as specified from the present count, and a success resets the count and starts the goroutines once |
| `Backoff.NegativeTries` | rpclient/infrastructure.go:1163-1191 | the failing input of the documented promise: with -1 tries Connect returns nil without a connection |

## Left out

- HTTP POST mode: its `sendPostRequest` may answer a request and enqueue it as well, so at-most-once delivery is a property of websocket mode only.
- What is transmitted: `sendChan` is the number of messages in it, not their contents; an old reader or writer can outlive a reconnect, so claims are about the request table, not about the wire.
- Sockets, TLS, dialling, certificates, HTTP headers, logging, signals and real time: choices of the schedule, or absent; a sleep is a recorded duration.
- That every socket is closed at shutdown: a `Connect` after `Shutdown` leaves one open that nobody uses; the claims are about the sockets somebody waits on.
- ClientWindDown.ShutdownStopsGoroutinesIff: says that own moves can lead to the end; that all of them do is `ClientHang.ShutdownStopsGoroutines`, because after an early Disconnect a writer may still take a message and write it to a socket left open.
- JSON text: documents are trees; duplicate and case-folded member names, number syntax and escapes are not modelled, nor is []byte as base64.
- Floats: reals stand for float32 and float64, except for ids, where rounding is exact; whether a float overflows or how it narrows is a parameter.
- Struct tags for encoding/json, custom marshallers, maps with keys other than strings and named pointer types: nested fields travel under their own names.
- Embedded or interface-typed nested fields and `uintptr` values encode to nothing here; `MarshalSucceeds` asks for types without them.
- Populated defaults are values: that the pointer is shared with the registry is not modelled.
- Nil results of `reflect.TypeOf(nil)` in `RegisterCmd`, and error messages: error codes only.
- UsageText.ParametersInOrder: types are finite trees, so types recursive through slices, on which the text would not terminate, cannot be written down.
- wsClient is a transition system on values, not a class, because its goroutines interleave inside `SendMessage`; aliasing of its channels is not captured.
- Reply channels passed to `SendMessage` (`doneChan`): every call in the repository passes nil, so what a goroutine left waiting on one would see is not modelled.
- ServerTheorems.LiveAccounting: assumes that handler results marshal; `AcceptedIsServed` covers the others.
- Backoff.Dialer.Redial: covers one stretch of dials and asks for fewer than 2^63 failures; that `shutdown` ends the loop is in the client's transition system.
- The bound on connected clients: counting and admission are separate steps in the source, so it does not hold.
- Authentication, the handlers themselves, the error code tables, the command constructors and `MustRegisterCmd`: they would only add easy members.
