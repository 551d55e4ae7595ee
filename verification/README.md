# Nethub, verified

Nethub is a messaging layer between a hub and its clients: a reliable request, response and
acknowledgement protocol, a login handshake, publish/subscribe with rooms, and the byte-level
way of a packet over TCP and UDP. This project models these parts in Dafny and proves what they
guarantee, and exactly when.

`dafny verify dfyconfig.toml` checks everything.

## How it is laid out

* **The protocol of client.go.** `Endpoint` is one side of a connection as a transition function.
  Every `sync.Map` operation, channel close, send and state swap is one atomic step, and each
  goroutine has an explicit program counter, so all interleavings are runs. `Client` is the same
  thing as an object with mutable tables and shared in-flight entries; each of its methods is
  proved to do what the transition function says. `Connection` puts two endpoints around a network
  that loses, duplicates, delays and reorders packets. `Workers`, `Entries`, `Answers`, `Traffic`,
  `Logins` and `Causes` are the six parts of the invariant. `Guarantees` states theorems over all
  runs; `Outcomes` says what calls return, errors included, `Admission` what gets in and in which order,
  and `Progress` what can always be brought about, by the conversations that `Dialogues` builds; `LoginGate`, `TwoPhase` and `Closing` say exactly when the login gate, the two-phase login
  and the closing of channels are sound, for which `Runs` and `Counterexamples` build the runs that
  break them.
* **Publish/subscribe and the registry.** `Text` (splitting and decimal numbers), `Topics`
  (filters), `PubSub` (the event loop of one centre), `Disposal` (when a disposal
  gets to its end), `Registry` (who is where, as a value) and `Hub` (hub, groups and clients as
  objects that refine it); `Fanout` joins them end to end, and `Sessions` joins the protocol's logins
  to the registry.
* **Bytes.** `Codec`, `Cipher`, `Framing`, and `Pipeline` for all three together; `Arena` for the
  UDP receive buffers.
* **Time.** `Retry` for the retransmission loops, `Heartbeat` for the ticker.

## What was found

Some things the source or its documentation suggest do not hold. Each is stated with the exact
condition under which it does, or with the run that breaks it.

* `SendPacketWithRetry` returns no error when its client is disposed. A worker whose handshake reply
  is pending then changes the state although its peer received nothing
  (`Counterexamples.DisposedHandshake`). For a client that is not disposed the peer has received a
  response (`Guarantees.TwoPhase`).
* That response need not be a success: if an earlier execution of the same request failed, the late
  acknowledgement of the failure completes the handshake (`Counterexamples.StaleAckHandshake`).
  `TwoPhase.Exactly` puts both together for every configuration: two-phase login holds over all runs
  if and only if no handshake request that may succeed may also fail, or be answered by a client that
  may be disposed. In the hub's own handlers the request decides the outcome, so for them only a
  disposal matters (`TwoPhase.SoundWhenDecided`).
* In DISCONNECT the gate lets everything through, and a transport may still hand over messages after
  it has reported the disconnection. A late login then makes a hub LOGINED that has never exchanged
  secrets (`Counterexamples.LateLogin`), and other late packets are dispatched although nobody has
  logged in (`Counterexamples.LateDispatch`). `LoginGate.ChainExactly` and
  `LoginGate.HandshakeExactly` say which late packets break which guarantee; up to the disconnection
  both hold in every run (`LoginGate.LoginChain`, `LoginGate.HandshakeBeforeLogin`).
* A retrying call that times out deletes by id. With two overlapping calls for one id it removes the
  other's entry and closes its own channel twice, which panics (`Counterexamples.RetryClosesTwice`).
  `Request` closes its channel without deleting its entry, so a late response closes it again
  (`Counterexamples.RequestClosesTwice`). These are the only two ways, and they disturb only entries
  of the same id and table (`Closing.ClosedAtMostOnce`): over some network each ends in a second close
  (`Closing.CarefulExactly`), and between the two endpoints too once the peer has sent the response
  (`Closing.TogetherExactly`). Callers avoid them id by id (`Closing.DisciplineSuffices`), and a
  worker's reply needs no care at all (`Closing.RepliesClosedOnce`).
* The comment on `RequestWithRetryByPacket` says it resends until it gets an acknowledgement, and its
  loop watches the entry's `ackBack` for one. The acknowledgement is looked up in `pendingAck` only,
  so that channel is never closed (`Guarantees.RequestsNeverAcked`) and the resending never stops
  before the answer or the timeout (`Guarantees.RequestsKeepResending`).
* ReadMe.md promises MQTT wildcards. A filter without `#` also matches every topic below it, and one
  ending in `#` does not match the parent level; `Topics.PlainAgreesWithMqtt` and
  `Topics.HashAgreesWithMqtt` give the exact topics on which the decisions agree. A publish goes out
  under its client's id, so an id with a level `#` turns every filter below it into one by length
  (`Topics.OwnPrefix`).
* A JSON body containing `@` is cut at it and rejected (`Codec.RoundTrip`).
* A message of 2^32 bytes or more is framed with a truncated length (`Framing.FrameRoundTrip`), and
  the read counter wraps for the last four lengths before that (`Framing.CountersAgree`).
* After a message that is enciphered and then dropped by a full queue, what follows is received
  correctly exactly as far as the keystream repeats itself at the distance of the dropped message's
  length, however many messages follow (`Pipeline.DropDesynchronizes`).
* `Dispose` clears the subscriptions, and so does the hub's listener for the disconnection that
  `Dispose` itself causes. The channel for clears holds one, and the loop that empties it has just been
  cancelled, so with an idle loop and an open connection `Dispose` blocks for good before it raises
  OnDispose (`Disposal.IdleAlwaysHangs`). It gets there in every schedule exactly when no clear is
  pending and the connection is closed already or not listened to (`Disposal.HangExactly`). A client
  whose heartbeat fails on an open connection therefore stays registered (`Registry.HungDisposal`), and
  a login under its id never gets in (`Registry.HungLogin`). What the registry promises, it promises
  for disposals that return (`Registry.Conservation`, `Registry.DisposeExactly`,
  `Registry.LoginExactly`).
* `onClientLogin` breaks the registry for a client that is disposed or already registered, and so
  does the login handler when it renames or moves a registered client (`Registry.LoginKeeps`,
  `Registry.SetIdentityKeeps`). Without a required login this happens to every client that logs in,
  because OnLogin precedes the login that renames it; with one, the logins of a connection are in order
  in every run in which no exchange succeeds after OnLogin (`Sessions.ExpectedExactly`). With encryption
  such an exchange, by a dialer that calls Login again, is only held off by the cipher
  (`Pipeline.NewSecret`).
* The two sides do not switch to the cipher together: the dialer enciphers its login while the hub
  still waits for the acknowledgement of its response, and a login read then is dropped
  (`Counterexamples.LoginTooEarly`). Whichever side is late, everything from the later switch on is
  received exactly if the keystream repeats at the length of what was sent in between
  (`Pipeline.SwitchExactly`).
* SendMessage enciphers and enqueues in two steps. Two messages that concurrent senders enqueue the
  other way round are received exactly if the keystream repeats at the distance of each over the length
  of the other (`Pipeline.SwappedPair`); any other order has such a condition too (`Pipeline.AnyOrder`).
* Every exchange puts new ciphers, at position zero, in the place of the old ones, and a hub gives one
  `Crypto` to all its connections. After a second exchange, on the same connection or on another one,
  what the hub sends is received by the first dialer exactly if its keystream goes on as the new one
  begins (`Pipeline.NewSecret`).
* `Encode` passes its arguments to the cipher in the opposite order; SendMessage only ever passes
  the same slice twice, for which this makes no difference (`Cipher.Crypto.Encode`).

## Assumptions

* Ids are fresh: a request id names its minter, and whoever uses it again uses it for the same
  request. This is what `uuid.New` is for.
* A transport delivers to one side only what the other side sent, one message at a time. Anything may
  be lost, so full queues and undecodable packets are losses.
* A hub-side client receives only after it has become CONNECTED, because the hub registers for its
  messages after that (hub.go:151-156); it may receive on after the disconnection.
* JSON reads back what it wrote and rejects proper prefixes of what it wrote; both ends of an
  encrypted connection hold the same keystream.
* One `onClientLogin` and one `Dispose` do not interleave with each other in what they do to the
  registry; what goes on beside a `Dispose` and may hold it up for good is modelled.
* One goroutine at a time sends on an encrypted connection, except in `Pipeline.AnyOrder` and
  `Pipeline.SwappedPair`; both ends switch to the cipher at the same message, except in
  `Pipeline.SwitchExactly`; and a `Crypto` serves one exchange, except in `Pipeline.NewSecret`.
* The protocol model delivers packets, not bytes: what the cipher does to them is the concern of
  `Pipeline` alone.

## Model

| member | source | states |
|---|---|---|
| Guarantees.GuardsHold | client.go:285-605 | in every reachable state every entry, request and response a goroutine refers to is there, so the guards on tables and goroutines exclude no run |
| Guarantees.OneWorkerPerId | client.go:291-293 | an id is in handlingReq exactly while one worker for it, and only one, is live |
| Guarantees.ExecutionsSeparated | client.go:285-324 | between two executions of one request id the first worker has ended and afterwards another copy of the request was dispatched |
| Guarantees.ResponseProduced | client.go:332-346 | a response that is dispatched was produced by running, on the other side, a request of that id that this side sent |
| Guarantees.ReturnedValueProduced | client.go:521-566 | a value returned without error by Request or RequestWithRetryByPacket was produced by running that very request on the other side |
| Guarantees.SharersAgree | client.go:521-566 | all calls that shared one pending entry and returned without error returned the same value |
| Outcomes.ReturnsExactly | client.go:476-605 | in every run a request returns the error, or without one the value, of a dispatched response to it, and a send returns no error, unless the owner of the entry has timed out, when the timeout may be returned instead; without such a timeout no value comes with an error |
| Outcomes.ReturnsInTime | client.go:521-605 | in a run without a timeout on one side its requests return exactly what was answered and its sends report no error |
| Outcomes.ReturnsEntry | client.go:541-562 | a call returns the error that its entry holds at that moment, and the value only if its channel wakes it |
| Guarantees.AcksWhatItReceives | client.go:285-354 | an acknowledgement of an id is sent exactly if some other packet with that id was received |
| Guarantees.RequestsNeverAcked | client.go:535-548 | in no run is the ackBack channel of a request's entry ever closed |
| Guarantees.RequestsKeepResending | client.go:543-548 | a request loop never sets beAcked, so it may resend until its answer or its timeout |
| Admission.ReceivedExactly | client.go:191-261 | a received packet is kept exactly if the client is LOGINED or disconnected, or it is an ack, a response, an exchange request, or after the exchange a login request; otherwise it leaves no trace |
| Admission.InOrder | client.go:146-154 | in every run what was dispatched, then what is queued, then what waits for room, is exactly what was let in, in the order of arrival |
| Admission.QueueBound | client.go:86-86 | the queue never holds more than 100 packets, and the reader is held up exactly while it holds them |
| Admission.NoneIgnored | client.go:285-292 | a dispatched packet starts a worker exactly if it is a request with an id for which no worker is going |
| Admission.GetsThrough | client.go:191-261 | from every reachable state whatever the peer has sent and may pass can be dispatched by the receiving side alone; once LOGINED that is everything |
| Progress.LogsIn | client.go:680-702 | for every configuration the exchange, if there is one, and the login can succeed, after which both sides are LOGINED |
| Progress.EveryRequest | client.go:476-566 | after that a request with any method and parameters, by either function, can get back exactly its handler's result or error |
| Progress.EveryNotice | client.go:569-605 | and either side can deliver any notice and have its call return no error |
| Progress.InLoop | client.go:535-562 | a call in its loop may always time out, is woken exactly when its channel is closed, cancelled exactly on a disposed client, and resends unless it is a Request |
| Progress.Ends | client.go:476-605 | from every reachable state a call comes by its own steps alone to its end, or to waiting on the entry of another call with its id |
| Progress.Joins | client.go:569-574 | a call under a pending id joins that entry at its first step and sends nothing; a disposal releases it unless it is a SendPacketWithRetry |
| Progress.JoinsLate | client.go:594-605 | one whose id becomes pending between its two lookups joins too and sends nothing, and every disposal releases it |
| Progress.Owns | client.go:575-578 | one that finds nothing pending becomes the owner of a new pending entry, and then sends its packet |
| Progress.NotedMeansQuiet | client.go:543-548 | if an entry's ackBack were closed, its loop would stop resending but not stop waiting |
| Progress.Reconnects | tcp_client.go:29-38 | a dialing client may connect again whatever has happened, and is then in the first state its configuration demands |
| Guarantees.SentMeansReceived | client.go:569-605 | when SendPacketWithRetry returns no error on an undisposed client, the peer has received a packet this side sent under that id |
| Guarantees.AckProvesResponse | client.go:332-336 | an acknowledgement of a request's id proves that the requester received a response to it |
| Guarantees.TwoPhase | client.go:308-321 | a worker of an undisposed client changes the state only after its peer has received a response to that request, a success if no execution of the request failed |
| LoginGate.ConnectedHoldsExchangeOnly | client.go:195-213 | from connect to disconnect, while a hub-side client is CONNECTED, everything queued, dispatched or being worked on is an ack, a response or an exchange request |
| LoginGate.LoginChain | client.go:312-321 | with encryption and login on, LOGINED is entered before a disconnection only after a successful exchange, then EXCHANGED_SECRET, then a successful login |
| LoginGate.ChainExactly | client.go:245-250 | this chain precedes every LOGINED of every run exactly when no login request can arrive after the disconnection |
| LoginGate.HandshakeBeforeLogin | client.go:214-234 | with login on, no packet other than a handshake packet is dispatched before the first LOGINED or disconnection |
| LoginGate.HandshakeExactly | client.go:245-250 | nothing else is dispatched before the first LOGINED of any run exactly when nothing else can arrive after the disconnection |
| Guarantees.LoginRaisedOncePerEntry | client.go:263-283 | OnLogin is raised exactly once for every change of the state into LOGINED |
| Closing.WorkerStoresOrderly | client.go:308-308 | a worker's reply never stores an entry beside a retrying call for the same id that is still waiting |
| Closing.SoundStep | client.go:476-605 | under any id and table: from unique close tokens, a step keeps them unique exactly when no call under it stores beside a live retrying call under it and no unretried Request under it times out |
| Closing.CarefulExactly | client.go:476-605 | from such a state a step is of this kind exactly when afterwards, over no network whatsoever, a channel of that id is closed twice without another step of the other kind; the second close may take a response that the actual peer never sends |
| Closing.TogetherExactly | client.go:476-605 | the same for the two actual endpoints, provided that the peer of a timed-out Request has sent its response |
| Closing.ClosedAtMostOnce | client.go:549-594 | in every run in which the calls under an entry's id are of this kind, its channel is closed at most once and is open exactly while the entry is in its table or with the one goroutine about to close it, whatever happens under other ids and on the other side |
| Closing.RepliesClosedOnce | client.go:569-605 | in every run, without any condition, this holds of every worker's reply |
| Closing.DisciplineSuffices | client.go:476-605 | it holds of an entry if no call begins under its id before the earlier ones have returned and no unretried Request under it times out, whatever callers do with other ids |
| Entries.Conserved | client.go:476-605 | under each id and table, the close tokens of every entry stay one exactly under the steps other than the two that break ownership there |
| Entries.AgreeStep | client.go:551-594 | what a waiting call would delete by id stays its own entry exactly when every store under that id is orderly |
| Entries.ClosedOnce | client.go:337-354 | with unique tokens a channel is closed at most once and is open exactly while its entry is pending |
| Workers.Separated | client.go:285-324 | the log of one endpoint shows non-overlapping executions, whatever it receives |
| Workers.Preserved | client.go:285-324 | every step keeps the correspondence between handlingReq and live workers |
| Answers.Preserved | client.go:332-354 | every step keeps that a finished entry without error has been answered and keeps its result |
| Traffic.Preserved | client.go:285-354 | every step keeps that each packet sent has its cause: an ack something received, a response an execution, a request a call |
| Logins.Preserved | client.go:191-323 | every step keeps that what is queued was admissible, or came after the disconnection, and that each state change was justified by it |
| Causes.Preserved | client.go:263-323 | every step keeps the reasons for state changes and the count of OnLogin |
| Connection.RunInv | client.go:91-605 | the invariant holds after every run of two endpoints over the unreliable network |
| TwoPhase.SoundWithout | client.go:308-321 | whatever the configuration, without disposal and if no handshake request both succeeds and fails, a worker's state change is preceded by the peer's receipt of the successful response |
| TwoPhase.SoundWhenDecided | hub.go:38-64 | in particular when the request decides its outcome, as in the hub's own handlers |
| TwoPhase.Exactly | client.go:308-321 | for every configuration this holds over all runs exactly when no handshake request that may succeed may also fail or be answered by a client that may be disposed |
| Counterexamples.DisposedHandshake | client.go:582-583 | for every configuration and handshake request, a disposed hub-side client changes state although its peer received nothing |
| Counterexamples.StaleAckHandshake | client.go:308-354 | for every configuration, handshake request, error and value, an undisposed hub changes state while the dialer received only that error |
| Counterexamples.LateDispatch | client.go:245-260 | whatever a dialer can send is dispatched after a disconnection, with no LOGINED before it |
| Counterexamples.LateLogin | client.go:245-260 | a login that arrives after a disconnection makes a disposed hub LOGINED without an exchange |
| Counterexamples.LoginTooEarly | client.go:683-697 | whatever the exchange and the login, a dialer in EXCHANGED_SECRET has sent its login while the hub is CONNECTED and would drop it |
| Counterexamples.RetryClosesTwice | client.go:588-594 | two overlapping sends of one id close one channel twice and leave the other's entry without anyone to close it |
| Counterexamples.RequestClosesTwice | client.go:498-501 | a timed-out Request is closed again by its late response |
| Client.Client.ChangeState | client.go:263-283 | the object's state and log become those of the transition function |
| Client.Client.ReceiveMessage | client.go:191-261 | the object keeps a packet exactly under the conditions of Admission.ReceivedExactly |
| Client.Client.OnReceiveRequest | client.go:285-324 | acknowledges a request with an id and starts a worker unless one is live |
| Client.Client.OnReceiveResponse | client.go:332-346 | acknowledges, and takes the answered entry out of its table with its outcome |
| Client.Client.OnReceiveAck | client.go:348-354 | takes the acknowledged entry out of its table |
| Client.Client.Dispatch | client.go:146-154 | the whole object changes as the transition function says for the oldest queued packet |
| Client.Client.LoadOrStore | client.go:575-578 | joins the entry in the table, or makes one, stores it and sends the packet |
| Client.Client.Expire | client.go:498-501 | records the timeout; Request also closes its channel |
| Client.Client.LoadAndDelete | client.go:588-593 | deletes whatever entry is under the id and remembers to close its own |
| Client.Client.CloseChannel | client.go:590-593 | closes the call's own channel and returns its error |
| Client.Client.Advance | client.go:521-605 | every step of the three waiting functions, beAcked included, as the transition function says; a woken call returns the entry's result and error |
| Client.Client.Execute | client.go:294-308 | the handler's outcome becomes the response to be sent |
| Client.Client.Settle | client.go:312-321 | changes state exactly when neither handler nor send reported an error |
| Client.Client.Finish | client.go:293-293 | the worker leaves handlingReq |
| Client.Client.Perform | client.go:91-714 | whatever event comes, the object's new state is the transition function's |
| Topics.Validate | pub_sub.go:102-118 | the early-exit loop decides the recursive matcher |
| Topics.PlainFilter | pub_sub.go:102-118 | a filter F without # matches exactly as F/# does in MQTT 3.1.1 |
| Topics.HashFilter | pub_sub.go:102-118 | G/# matches exactly as G/+/# does in MQTT, and levels after # only demand their number |
| Topics.PlainAgreesWithMqtt | pub_sub.go:102-118 | a filter without # is decided as in MQTT exactly when the topic is not strictly below a matching one |
| Topics.HashAgreesWithMqtt | pub_sub.go:102-118 | a filter ending in # is decided as in MQTT exactly when the topic is not the parent level |
| Topics.Monotone | pub_sub.go:102-118 | extending the published topic never loses a match |
| Topics.AnyRoom | group.go:44-49 | at the root, +/F matches a forwarded topic exactly when F matches it in the room |
| Topics.OneRoom | group.go:44-49 | at the root, a room id and F match exactly when the room is that one and F matches in it |
| Topics.OwnPrefix | client.go:361-363 | a filter under a client's id accepts what that client publishes exactly when the rest accepts the topic it asked for, or, if the id has a level #, by the number of levels |
| Text.SplitConcat | pub_sub.go:58-58 | splitting a/b is the split of a followed by the split of b |
| Text.JoinSplit | pub_sub.go:120-126 | the levels determine the topic |
| Text.ParsePrint | codec.go:98-118 | parsing a printed int64 gives it back |
| Text.PrintShort | group.go:46-46 | the numeral has no leading zero and no more digits than needed |
| Text.AtoiExactly | codec.go:101-104 | exactly an optional sign and at least one digit, within 64 bits, are a number, with their positional value |
| Text.PrintInjective | group.go:46-46 | different ids print differently |
| PubSub.Center.OnSubscribe | pub_sub.go:37-48 | a listener is appended to the list exactly if none has its topic |
| PubSub.Center.OnUnsubscribe | pub_sub.go:49-55 | the list loses its first listener of the topic |
| PubSub.Center.OnPublish | pub_sub.go:56-64 | runs the matching listeners, once each, in list order |
| PubSub.Center.Process | pub_sub.go:34-67 | one round of the event loop on list and callbacks |
| PubSub.ListMeansHistory | pub_sub.go:32-69 | after any history topics are distinct, and a callback is listed exactly when it is the earliest subscription since its topic was last removed |
| PubSub.ListInOrder | pub_sub.go:37-55 | after any history the list is in the order in which the lasting subscriptions of its topics began |
| PubSub.CalledInOrder | pub_sub.go:59-64 | callbacks run in list order |
| PubSub.CalledInSubscriptionOrder | pub_sub.go:56-64 | the callbacks that a publish runs come in that order too, and all get the packet as it was published |
| PubSub.PublishRunsMatching | pub_sub.go:56-64 | after any history a publish runs exactly the callbacks in force whose filter accepts its topic, once each |
| Disposal.RaiseExactly | client.go:704-714 | at any moment of a disposal OnDispose can still be raised exactly while the client's loop lives or at most one clear remains to be stored |
| Disposal.HangExactly | pub_sub.go:28-83 | Dispose reaches OnDispose in every schedule exactly when no clear is pending and the connection is closed already or nobody listens to its closing |
| Disposal.IdleAlwaysHangs | hub.go:157-160 | a Dispose that finds the loop idle and the connection of a TCP or WebSocket hub open reaches OnDispose in no schedule |
| Disposal.ClosesInTime | tcp_conn.go:74-78 | if an open connection closes of itself before anybody disposes of the client, there is a schedule after which the disposal always returns |
| Disposal.LoopReturns | pub_sub.go:32-69 | until then its loop can take what is waiting and go back to its select, whatever has become of the connection |
| Registry.DisposeKeeps | client.go:704-714 | a disposal keeps the registry lawful and leaves no entry of the client exactly when it gets as far as OnDispose or the client is not registered |
| Registry.DisposeExactly | client.go:704-714 | a registered client's disposal keeps it lawful in every schedule exactly when no clear is pending and the connection is closed already or not listened to |
| Registry.HungDisposal | client.go:171-174 | a run in which the disposal of an idle, connected client leaves it registered though disposed |
| Registry.SetIdentityKeeps | hub.go:38-48 | the login handler keeps the registry lawful exactly when it neither renames nor moves a registered client |
| Registry.LoginKeeps | hub.go:245-267 | onClientLogin keeps it lawful exactly when the client is neither disposed nor registered and no eviction hangs |
| Registry.LoginExactly | hub.go:245-250 | a new client's login with a used id replaces the old client in every schedule exactly when the old one's disposal is safe |
| Registry.LoginHangs | hub.go:245-248 | a login whose eviction hangs leaves the old client in its space only and the new one nowhere |
| Registry.HungLogin | hub.go:245-248 | a run in which a login under the id of a connected, idle client does this |
| Registry.LoginReplaces | hub.go:245-250 | a login that returns has disposed the old client of its id and leaves only the new one; all other ids keep theirs |
| Registry.Conservation | hub.go:235-267 | after any run of logins and disposals that return the client map is the disjoint union of the spaces' maps, each entry undisposed and under its own id |
| Registry.FanOut | group.go:42-56 | a publish reaches every client of its room once, every world-space client once under the room's id, and nobody else; every copy keeps the id, the payload and the publisher, and its topic splits into the added level and the levels published |
| Registry.DeliveredCarries | group.go:44-49 | the same for a chain of groups of any length: a copy's topic is below the ids of the groups passed |
| Hub.Group.AddClient | group.go:66-70 | stores the client under its id and sets its group |
| Hub.Group.RemoveClient | group.go:72-75 | deletes one id |
| Hub.Group.Hand | group.go:52-55 | the range over the clients queues the topic once for each entry |
| Hub.Group.PubTopic | group.go:42-56 | the recursion through the parents queues at each client exactly the copies the registry says, and at every group above one copy with the same id, payload and publisher below the ids of the groups passed |
| Hub.Hub.FindOrCreateGroup | hub.go:203-209 | returns the group of the id, made under the root if it is new |
| Hub.Hub.OnDisposed | hub.go:258-266 | the disposal listener removes the client's two entries and nothing else |
| Hub.Hub.Dispose | client.go:704-714 | disposes once, and runs the listener if there is one and the schedule of the loop and the connection lets it get there |
| Hub.Hub.Identify | hub.go:38-48 | the login handler on the objects refines the registry's |
| Hub.Hub.OnClientLogin | hub.go:245-267 | the login on the objects refines the registry's, and stops where the eviction hangs |
| Hub.Hub.Publish | group.go:42-56 | in a lawful hub every client's queue, the group's and the root's grow by exactly what the fan-out says |
| Hub.Hub.OnReceivePublish | client.go:356-368 | a registered client's publish reaches every client of its home once and from a room every world-space client once; each copy carries the request's id and payload, names the publisher, and its topic splits into the room's id (world space only), the publisher's id and the topic asked for; a client without a group publishes to its own centre unchanged |
| Sessions.TidyExactly | hub.go:38-48 | the logins of a connection make an expected history of the registry exactly when after OnLogin it is not raised again and no login asks for another identity |
| Sessions.ExpectedExactly | client.go:263-321 | over all runs of a connection up to its end in which no exchange succeeds after OnLogin, they do exactly when the hub requires a login; over all runs of the protocol, exactly when it moreover does not encrypt |
| Fanout.RunsExactly | client.go:356-368 | one publish runs a callback once if it is in force and its filter accepts the topic as its client's space sees it, otherwise never |
| Fanout.HearsOne | client.go:361-363 | a client that subscribes below another's id is called for that client's publishes in its space exactly when the rest of the filter accepts the topic asked for |
| Fanout.WorldSeesEveryRoom | group.go:42-56 | a world-space +/F is called exactly when F is called in the publisher's room |
| Fanout.WorldSeesOneRoom | group.go:42-56 | a world-space filter naming one room is called for that room's accepted publishes only |
| Codec.RoundTrip | codec.go:95-120 | Unmarshal undoes Marshal exactly for the packets whose JSON has no @, and otherwise fails on the body |
| Codec.SuffixIgnored | udp_client.go:84-93 | an @ and any suffix, as the UDP client appends it, is never seen |
| Codec.UnknownCode | codec.go:98-105 | an unknown type code is rejected whatever follows |
| Codec.KnownCodes | packet.go:11-23 | exactly the packets of the thirteen codes whose JSON has no @ come through |
| Codec.RejectsExactly | codec.go:98-112 | which of the three errors, or which packet, every string gives |
| Cipher.XorExclusive | crypto.go:57-64 | a byte and a key byte give a byte whose binary digits are 1 exactly where theirs differ |
| Cipher.CryptTwice | crypto.go:57-64 | enciphering and deciphering at one position cancel |
| Cipher.CryptShifted | crypto.go:57-64 | deciphering at another position succeeds exactly where the keystream repeats |
| Cipher.CryptApart | crypto.go:57-64 | the same whichever of the two positions is ahead |
| Cipher.CryptOther | crypto.go:39-40 | deciphering with another keystream succeeds exactly where the two are the same |
| Cipher.Stream.XorKeyStream | crypto.go:57-64 | the loop over the buffer enciphers it at the stream's position, also in place, and advances it: each byte becomes its exclusive or with the keystream's, a zero the keystream's byte itself |
| Cipher.Crypto.Encode | crypto.go:57-59 | puts the exclusive or of its second argument with the keystream into its first |
| Cipher.Crypto.Decode | crypto.go:62-64 | puts the exclusive or of its first argument with the keystream into its second |
| Framing.FrameLayout | tcp_conn.go:189-193 | a frame is four bytes of length, the most significant first, and then the message |
| Framing.FrameRoundTrip | tcp_conn.go:172-197 | a frame is read back exactly when its message is shorter than 2^32 bytes |
| Framing.StreamRoundTrip | tcp_conn.go:172-197 | any sequence of shorter messages is read back from its concatenated frames |
| Framing.CutStream | tcp_conn.go:172-187 | from any prefix of the stream exactly the messages whose frames are complete are read |
| Framing.CutFrameExactly | tcp_conn.go:172-183 | a stream that ends within a frame is reported as ended before it and right after its length, otherwise as cut |
| Framing.WholeBounds | tcp_conn.go:172-187 | that number is the largest whose frames fit into the prefix |
| Framing.FramesInjective | tcp_conn.go:189-197 | different sequences give different streams |
| Framing.CountersAgree | tcp_conn.go:184-194 | read and write counters agree on a message exactly up to 2^32 - 5 bytes |
| Framing.Writer.PacketWrite | tcp_conn.go:189-197 | hands the frame, or what the socket takes of it, to the socket and counts it |
| Framing.Reader.PacketRead | tcp_conn.go:172-187 | reads one frame, or reports how the stream ended |
| Framing.Reader.ReadLoop | tcp_conn.go:75-98 | delivers every complete message before the stream ends |
| Pipeline.Deciphered | client.go:653-660 | both positions advance alike, so every message is deciphered where it was enciphered |
| Pipeline.PipelineRoundTrip | codec.go:95-120 | through marshal, cipher and frame and back, every packet whose frame is complete is received unchanged and in order |
| Pipeline.DropDesynchronizes | tcp_conn.go:122-131 | around a message dropped behind the cipher, everything is received exactly if the keystream repeats at that distance over all that follows |
| Pipeline.DroppedBetween | client.go:653-660 | the sender enciphers the messages after the dropped one at positions shifted by its length |
| Pipeline.AnyOrder | client.go:653-660 | messages enciphered at any positions and enqueued in any order are received exactly when the keystream is the same where each was enciphered and is deciphered |
| Pipeline.SwappedPair | client.go:653-660 | two messages enqueued the other way round are received exactly when the keystream repeats at the distance of each over the length of the other; what follows them always is |
| Pipeline.SwitchExactly | client.go:195-241 | if the sides switch to the cipher at different messages, everything from the later switch on is received exactly when the keystream repeats at the length of what was sent in between, and the positions agree exactly when that is zero |
| Pipeline.NewSecret | crypto.go:39-40 | messages sent after a further exchange, among those sent before it, are received exactly when the receiver's keystream goes on as the new one begins |
| Pipeline.Sender.SendPacket | client.go:653-673 | whatever packet one sender at a time sends, the socket has been given exactly the stream of the packets sent so far |
| Pipeline.Receiver.Receive | client.go:214-240 | deciphers the buffer in place and parses it |
| Pipeline.Receiver.ReceiveAll | tcp_conn.go:75-98 | receives what the specification makes of the whole stream |
| Arena.Receiver.Refill | udp_server.go:69-71 | afterwards at least 4096 bytes are free, and a buffer is allocated only if they were not |
| Arena.Receiver.ReadMessage | udp_server.go:67-82 | the datagram is delivered, all earlier slices keep their bytes and stay disjoint, and k buffers imply (k-1)*(1048576-4095) bytes delivered |
| Arena.Receiver.Carve | udp_client.go:95-108 | hands out the bytes just read as a slice disjoint from all others |
| Arena.Receiver.Overwrite | client.go:216-216 | deciphering one delivered slice in place changes no other |
| Retry.WaitMillis | client.go:536-536 | the wait is cut to whole seconds |
| Retry.RetryMillis | client.go:545-545 | the retry interval is cut to whole milliseconds |
| Retry.SendLoop | client.go:579-604 | ends at the answer if it comes before the wait, else at the wait, and with a positive interval has sent between 1 + (t-1)/R and 1 + t/R copies by that time t |
| Heartbeat.StepKeeps | client.go:155-176 | every tick, send, arrival and passing of time keeps both peers recent |
| Heartbeat.WorstCase | client.go:155-176 | if quiet time, tick and delay exceed the timeout, a loss-free run times a peer out |
| Heartbeat.HeartbeatBound | client.go:155-176 | over all loss-free runs from a recent exchange, neither peer times out exactly when 0.3 H + 1 s + D <= H |
| Heartbeat.OneEach | client.go:159-164 | a send is one packet, and a tick adds one exactly if nothing has left for more than three tenths of the timeout |

## Left out

- Closing.ClosedAtMostOnce: nothing is promised for an id under which an unretried Request times out or a call stores beside another's loop, because the source then can close its channel twice.
- Closing.TogetherExactly: whether the peer of a timed-out Request ever answers is left to the run, because its handlers are parameters.
- Pipeline.Sender.SendPacket: concurrent senders on an encrypted connection are not part of the object, because what they cause is stated by Pipeline.AnyOrder.
- Retry.SendLoop: with an interval that is not positive no bound on the copies is stated, because the source sets none.
- Several connections of one dialing client: a connection is modelled with one hub-side client; after a reconnect the hub starts a new one.
- Blocking on full queues: the receive queue blocks its transport reader and the channel for clears blocks a disposal; all other queues are unbounded or lose packets.
- Requests without an id: their handler runs unanswered, and what it does is not modelled.
- Streams: StreamRequest opens with an ordinary request, so the two sides do not form one protocol; their packets are notices in the protocol model.
- Broadcast, and encryption together with retransmission: SendMessage enciphers the caller's slice in place, so a slice sent twice is enciphered twice.
- Remote unsubscription: client.go:121 dispatches an unsubscribe packet to onReceiveSubscribe, whose type assertion (client.go:371) panics before it acknowledges; unsubscription is modelled at one centre.
- Interleaving inside the bodies of onClientLogin and Dispose: each is one step of the registry, which may end where a disposal hangs.
- Sockets, TLS, accept loops, reconnect sleeps, logging, the HTTP upgrade of the WebSocket transport.
- JSON, ECDH, RC4 and UUID generation: parameters or assumptions.
- Rounding of floating-point options: real numbers, cut where the source converts to a duration.
- Attribute filters of subscriptions, handler registration and properties: lookups without interplay.
- The UDP hub: it shares the protocol, but adds no login listener, so the registry does not apply to it.
