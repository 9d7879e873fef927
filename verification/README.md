# HassClient core, modelled in Dafny

This project models the core of HassClient, a .NET client for the Home
Assistant WebSocket API, and proves properties of the model. It has four parts.

- **The WebSocket session** (`client.dfy`, `client_protocol.dfy`,
  `socket_event_subscription.dfy`, `delegates.dfy`, `state_changed_listener.dfy`,
  `entity_ids.dfy`). `HassClientWebSocket` is a class whose fields are the
  client's own state:
  - the connection state and the log of its change notifications;
  - the id counter `_lastSentId`;
  - the awaiter table and the callback table, both keyed by message id;
  - the subscription registry, which maps an event type to a
    `SocketEventSubscription`;
  - the events channel, the connection waiter, and the socket and listener
    status.

  The socket is replaced by inputs. Each connection attempt says what the
  socket delivers, and the frames the client writes are appended to a log.
  Cancellations are flags saying at which await a token fired. The background
  tasks become methods that run one iteration at a time:
  - the socket listener;
  - the event dispatcher;
  - the refresh loop of `StateChangedEventListener`.

  The model covers the handshake, the retry loop of `InternalConnect`, sending
  and the rollback of a cancelled command, and the routing of results, pongs
  and events. It also covers adding and removing event handlers, resubscription
  on reconnect, `ClearSocketResources`, `CloseAsync` and `Dispose`.
- **The messages** (`messages.dfy`, `messages_converter.dfy`, `json.dfy`).
  - JSON is a small datatype.
  - `BaseMessage`, `BaseIdentifiableMessage`, `SubscribeEventsMessage`,
    `UnsubscribeEventsMessage` and `RenderTemplateMessage` carry the wire rules.
  - `MessagesConverter` builds its factory table from a fixed list of message
    classes and decodes frames by their `type`.
- **Calendar versions and colours** (`calver.dfy`, `text.dfy`, `colors.dfy`,
  `color_converter.dfy`, `tuple_set_converter.dfy`,
  `selected_properties.dfy`).
  - `CalVer` parsing and printing, with the round trip of canonical versions.
  - The integer colour types: RGB, RGBW, RGBWW, HS, kelvin and mireds.
  - `ColorConverter`, which writes and reads colours, including reads into an
    existing colour.
  - The tuple-set to dictionary converter.
  - The selected-properties contract resolver.
- **Registry entries with change tracking** (`modifiable.dfy`,
  `registry_entry.dfy`, `entity_entries.dfy`, `area.dfy`, `device.dfy`,
  `user.dfy`, `storage_entities.dfy`, `person.dfy`, `sequences.dfy`).
  - A modifiable property is a current and a saved value.
  - A modifiable collection follows `ObservableHashSet`: a duplicate-free list
    of items plus the sets of items added and removed since the last save.
  - `RegistryEntryBase` is a class holding the entry's properties in
    declaration order.
  - Each entry kind (area, device, user, entity registry entry, input boolean,
    person) is a class built around one such entry, with its own setters and
    validation.

`outcomes.dfy` holds the exception kinds of .NET that the source throws, and
`Option`, `Result` and `Outcome`. An operation that throws returns
`Err`/`Fail` with the exception's kind, and the model states what the call
has or has not changed by then.

In these places the code behaves in ways a caller may not expect; the model
follows the code:
- **Unexpected second handshake frame.** A frame that is neither `auth_ok`
  nor `auth_invalid` raises no `AuthenticationException`. The attempt ends
  without an exception, the socket resources are cleared, and the state is
  `Disconnected`.
- **Pending commands at disconnection.** `ClearSocketResources` drops every
  pending awaiter without completing it, so a command waiting for an answer
  keeps waiting. This behaviour is reproduced as written.
- **Duplicate handlers.** Adding the same handler twice to an event type
  stores it twice, and each event then calls it twice. Removal takes away its
  last occurrence.
- **`StateChangedEventListener` unsubscription.** Removing one of several
  handlers of a key never stores the shortened list, so the key keeps every
  handler it had.
- **Connect argument checks.** `ConnectAsync` checks disposal first, then a
  negative retry count without a token (`ArgumentException`), and only then
  whether the client is disconnected (`InvalidOperationException`).

## Model

| member | source | states |
|---|---|---|
| Client.AscendingGrows | src/HassClient.WebSocket/HassClientWebSocket.cs:494-496 | appending `++_lastSentId` to the ids of a connection keeps them strictly ascending and between 1 and the count handed out, until the counter wraps |
| Client.SentIdsDistinct | src/HassClient.WebSocket/HassClientWebSocket.cs:494-496 | the ids written on one connection never repeat and are never 0 |
| Client.ClearedWaiter | src/HassClient.WebSocket/HassClientWebSocket.cs:453 | a pending connection waiter completes with `false`; a completed or missing one is dropped |
| Client.CompleteChannel | src/HassClient.WebSocket/HassClientWebSocket.cs:460 | completing the events channel keeps its queue; completing it twice throws `InvalidOperationException`; no channel stays no channel |
| Client.ConnectLog | src/HassClient.WebSocket/HassClientWebSocket.cs:272-310 | the state log of a first connection starts with `Connecting`, ends with the state reached, and is a prefix of Connecting, Authenticating, Connected |
| Client.ConnectLogAuthenticated | src/HassClient.WebSocket/HassClientWebSocket.cs:289-310 | entering `Authenticating`, then perhaps `Connected`, extends that log to the new state |
| Client.ReadFailure | src/HassClient.WebSocket/HassClientWebSocket.cs:358 | a read ends the restore exactly when it is not a result: a failed read with its exception, any other frame with `InvalidCastException` |
| Client.SubscribedBeforeAppend | src/HassClient.WebSocket/HassClientWebSocket.cs:356-358 | one more subscribe frame, written before the next read, covers that read |
| Client.SubscribedBeforeGrows | src/HassClient.WebSocket/HassClientWebSocket.cs:357 | frames written later leave the subscribe frames already written where they were |
| Client.RestoredInOrderExtend | src/HassClient.WebSocket/HassClientWebSocket.cs:349-365 | an event type not yet restored whose reply window follows the last one extends the restore order |
| Client.RestoredInOrderKeep | src/HassClient.WebSocket/HassClientWebSocket.cs:349-365 | later frames, and ids given to other event types, keep every finished restore window and its id |
| Client.HassClientWebSocket.constructor | src/HassClient.WebSocket/HassClientWebSocket.cs:36-74 | a new client is disconnected, not disposed, reconnects automatically, and every table is empty |
| Client.HassClientWebSocket.PendingRequestsCount | src/HassClient.WebSocket/HassClientWebSocket.cs:113 | the count is 0 exactly when no awaiter is left |
| Client.HassClientWebSocket.SetConnectionState | src/HassClient.WebSocket/HassClientWebSocket.cs:87-96 | only a new value is stored and appended to the change notifications; a change to `Connected` completes a pending waiter with `true` |
| Client.HassClientWebSocket.ClearSocketResources | src/HassClient.WebSocket/HassClientWebSocket.cs:444-462 | disconnected: nothing changes. Otherwise `Disconnected` is announced, reconnection and parameters are dropped, the waiter is cleared, and with a socket the callback and awaiter tables are emptied without completing any task (line 459); no socket throws `NullReferenceException` |
| Client.HassClientWebSocket.MarkDisconnected | src/HassClient.WebSocket/HassClientWebSocket.cs:448-453 | the state becomes `Disconnected` with one notification; no reconnection, no parameters, the waiter cleared |
| Client.HassClientWebSocket.ReleaseSocket | src/HassClient.WebSocket/HassClientWebSocket.cs:455-460 | the socket is aborted, callbacks and awaiters are emptied, and the channel is completed |
| Client.HassClientWebSocket.Dispose | src/HassClient.WebSocket/HassClientWebSocket.cs:121-133 | a second call changes nothing; the first marks the client disposed, clears the socket resources, and then leaves every subscription without handlers and the registry empty |
| Client.HassClientWebSocket.Release | src/HassClient.WebSocket/HassClientWebSocket.cs:126-131 | the socket resources are cleared; unless that throws, the registry is emptied and every entry loses its handlers |
| Client.HassClientWebSocket.ClearRegistry | src/HassClient.WebSocket/HassClientWebSocket.cs:128-131 | every entry ends with no handler and a count of 0, and the registry is empty |
| Client.HassClientWebSocket.WaitForConnection | src/HassClient.WebSocket/HassClientWebSocket.cs:256-267 | neither a timeout nor a token: `ArgumentException`; connected: `true`; no waiter: `false`; otherwise the waiter's task, still running exactly when the waiter is pending |
| Client.HassClientWebSocket.SendMessage | src/HassClient.WebSocket/HassClientWebSocket.cs:487-530 | cancelled at the semaphore: nothing changes. Otherwise the message gets `++_lastSentId` (wrapping); a subscribe or template message whose id already has a callback gets `ArgumentException` and nothing else; else its callback and its awaiter are added, the frame is written, and a send failure is reported |
| Client.HassClientWebSocket.SendAfterWait | src/HassClient.WebSocket/HassClientWebSocket.cs:494-523 | the same as `SendMessage` once the semaphore is held |
| Client.HassClientWebSocket.TakeId | src/HassClient.WebSocket/HassClientWebSocket.cs:496 | the message and the counter take the next id, and the ids written so far stay ascending below it |
| Client.HassClientWebSocket.Enlist | src/HassClient.WebSocket/HassClientWebSocket.cs:498-517 | a callback id already present throws `ArgumentException` and changes nothing; otherwise the event callback is added for subscribe and template messages, and the awaiter is added if its id is free |
| Client.HassClientWebSocket.Resubscribe | src/HassClient.WebSocket/HassClientWebSocket.cs:353-365 | one subscribe frame for the event type is written before each read, so the outbox grows by exactly the reads taken; every read but the last is a failed result; on success the last read is the successful result whose id is returned; otherwise the last read is a failed read (its exception) or not a result (`InvalidCastException`), or the send was refused; awaiters are untouched |
| Client.HassClientWebSocket.Restore | src/HassClient.WebSocket/HassClientWebSocket.cs:345-367 | callbacks dropped except event callbacks added again; the state is `Restoring` iff some type is registered; handlers and counts kept; the restored event types are distinct and, on success, all registered ones; their reply windows are consecutive from the first read to the last; each entry holds the id that ends its own window, and the frame before every read of that window subscribes to its type; the outbox grows by one frame per read |
| Client.HassClientWebSocket.RestoreEach | src/HassClient.WebSocket/HassClientWebSocket.cs:349-366 | the same windows for the loop once the state is `Restoring`; the state log is unchanged |
| Client.HassClientWebSocket.RestoreNext | src/HassClient.WebSocket/HassClientWebSocket.cs:351-365 | one pass of the restore loop: a type not yet restored joins the restore order with the reply window that follows the last one when it passes; a failure leaves the order as it was; the state log is unchanged |
| Client.HassClientWebSocket.RestoreOne | src/HassClient.WebSocket/HassClientWebSocket.cs:351-365 | `Restoring`; the subscribe frames for the type, one per read; on success the entry holds the id ending its reply window; every other entry keeps its id |
| Client.HassClientWebSocket.Handshake | src/HassClient.WebSocket/HassClientWebSocket.cs:291-318 | without a restore the outcome is `HandshakeOutcome`; after the token is sent an `auth_ok` sets the version and `Connected` and completes the waiter; a frame that neither accepts nor rejects leaves the state as it was |
| Client.HassClientWebSocket.Accept | src/HassClient.WebSocket/HassClientWebSocket.cs:302-311 | a version that does not parse fails with its exception; otherwise the version is stored and, after the restore if reconnecting, the client is `Connected` |
| Client.HassClientWebSocket.Connect | src/HassClient.WebSocket/HassClientWebSocket.cs:306-310 | without reconnection it passes, clears `IsReconnecting` and announces `Connected` once |
| Client.HassClientWebSocket.RunAttempt | src/HassClient.WebSocket/HassClientWebSocket.cs:281-320 | a token fired at the check changes nothing; otherwise the socket is new, a connect failure is returned as is, and the handshake decides the rest; a passing attempt starts the listener; the state log of a first connection stays Connecting, Authenticating, Connected |
| Client.HassClientWebSocket.Open | src/HassClient.WebSocket/HassClientWebSocket.cs:284-320 | the same as `RunAttempt` past the token check |
| Client.HassClientWebSocket.Reset | src/HassClient.WebSocket/HassClientWebSocket.cs:284-286 | the counter is 0, nothing is written yet, the waiter is pending, and the socket is new |
| Client.HassClientWebSocket.Authenticate | src/HassClient.WebSocket/HassClientWebSocket.cs:289-320 | `Authenticating` is announced once, then the handshake; the listener starts exactly when it passes |
| Client.HassClientWebSocket.Listen | src/HassClient.WebSocket/HassClientWebSocket.cs:291-320 | the handshake, then the listener when it passes |
| Client.HassClientWebSocket.Conclude | src/HassClient.WebSocket/HassClientWebSocket.cs:336-341 | a connected client is left alone; otherwise it ends `Disconnected` and a failure stays a failure |
| Client.HassClientWebSocket.AttemptOnce | src/HassClient.WebSocket/HassClientWebSocket.cs:277-341 | a token fired at the semaphore fails with nothing cleared; a connect failure is the attempt's outcome; a retry happens exactly when the attempt failed, `RetryDecision` retries it and no token fires in the delay, and the count left is `RetryDecision`'s; a token in the delay fails with `OperationCanceledException`; a failure not retried ends `Disconnected`; `Connected` means success |
| Client.HassClientWebSocket.InternalConnect | src/HassClient.WebSocket/HassClientWebSocket.cs:269-343 | every outcome but the last is `WebSocketException`; at most `retries + 1` attempts, and exactly `min(attempts, retries + 1)` (all of them for unlimited retries) when every connect throws `WebSocketException`, which then fails; `Connected` means success; a failure other than cancellation ends `Disconnected`; a first connection announces exactly Connecting, Authenticating, Connected |
| Client.HassClientWebSocket.Retry | src/HassClient.WebSocket/HassClientWebSocket.cs:275-342 | the same bounds and the same exact count for the loop from a given attempt on |
| Client.HassClientWebSocket.ConnectAsync | src/HassClient.WebSocket/HassClientWebSocket.cs:162-185 | disposed: `ObjectDisposedException`; negative retries without a token: `ArgumentException`; not disconnected: `InvalidOperationException`, each with no state change; success stores the parameters and opens the channel and the dispatcher |
| Client.HassClientWebSocket.CloseAsync | src/HassClient.WebSocket/HassClientWebSocket.cs:194-207 | disposed: `ObjectDisposedException`; disconnected: nothing; a token at the check: `OperationCanceledException`; otherwise the close is requested and, past the semaphore, the socket resources are cleared |
| Client.HassClientWebSocket.ReceiveFrame | src/HassClient.WebSocket/HassClientWebSocket.cs:369-411 | a closed socket ends the loop; a cancelled read stops it; a `WebSocketException` ends it; another exception or a non-incoming frame crashes it; an incoming frame is routed by `Route` |
| Client.HassClientWebSocket.Handle | src/HassClient.WebSocket/HassClientWebSocket.cs:377-400 | the same cases for one read on a live socket |
| Client.HassClientWebSocket.Route | src/HassClient.WebSocket/HassClientWebSocket.cs:381-396 | an event is queued on an open channel; a result or pong with an awaiter removes it and completes its task once (a second completion throws); without an awaiter the frame is dropped |
| Client.HassClientWebSocket.RouteKeepsTasksValid | src/HassClient.WebSocket/HassClientWebSocket.cs:390-392 | routing keeps every awaiter pointing at a task |
| Client.HassClientWebSocket.ListenerEnded | src/HassClient.WebSocket/HassClientWebSocket.cs:412-427 | `Disconnected` is announced; unless closing, the client reconnects when automatic reconnection is on and parameters are known, and otherwise nothing else changes |
| Client.HassClientWebSocket.Reconnect | src/HassClient.WebSocket/HassClientWebSocket.cs:417-426 | with reconnection on and parameters known it connects again with unlimited retries; otherwise the clearing finds nothing to do |
| Client.HassClientWebSocket.RoutedCalls | src/HassClient.WebSocket/HassClientWebSocket.cs:532-543 | a handler is called for an event iff it belongs to the entry for the event's type or to the `"*"` entry and that entry's subscription id is the event's id |
| Client.HassClientWebSocket.EntryCalls | src/HassClient.WebSocket/HassClientWebSocket.cs:535-538 | one entry's handlers, in order, when its id matches; none otherwise |
| Client.HassClientWebSocket.DispatchEvent | src/HassClient.WebSocket/HassClientWebSocket.cs:429-437 | the close token stops the dispatcher; the first queued event goes to the callback under its id: a subscription routes it, a template completes its response once and throws on a second event; no callback drops it |
| Client.HassClientWebSocket.NewTask | src/HassClient.WebSocket/HassClientWebSocket.cs:554 | a new running response task under a fresh ticket |
| Client.HassClientWebSocket.Forget | src/HassClient.WebSocket/HassClientWebSocket.cs:572-576 | the id loses its awaiter and its callback, and nothing else changes |
| Client.HassClientWebSocket.Await | src/HassClient.WebSocket/HassClientWebSocket.cs:557-577 | an answer removes the awaiter and gives a result as is or a pong as a bare success; a cancellation while waiting faults the task and takes a positive id out of both tables |
| Client.HassClientWebSocket.SendCommand | src/HassClient.WebSocket/HassClientWebSocket.cs:545-578 | not connected: `InvalidOperationException` and nothing changes; a cancelled command loses a positive id's awaiter and callback; with a free id the answer is `ExpectedAnswer` and the awaiter table ends as `AwaitersAfter` says |
| Client.HassClientWebSocket.SendConnected | src/HassClient.WebSocket/HassClientWebSocket.cs:550-578 | the same as `SendCommand` past the connection check |
| Client.HassClientWebSocket.Transmit | src/HassClient.WebSocket/HassClientWebSocket.cs:552-576 | a new response task, the send, and after a cancelled send the id's entries removed |
| Client.HassClientWebSocket.SendWithTicket | src/HassClient.WebSocket/HassClientWebSocket.cs:555-576 | the send with the task's ticket, and after a cancelled send a positive id's entries removed |
| Client.HassClientWebSocket.SendCommandWithResult | src/HassClient.WebSocket/HassClientWebSocket.cs:610-619 | disposed: `ObjectDisposedException`; otherwise the command's answer with its error code checked (`Checked`) |
| Client.HassClientWebSocket.SendCommandWithSuccess | src/HassClient.WebSocket/HassClientWebSocket.cs:649-654 | the success flag of the checked answer |
| Client.HassClientWebSocket.AddEventHandlerSubscription | src/HassClient.WebSocket/HassClientWebSocket.cs:666-685 | a blank type: `ArgumentException`; disposed: `ObjectDisposedException`; a new type is subscribed first and entered with the new id only when confirmed, else `false`; then the handler is appended and the count goes up by one; other entries are untouched |
| Client.HassClientWebSocket.Subscribe | src/HassClient.WebSocket/HassClientWebSocket.cs:675-681 | a `subscribe_events` frame carrying the event type is written; a confirmed subscribe enters a fresh, empty entry with the message's id; otherwise the registry is unchanged |
| Client.HassClientWebSocket.RemoveEventHandlerSubscription | src/HassClient.WebSocket/HassClientWebSocket.cs:687-710 | blank: `ArgumentException`; disposed: `ObjectDisposedException`; unknown type: `false`; otherwise the handler's last occurrence goes and the count drops; at 0 the server is asked to unsubscribe the stored id and the entry is removed only when it confirms |
| Client.HassClientWebSocket.Unsubscribe | src/HassClient.WebSocket/HassClientWebSocket.cs:700-707 | a confirmed unsubscribe wrote an `unsubscribe_events` frame carrying the entry's stored subscription id; the entry is removed exactly when the unsubscribe is confirmed |
| Client.SentIdsAppend | src/HassClient.WebSocket/HassClientWebSocket.cs:494-523 | writing an identifiable frame appends exactly its id to the ids written; the authentication frame adds none |
| Client.HassClientWebSocket.Write | src/HassClient.WebSocket/HassClientWebSocket.cs:520-523 | the frame is appended to what was written and the id invariant holds again |
| Client.HandshakeOutcome | src/HassClient.WebSocket/HassClientWebSocket.cs:291-318 | a first frame other than `auth_required`: `AuthenticationException`; `auth_invalid`: `AuthenticationException`; fewer than two frames: a failure; success means the version of an `auth_ok` parses |
| Client.Checked | src/HassClient.WebSocket/HassClientWebSocket.cs:615-616 | a completed answer whose error code throws becomes that exception; any other answer is unchanged |
| Client.SuccessOf | src/HassClient.WebSocket/HassClientWebSocket.cs:652-653 | the result's success flag; faults and pending states pass through |
| Client.ConfirmedIff | src/HassClient.WebSocket/HassClientWebSocket.cs:563-600 | a command is confirmed iff the server answers with a pong, or with a successful result whose error code is only logged |
| ClientProtocol.AnswerOf | src/HassClient.WebSocket/HassClientWebSocket.cs:563-566 | a result is handed over as is, a pong as a bare success, and nothing else is an answer |
| ClientProtocol.CheckResultMessageError | src/HassClient.WebSocket/HassClientWebSocket.cs:581-600 | no error passes; the five general codes throw `InvalidOperationException`, `Unauthorized` `UnauthorizedAccessException`, `Timeout` `TimeoutException`; it passes iff there is no error or the code is another one |
| ClientProtocol.RetryDecision | src/HassClient.WebSocket/HassClientWebSocket.cs:324 | retry iff the exception is `WebSocketException` and retries are unlimited or left; a non-negative count goes down by one |
| ClientProtocol.Next | src/HassClient.WebSocket/HassClientWebSocket.cs:463-479 | the k-th read delivers the k-th frame; past the last it throws `WebSocketException` |
| Delegates.LastIndex | src/HassClient.WebSocket/SocketEventSubscription.cs:27 | the position of the handler's last occurrence, after which it does not occur again; -1 exactly when it is absent |
| Delegates.RemoveLast | src/HassClient.WebSocket/SocketEventSubscription.cs:27 | `-=` takes out exactly one occurrence when the handler is there (the multiset loses one copy) and changes nothing otherwise |
| Delegates.RemoveUndoesAdd | src/HassClient.WebSocket/SocketEventSubscription.cs:21-27 | removing a handler right after adding it gives the invocation list back |
| Delegates.RemoveToEmpty | src/HassClient.WebSocket/StateChangedEventListener.cs:124-125 | the delegate becomes null exactly when it held only that handler |
| SocketEventSubscriptions.CallsOf | src/HassClient.WebSocket/SocketEventSubscription.cs:33 | one call per handler, in order, each with the same event |
| SocketEventSubscriptions.Increment | src/HassClient.WebSocket/SocketEventSubscription.cs:22 | `uint` increment: one more, and 0 after the maximum |
| SocketEventSubscriptions.Decrement | src/HassClient.WebSocket/SocketEventSubscription.cs:28 | `uint` decrement: one less, and the maximum after 0 |
| SocketEventSubscriptions.DecrementUndoesIncrement | src/HassClient.WebSocket/SocketEventSubscription.cs:22-28 | counting down after counting up gives the count back, wrap-around included |
| SocketEventSubscriptions.SocketEventSubscription.constructor | src/HassClient.WebSocket/SocketEventSubscription.cs:10-17 | the given id, no handler, a count of 0 |
| SocketEventSubscriptions.SocketEventSubscription.AddSubscription | src/HassClient.WebSocket/SocketEventSubscription.cs:19-23 | the handler is appended even when present and the count goes up by one; the count keeps matching the list below the `uint` limit |
| SocketEventSubscriptions.SocketEventSubscription.RemoveSubscription | src/HassClient.WebSocket/SocketEventSubscription.cs:25-29 | the handler's last occurrence goes and the count goes down by one regardless; removing an unknown handler keeps the list and leaves the count no longer matching |
| SocketEventSubscriptions.SocketEventSubscription.Invoke | src/HassClient.WebSocket/SocketEventSubscription.cs:31-34 | every handler is called in the order added; none for a null delegate |
| SocketEventSubscriptions.SocketEventSubscription.ClearAllSubscriptions | src/HassClient.WebSocket/SocketEventSubscription.cs:36-40 | no handler, a count of 0, the id kept |
| SocketEventSubscriptions.SocketEventSubscription.SetSubscriptionId | src/HassClient.WebSocket/SocketEventSubscription.cs:15 | the id changes and handlers and count do not |
| StateChangedListeners.StateChangedEventListener.constructor | src/HassClient.WebSocket/StateChangedEventListener.cs:16-30 | both registers empty, the subscription inactive, no signal, not initialised, no cancellation source, no refresh loop |
| StateChangedListeners.StateChangedEventListener.Initialize | src/HassClient.WebSocket/StateChangedEventListener.cs:45-64 | a second call: `InvalidOperationException`; a null client: `ArgumentNullException`; otherwise it succeeds, keeps the client and starts the refresh loop with a live token |
| StateChangedListeners.StateChangedEventListener.Dispose | src/HassClient.WebSocket/StateChangedEventListener.cs:33-39 | before `Initialize`: `NullReferenceException`; otherwise the loop's token is cancelled, and a later call does nothing more |
| StateChangedListeners.StateChangedEventListener.Subscribe | src/HassClient.WebSocket/StateChangedEventListener.cs:71-117 | a null key: `ArgumentNullException`; otherwise the handler is appended under its key, the other register is untouched, and a refresh is signalled exactly when the key is new and the register was empty |
| StateChangedListeners.StateChangedEventListener.Unsubscribe | src/HassClient.WebSocket/StateChangedEventListener.cs:81-132 | a null key: `ArgumentNullException`; a key whose only handler is this one is removed, signalling a refresh when the register is left empty; in every other case the registers stay as they were |
| StateChangedListeners.StateChangedEventListener.Refresh | src/HassClient.WebSocket/StateChangedEventListener.cs:134-160 | without a signal the loop waits; once cancelled it stops; otherwise one signal is taken, and when `active` differs from whether a handler is registered, success toggles it, a declined toggle releases the signal again, and an exception ends the loop |
| StateChangedListeners.StateChangedEventListener.OnStateChangeEvent | src/HassClient.WebSocket/StateChangedEventListener.cs:162-170 | no entity id: `ArgumentNullException`; otherwise the handlers for the entity id, then those for its domain, and none when neither is registered |
| StateChangedListeners.HandlersFor | src/HassClient.WebSocket/StateChangedEventListener.cs:165-168 | a key's handlers; none for an unknown key |
| EntityIds.DomainOfComposed | src/HassClient.Core/Models/RegistryEntries/StorageEntities/StorageEntityRegistryEntryBase.cs:50 | the domain of an id composed from a dot-free domain is that domain |
| EntityIds.ComposedIsEntityIdOf | src/HassClient.Core/Models/RegistryEntries/StorageEntities/StorageEntityRegistryEntryBase.cs:50 | an id composed with a word-character unique id is a valid entity id of its domain |
| EntityIds.DomainString | src/HassClient.Core/Models/RegistryEntries/StorageEntities/StorageEntityRegistryEntryBase.cs:50 | the snake-case text of a known domain is non-empty and has no dot |
| Messages.Lookup | src/HassClient.WebSocket/Messages/BaseIdentifiableMessage.cs:24-25 | a property name finds a value iff the object has that name, and the value is that property's |
| Messages.LookupAt | src/HassClient.WebSocket/Messages/BaseIdentifiableMessage.cs:24-25 | in an object without repeated names, each name finds its own property |
| Messages.RemoveKey | src/HassClient.WebSocket/Serialization/MessagesConverter.cs:51-52 | the name is gone and every other property stays |
| Messages.AddOptional | src/HassClient.WebSocket/Messages/Commands/RenderTemplateMessage.cs:22-26 | a null value is left off; a set one is found under its name; other names find what they found before |
| Messages.LookupAppend | src/HassClient.WebSocket/Messages/Commands/RenderTemplateMessage.cs:22-26 | appending a property does not change what other names find |
| Messages.TemplateFrame | src/HassClient.WebSocket/Messages/Commands/RenderTemplateMessage.cs:19-26 | the frame has the type, the id and the template, and the entity ids and variables exactly when set |
| Messages.NewBaseMessage | src/HassClient.WebSocket/Messages/BaseMessage.cs:21-27 | a null, empty or white-space type throws `ArgumentException`; otherwise the message keeps its type |
| Messages.BaseMessageTextRebuilds | src/HassClient.WebSocket/Messages/BaseMessage.cs:21-39 | the text of a constructed message constructs the same message again |
| Messages.IdentifiableMessage.constructor | src/HassClient.WebSocket/Messages/BaseIdentifiableMessage.cs:16-19 | the type kept, the id 0, not sent yet |
| Messages.IdentifiableMessage.Create | src/HassClient.WebSocket/Messages/BaseIdentifiableMessage.cs:16-19 | a blank type throws `ArgumentException`; otherwise a new message with that type and id 0 |
| Messages.IdentifiableMessage.ToString | src/HassClient.WebSocket/Messages/BaseIdentifiableMessage.cs:28-31 | the type, then " Id:", then digits that read back as the id |
| Messages.IdentifiableMessage.WireHeader | src/HassClient.WebSocket/Messages/BaseIdentifiableMessage.cs:24-25 | the frame carries the type and the id |
| Messages.CommandTypesValid | src/HassClient.WebSocket/Messages/Commands/Subscriptions/SubscribeEventsMessage.cs:9 | the command types the client builds pass the base check |
| Messages.SubscribeEventsMessage.constructor | src/HassClient.WebSocket/Messages/Commands/Subscriptions/SubscribeEventsMessage.cs:8-17 | type "subscribe_events", id 0, the event type given |
| Messages.SubscribeEventsMessage.Serialize | src/HassClient.WebSocket/Messages/Commands/Subscriptions/SubscribeEventsMessage.cs:19-24 | "event_type" is written, with its value, iff the event type is set and is not "*" |
| Messages.UnsubscribeEventsMessage.constructor | src/HassClient.WebSocket/Messages/Commands/Subscriptions/UnsubscribeEventsMessage.cs:7-13 | type "unsubscribe_events", id 0, the subscription id given |
| Messages.Strings | src/HassClient.WebSocket/Messages/Commands/RenderTemplateMessage.cs:23-26 | one string token per element, in order |
| Messages.RenderTemplateMessage.constructor | src/HassClient.WebSocket/Messages/Commands/RenderTemplateMessage.cs:11-15 | type "render_template", id 0, no template or lists, and a response still pending |
| Messages.RenderTemplateMessage.ProcessEventReceivedMessage | src/HassClient.WebSocket/Messages/Commands/RenderTemplateMessage.cs:28-32 | the first event completes the response with its result; a second throws `InvalidOperationException` and keeps the first result |
| Messages.RenderTemplateMessage.Serialize | src/HassClient.WebSocket/Messages/Commands/RenderTemplateMessage.cs:19-26 | a null template cannot be written; otherwise type, id and template, plus the lists exactly when set |
| MessagesConverter.ClassOfClassType | src/HassClient.WebSocket/Serialization/MessagesConverter.cs:26 | every class is found again from the type it reports, so no two classes share a type |
| MessagesConverter.ClassOfClassTypeQueries | src/HassClient.WebSocket/Serialization/MessagesConverter.cs:26 | the same for the authentication messages and the queries |
| MessagesConverter.ClassOfClassTypeCommands | src/HassClient.WebSocket/Serialization/MessagesConverter.cs:26 | the same for the other commands and the subscription |
| MessagesConverter.ClassOfClassTypeReplies | src/HassClient.WebSocket/Serialization/MessagesConverter.cs:26 | the same for unsubscription, events, results, pings and pongs |
| MessagesConverter.BuildFactories | src/HassClient.WebSocket/Serialization/MessagesConverter.cs:21-26 | `ToDictionary` succeeds iff no two classes report the same type, and otherwise throws `ArgumentException`; the table holds every class under its type and nothing else |
| MessagesConverter.DuplicateStays | src/HassClient.WebSocket/Serialization/MessagesConverter.cs:26 | a type reported twice stays so when a class is added |
| MessagesConverter.DuplicateOfLast | src/HassClient.WebSocket/Serialization/MessagesConverter.cs:26 | a class added after one with the same type makes a duplicate |
| MessagesConverter.DistinctExtends | src/HassClient.WebSocket/Serialization/MessagesConverter.cs:26 | a class with a new type keeps the types distinct |
| MessagesConverter.ClassIndex | src/HassClient.WebSocket/Serialization/MessagesConverter.cs:21-24 | every concrete class is in the scanned list |
| MessagesConverter.ListedOnce | src/HassClient.WebSocket/Serialization/MessagesConverter.cs:21-24 | no class is listed twice |
| MessagesConverter.FactoryTableBuilds | src/HassClient.WebSocket/Serialization/MessagesConverter.cs:19-27 | building the table from the scanned classes succeeds |
| MessagesConverter.FactoriesByType | src/HassClient.WebSocket/Serialization/MessagesConverter.cs:17-27 | the table maps every class's type to that class, and each type it holds to the class reporting it |
| MessagesConverter.TokenText | src/HassClient.WebSocket/Serialization/MessagesConverter.cs:41 | `(string)obj["type"]`: missing or null reads as null, a string as its text, an array throws `ArgumentException` |
| MessagesConverter.ToUint | src/HassClient.WebSocket/Serialization/MessagesConverter.cs:51 | a value within `uint` converts to itself; any other overflows |
| MessagesConverter.TokenUint | src/HassClient.WebSocket/Serialization/MessagesConverter.cs:51 | `obj.GetValue("id").Value<uint>()`: missing throws `ArgumentNullException`; a number converts as `ToUint`; null and arrays throw `InvalidCastException` |
| MessagesConverter.WriteJson | src/HassClient.WebSocket/Serialization/MessagesConverter.cs:60-63 | writing always throws `NotImplementedException` |
| MessagesConverter.MessagesConverter.constructor | src/HassClient.WebSocket/Serialization/MessagesConverter.cs:19-27 | the converter holds the table of every class |
| MessagesConverter.MessagesConverter.CanConvert | src/HassClient.WebSocket/Serialization/MessagesConverter.cs:33-36 | exactly the types assignable to `BaseMessage` |
| MessagesConverter.MessagesConverter.ReadJson | src/HassClient.WebSocket/Serialization/MessagesConverter.cs:38-58 | no type: `ArgumentNullException`; an array type: `ArgumentException`; a class's type gives that class, populated from the frame; any other type gives a raw command with that type, the frame's id and the frame without "id" and "type" |
| MessagesConverter.ReadRawCommand | src/HassClient.WebSocket/Serialization/MessagesConverter.cs:49-55 | no id: `ArgumentNullException`; otherwise a raw command with the type, the id, and every other property of the frame |
| MessagesConverter.RemoveAbsentKey | src/HassClient.WebSocket/Serialization/MessagesConverter.cs:52-53 | removing a missing name changes nothing |
| MessagesConverter.RawFrame | src/HassClient.WebSocket/Serialization/MessagesConverter.cs:54 | a raw command's frame carries its type and its id |
| MessagesConverter.StripHeader | src/HassClient.WebSocket/Serialization/MessagesConverter.cs:52-53 | removing "id" and then "type" from a raw command's frame leaves its payload |
| MessagesConverter.StripTwo | src/HassClient.WebSocket/Serialization/MessagesConverter.cs:52-53 | removing the two leading properties leaves the rest in order |
| MessagesConverter.ReadJsonRawFrame | src/HassClient.WebSocket/Serialization/MessagesConverter.cs:38-58 | a raw command of an unregistered type decodes back from its frame with the same type, id and payload in order |
| MessagesConverter.ReadJsonOfType | src/HassClient.WebSocket/Serialization/MessagesConverter.cs:44-48 | a frame with a class's type decodes to that class |
| CalendarVersion.MatchMicroModifier | src/HassClient.Core/Models/CalVer.cs:84-86 | the regular expression's two groups: a maximal run of leading digits, then a maximal run of word characters, together a prefix of the part |
| CalendarVersion.ParseMicroModifier | src/HassClient.Core/Models/CalVer.cs:83-94 | neither group matched: `ArgumentException`; digits beyond `int`: `OverflowException`; otherwise Micro (0 without digits) and a Modifier that does not start with a digit |
| CalendarVersion.ParseVersion | src/HassClient.Core/Models/CalVer.cs:62-101 | null: `ArgumentNullException`; fewer than two or more than three parts: `ArgumentException`; two parts give Micro 0 and no Modifier; every parsed version is canonical |
| CalendarVersion.NoDotInDecimal | src/HassClient.Core/Models/CalVer.cs:39 | an integer prints without a dot |
| CalendarVersion.RenderSplits | src/HassClient.Core/Models/CalVer.cs:39-66 | a printed canonical version splits at its dots into year, month, and micro with modifier |
| CalendarVersion.MatchRenderedMicro | src/HassClient.Core/Models/CalVer.cs:39-86 | the regular expression splits a printed Micro and Modifier back apart |
| CalendarVersion.ParseRender | src/HassClient.Core/Models/CalVer.cs:37-101 | a canonical version printed by `ToString` parses back to itself |
| CalendarVersion.ParseIsStable | src/HassClient.Core/Models/CalVer.cs:37-101 | printing a parsed version and parsing the text again gives the same result |
| CalendarVersion.CalVer.constructor | src/HassClient.Core/Models/CalVer.cs:14-29 | every property is at its default |
| CalendarVersion.CalVer.Parse | src/HassClient.Core/Models/CalVer.cs:62-101 | success assigns exactly the parsed version; a failure throws that exception and leaves every property as it was |
| CalendarVersion.Create | src/HassClient.Core/Models/CalVer.cs:49-54 | a new object holding the parsed version, or the exception of the parse |
| Text.DigitChar | src/HassClient.Core/Models/CalVer.cs:39 | the digit character of a value below 10 |
| Text.NatToString | src/HassClient.Core/Models/CalVer.cs:39 | non-empty decimal digits whose value is the number |
| Text.TrimStart | src/HassClient.Core/Models/CalVer.cs:70 | leading white space removed, and nothing else |
| Text.TrimEnd | src/HassClient.Core/Models/CalVer.cs:70 | trailing white space removed: a prefix not ending in white space |
| Text.ParseInt32 | src/HassClient.Core/Models/CalVer.cs:70-75 | `int.TryParse` accepts only values within `int` |
| Text.ParseInt32OfIntToString | src/HassClient.Core/Models/CalVer.cs:39-70 | an `int` printed in decimal parses back to itself |
| Text.TakeDigits | src/HassClient.Core/Models/CalVer.cs:84 | the longest prefix of digits |
| Text.TakeWordChars | src/HassClient.Core/Models/CalVer.cs:84 | the longest prefix of word characters |
| Text.TakeDigitsOfDigits | src/HassClient.Core/Models/CalVer.cs:84 | digits followed by a non-digit are matched exactly |
| Text.TakeWordCharsOfWord | src/HassClient.Core/Models/CalVer.cs:84 | a word is matched whole |
| Text.Split | src/HassClient.Core/Models/CalVer.cs:66 | at least one piece; no piece holds the separator, and joining them with it gives the input back |
| Text.SplitWithoutSeparator | src/HassClient.Core/Models/CalVer.cs:66 | text without the separator is one piece |
| Text.SplitAfterPiece | src/HassClient.Core/Models/CalVer.cs:66 | a separator-free piece followed by the separator splits off as the first piece |
| Text.SplitJoin | src/HassClient.Core/Models/CalVer.cs:66 | splitting separator-free pieces joined with the separator gives them back |
| Colors.Components | src/HassClient.Core/Models/Color/RgbColor.cs:33-43 | three components for RGB, four for RGBW, five for RGBWW, two for HS |
| Colors.RgbFactoriesKeepComponents | src/HassClient.Core/Models/Color/Color.cs:15-45 | `FromRgb`, `FromRgbw` and `FromRgbww` keep every component in order |
| Colors.RgbFromDrawing | src/HassClient.Core/Models/Color/RgbColor.cs:25-48 | an RGB colour with the drawing colour's red, green and blue |
| Colors.RgbwFromDrawing | src/HassClient.Core/Models/Color/RgbwColor.cs:25-28 | an RGBW colour whose white is the drawing colour's alpha |
| Colors.RgbwwFromDrawing | src/HassClient.Core/Models/Color/RgbwwColor.cs:27-30 | an RGBWW colour whose two whites are both the alpha |
| Colors.FromHs | src/HassClient.Core/Models/Color/HsColor.cs:15-25 | succeeds iff hue is at most 360 and saturation at most 100, keeping both; otherwise `ArgumentOutOfRangeException` |
| Colors.Clamp | src/HassClient.Core/Models/Color/KelvinTemperatureColor.cs:18 | the value when in range, otherwise the nearer bound |
| Colors.ClampIdempotent | src/HassClient.Core/Models/Color/KelvinTemperatureColor.cs:18 | clamping twice is clamping once |
| Colors.FromKelvinTemperature | src/HassClient.Core/Models/Color/KelvinTemperatureColor.cs:16-19 | kelvins clamped into [1000, 40000] |
| Colors.FromMireds | src/HassClient.Core/Models/Color/MiredsTemperatureColor.cs:16-19 | mireds clamped into [153, 500] |
| Colors.TemperatureFactoriesIdempotent | src/HassClient.Core/Models/Color/MiredsTemperatureColor.cs:16-19 | building a temperature colour from a built one's value gives it back |
| Colors.FactoriesAreValid | src/HassClient.Core/Models/Color/Color.cs:15-91 | every colour the factories return is in range |
| Colors.TemperatureText | src/HassClient.Core/Models/Color/KelvinTemperatureColor.cs:27-30 | a temperature prints as decimal digits whose value is the temperature |
| Colors.ArrayText | src/HassClient.Core/Models/Color/RgbwwColor.cs:48-51 | an array colour prints as a bracketed list that reads back as its components |
| ColorConverter.TypeOf | src/HassClient.Core/Serialization/Converters/ColorConverter.cs:30-143 | every colour belongs to a class the converter knows |
| ColorConverter.InstanceShape | src/HassClient.Core/Serialization/Converters/ColorConverter.cs:35-83 | an object that the `as` cast accepts has at least the components its class reads, of the same width |
| ColorConverter.WriteJsonShape | src/HassClient.Core/Serialization/Converters/ColorConverter.cs:14-24 | writing never fails: a name as a string, a temperature as a bare number, any other colour as one array number per component |
| ColorConverter.ToComponent | src/HassClient.Core/Serialization/Converters/ColorConverter.cs:36-39 | the `(byte)`/`(uint)` cast of a token: a number converts iff it fits, and then to itself; any result fits; failures are overflow, format or argument errors |
| ColorConverter.ElementAt | src/HassClient.Core/Serialization/Converters/ColorConverter.cs:36 | `values[i]` cast: a converted element fits; past the end is out of range |
| ColorConverter.ConvertPrefix | src/HassClient.Core/Serialization/Converters/ColorConverter.cs:36-43 | the elements converted in order up to the first that fails, and that element's error; all n exactly when it passes |
| ColorConverter.ConvertedExtends | src/HassClient.Core/Serialization/Converters/ColorConverter.cs:36-39 | one more converting element extends the converted prefix |
| ColorConverter.ConvertPrefixOf | src/HassClient.Core/Serialization/Converters/ColorConverter.cs:36-39 | the converted prefix is fixed by which elements convert and where the first failure is |
| ColorConverter.ConvertNumbers | src/HassClient.Core/Serialization/Converters/ColorConverter.cs:23-39 | written components convert back to themselves |
| ColorConverter.DeserializeUInt | src/HassClient.Core/Serialization/Converters/ColorConverter.cs:121-134 | a number converts iff it fits in a `uint`, and then to itself |
| ColorConverter.DeserializeString | src/HassClient.Core/Serialization/Converters/ColorConverter.cs:108 | a string token gives its text; a failure is a serialization error |
| ColorConverter.Build | src/HassClient.Core/Serialization/Converters/ColorConverter.cs:43-89 | the factory gives a valid colour of the class with exactly the converted components, failing only for HS out of range |
| ColorConverter.ReadNew | src/HassClient.Core/Serialization/Converters/ColorConverter.cs:27-146 | without an existing value: an unknown class reads as null; any other success is a valid colour of the requested class |
| ColorConverter.ReadNewArray | src/HassClient.Core/Serialization/Converters/ColorConverter.cs:43-89 | a success is a valid colour of the requested array class |
| ColorConverter.SetComponent | src/HassClient.Core/Serialization/Converters/ColorConverter.cs:36-85 | a property setter changes exactly one component and keeps the class |
| ColorConverter.Overlay | src/HassClient.Core/Serialization/Converters/ColorConverter.cs:36-39 | the setters run in order overwrite the leading components and keep the rest |
| ColorConverter.OverlayExtends | src/HassClient.Core/Serialization/Converters/ColorConverter.cs:36-39 | the next setter overwrites the next component |
| ColorConverter.OverlayStep | src/HassClient.Core/Serialization/Converters/ColorConverter.cs:36-39 | one more setter extends the overlay by one component |
| ColorConverter.ReadInto | src/HassClient.Core/Serialization/Converters/ColorConverter.cs:33-145 | with an existing value the class never changes; an object the cast rejects is untouched and the call throws; an unknown class leaves it alone and passes |
| ColorConverter.ReadIntoArray | src/HassClient.Core/Serialization/Converters/ColorConverter.cs:33-87 | the array branches with an existing value keep the class, and a rejected cast leaves it untouched and throws |
| ColorConverter.ComponentsDetermine | src/HassClient.Core/Models/Color/RgbwwColor.cs:35-40 | an array colour is determined by its class and its components |
| ColorConverter.ReadNewOfWrite | src/HassClient.Core/Serialization/Converters/ColorConverter.cs:14-146 | reading back what was written without an existing value: a valid colour comes back unchanged, a temperature comes back clamped, an HS colour out of range is rejected |
| ColorConverter.ReadNewArrayOfWrite | src/HassClient.Core/Serialization/Converters/ColorConverter.cs:23-89 | written components go back through the factory exactly |
| ColorConverter.ReadNewKeepsText | src/HassClient.Core/Serialization/Converters/ColorConverter.cs:14-146 | a valid colour prints the same text after a write and a read |
| ColorConverter.ReadIntoOfWrite | src/HassClient.Core/Serialization/Converters/ColorConverter.cs:14-146 | reading what was written into an object of the same class gives exactly that colour, in range or not |
| ColorConverter.ReadIntoArrayOfWrite | src/HassClient.Core/Serialization/Converters/ColorConverter.cs:23-87 | every component is overwritten with the written one |
| ColorConverter.ReadRgbIntoSubclass | src/HassClient.Core/Serialization/Converters/ColorConverter.cs:63-73 | an RGB read into an RGBW or RGBWW object overwrites R, G and B, keeps the whites, and keeps the class |
| ColorConverter.HsReadChecksOnlyNewValues | src/HassClient.Core/Serialization/Converters/ColorConverter.cs:78-90 | a new HS read range-checks hue and saturation; a read into an existing object stores them unchecked |
| ColorConverter.TemperatureReadClampsOnlyNewValues | src/HassClient.Core/Serialization/Converters/ColorConverter.cs:119-143 | a new temperature read clamps; a read into an existing object stores the number as is |
| ColorConverter.UnknownClassReadsNull | src/HassClient.Core/Serialization/Converters/ColorConverter.cs:145 | an unknown class reads as null and leaves an existing object alone |
| ColorConverter.ColorObject.constructor | src/HassClient.Core/Models/Color/Color.cs:6 | a colour object holding the given colour |
| ColorConverter.ReadJson | src/HassClient.Core/Serialization/Converters/ColorConverter.cs:27-146 | without an existing object: a fresh object holding `ReadNew`'s colour, null, or its error; with one: that same object, overwritten as `ReadInto` says, or the error it throws |
| ColorConverter.ReadArrayColor | src/HassClient.Core/Serialization/Converters/ColorConverter.cs:30-90 | the same for the four array classes |
| ColorConverter.ReadIntoFirstFails | src/HassClient.Core/Serialization/Converters/ColorConverter.cs:36-84 | a first element that does not convert leaves the object untouched and throws its error, whatever the object's class |
| ColorConverter.ReadIntoWrongClass | src/HassClient.Core/Serialization/Converters/ColorConverter.cs:35-36 | a first element that converts into an object the cast rejects throws `NullReferenceException` and changes nothing |
| ColorConverter.Advance | src/HassClient.Core/Serialization/Converters/ColorConverter.cs:36-39 | one more converting element is one more setter |
| ColorConverter.ReadIntoStops | src/HassClient.Core/Serialization/Converters/ColorConverter.cs:36-40 | the object keeps the components set before the first failing element, and the call throws its error; with no failure all are set |
| ColorConverter.ReadIntoConverted | src/HassClient.Core/Serialization/Converters/ColorConverter.cs:36-40 | an accepted object gets the converted prefix overlaid, with the outcome of the conversion |
| ColorConverter.OverwriteRgbw | src/HassClient.Core/Serialization/Converters/ColorConverter.cs:35-40 | R, G, B and W assigned in turn in place, as `ReadIntoArray` says, returning the same object |
| ColorConverter.OverwriteRgbww | src/HassClient.Core/Serialization/Converters/ColorConverter.cs:51-57 | R, G, B, CW and WW assigned in turn in place, as `ReadIntoArray` says |
| ColorConverter.OverwriteRgb | src/HassClient.Core/Serialization/Converters/ColorConverter.cs:68-72 | R, G and B assigned in turn in place, as `ReadIntoArray` says |
| ColorConverter.OverwriteHs | src/HassClient.Core/Serialization/Converters/ColorConverter.cs:83-86 | Hue and Saturation assigned in place without range checks, as `ReadIntoArray` says |
| Json.ParseItemsText | src/HassClient.Core/Serialization/Converters/ColorConverter.cs:23 | the comma-separated numbers a colour prints read back as those numbers |
| Json.ParseListText | src/HassClient.Core/Serialization/Converters/ColorConverter.cs:23 | `JArray.Parse` of a printed number list gives one number token per component |
| TupleSetConverter.Add | src/HassClient.Core/Serialization/Converters/TupleSetToDictionaryConverter.cs:31 | `Dictionary.Add` appends a new key and rejects a present one with `ArgumentException` |
| TupleSetConverter.ToDictionary | src/HassClient.Core/Serialization/Converters/TupleSetToDictionaryConverter.cs:31 | a success has distinct keys and one entry per inner array, in order: element 0 as the key, element 1 (or null) as the value |
| TupleSetConverter.ReadJson | src/HassClient.Core/Serialization/Converters/TupleSetToDictionaryConverter.cs:22-32 | null or an empty array reads as an empty dictionary; any dictionary read has distinct keys |
| TupleSetConverter.WriteJson | src/HassClient.Core/Serialization/Converters/TupleSetToDictionaryConverter.cs:14-19 | each entry becomes the pair `[key, value]`, in order |
| TupleSetConverter.ToDictionaryOfWrite | src/HassClient.Core/Serialization/Converters/TupleSetToDictionaryConverter.cs:17-31 | the pairs written for a dictionary convert back to it, entry for entry |
| TupleSetConverter.ReadJsonOfWrite | src/HassClient.Core/Serialization/Converters/TupleSetToDictionaryConverter.cs:14-32 | reading what was written gives the same dictionary |
| TupleSetConverter.DistinctPairsRead | src/HassClient.Core/Serialization/Converters/TupleSetToDictionaryConverter.cs:31 | well-formed pairs with distinct keys always read |
| TupleSetConverter.RepeatedKeyFails | src/HassClient.Core/Serialization/Converters/TupleSetToDictionaryConverter.cs:31 | a repeated key makes the read throw `ArgumentException` |
| SelectedProperties.Keep | src/HassClient.Core/Serialization/SelectedPropertiesContractResolver.cs:29 | a property is kept iff it is one of the base properties and its member name is selected, each as many times as it occurs there |
| SelectedProperties.KeepIsSubsequence | src/HassClient.Core/Serialization/SelectedPropertiesContractResolver.cs:29 | the kept properties are in base order |
| SelectedProperties.KeepSingle | src/HassClient.Core/Serialization/SelectedPropertiesContractResolver.cs:29 | selecting one member name that one property carries keeps exactly that property |
| SelectedProperties.NoneKept | src/HassClient.Core/Serialization/SelectedPropertiesContractResolver.cs:29 | a name that no property carries keeps nothing |
| SelectedProperties.SelectedPropertiesContractResolver.constructor | src/HassClient.Core/Serialization/SelectedPropertiesContractResolver.cs:14 | no selection yet |
| SelectedProperties.SelectedPropertiesContractResolver.SetSelectedProperties | src/HassClient.Core/Serialization/SelectedPropertiesContractResolver.cs:19-23 | null: `ArgumentNullException` and nothing changes; otherwise the selection is the set of the names given |
| SelectedProperties.SelectedPropertiesContractResolver.CreateProperties | src/HassClient.Core/Serialization/SelectedPropertiesContractResolver.cs:26-30 | no base property: an empty list, selection or not; before a selection and with at least one base property: `NullReferenceException`; otherwise exactly the selected base properties, in base order |
| Modifiable.NewProperty | src/HassClient.Core/Models/RegistryEntries/Area.cs:13-15 | a new property has its name and kind, holds the default (or no items), and has nothing pending |
| Modifiable.SetValue | src/HassClient.Core.Tests/Models/AreaTests.cs:47-69 | the setter stores the value and keeps the saved one; pending iff the value differs from the saved one |
| Modifiable.Without | src/HassClient.Core.Tests/Models/ModifiablePropertyCollectionTests.cs:85-94 | exactly the items not dropped, in order, without repeats when there were none |
| Modifiable.Save | src/HassClient.Core.Tests/Models/ModifiablePropertyCollectionTests.cs:42-50 | the current value becomes the saved one (a set forgets its added and removed items), and nothing is pending |
| Modifiable.Discard | src/HassClient.Core.Tests/Models/ModifiablePropertyCollectionTests.cs:52-72 | a scalar gets its saved value back; a set drops its added items and re-appends its removed ones; nothing is pending |
| Modifiable.Insert | src/HassClient.Core.Tests/Models/ModifiablePropertyCollectionTests.cs:13-40 | a present item changes nothing; a rejected item throws `InvalidOperationException`; otherwise the item is appended |
| Modifiable.Remove | src/HassClient.Core.Tests/Models/ModifiablePropertyCollectionTests.cs:85-94 | reports whether the item was there, and the item is gone |
| Modifiable.Clear | src/HassClient.Core.Tests/Models/ModifiablePropertyCollectionTests.cs:96-104 | no item is left |
| Modifiable.InsertAll | src/HassClient.Core.Tests/Models/ModifiablePropertyCollectionTests.cs:134-146 | `Add` for each item in turn keeps the property's name and validator |
| Modifiable.WithoutNothing | src/HassClient.Core.Tests/Models/ModifiablePropertyCollectionTests.cs:85-94 | dropping items that are not there changes nothing |
| Modifiable.TracksPending | src/HassClient.Core.Tests/Models/ModifiablePropertyCollectionTests.cs:74-104 | a tracked set has pending changes iff its items differ from the saved ones |
| Modifiable.SaveTracks | src/HassClient.Core.Tests/Models/ModifiablePropertyCollectionTests.cs:42-50 | after a save the set is tracked against its current items |
| Modifiable.NewTracks | src/HassClient.Core.Tests/Models/ModifiablePropertyCollectionTests.cs:148-157 | a new set is tracked against no items |
| Modifiable.InsertTracks | src/HassClient.Core.Tests/Models/ModifiablePropertyCollectionTests.cs:74-83 | `Add` keeps the bookkeeping exact and adds the item to the set |
| Modifiable.RemoveTracks | src/HassClient.Core.Tests/Models/ModifiablePropertyCollectionTests.cs:85-94 | `Remove` keeps the bookkeeping exact and takes the item out |
| Modifiable.ClearTracks | src/HassClient.Core.Tests/Models/ModifiablePropertyCollectionTests.cs:96-104 | `Clear` keeps the bookkeeping exact |
| Modifiable.DiscardTracks | src/HassClient.Core.Tests/Models/ModifiablePropertyCollectionTests.cs:52-72 | discarding brings back exactly the saved items |
| Modifiable.InsertAllTracks | src/HassClient.Core.Tests/Models/ModifiablePropertyCollectionTests.cs:134-146 | adding several items keeps the bookkeeping exact and adds them all |
| Modifiable.AddThenRemoveClears | src/HassClient.Core.Tests/Models/ModifiablePropertyCollectionTests.cs:106-118 | adding a new item makes the set pending, and removing it again clears that |
| Modifiable.RemoveThenAddClears | src/HassClient.Core.Tests/Models/ModifiablePropertyCollectionTests.cs:120-132 | removing a saved item makes the set pending, and adding it back clears that |
| Modifiable.ClearThenReAddClears | src/HassClient.Core.Tests/Models/ModifiablePropertyCollectionTests.cs:134-146 | clearing a non-empty saved set makes it pending, and adding every item back clears that |
| Modifiable.ReAddSaved | src/HassClient.Core.Tests/Models/ModifiablePropertyCollectionTests.cs:120-146 | items that were saved are never rejected when added back |
| Modifiable.TracksSaved | src/HassClient.Core.Tests/Models/ModifiablePropertyCollectionTests.cs:62-72 | the saved items can be recovered from the current, added and removed ones |
| RegistryEntries.Layout | src/HassClient.Core/Models/RegistryEntries/RegistryEntryBase.cs:14 | one name and kind per property, in order |
| RegistryEntries.NewProperties | src/HassClient.Core/Models/RegistryEntries/RegistryEntryBase.cs:24-27 | a new entry's properties follow the layout, each consistent and with nothing pending |
| RegistryEntries.Override | src/HassClient.Core/Models/RegistryEntries/EntityRegistryEntry.cs:56-67 | the override setter stores nothing for the original value, so reading back gives the value set, or the original for null |
| RegistryEntries.Names | src/HassClient.Core/Models/RegistryEntries/RegistryEntryBase.cs:89-93 | every property's name, in order |
| RegistryEntries.PendingNamesSpec | src/HassClient.Core/Models/RegistryEntries/RegistryEntryBase.cs:95-100 | the modified names are exactly the names of pending properties, in declaration order, and none iff nothing is pending |
| RegistryEntries.PendingNamesInOrder | src/HassClient.Core/Models/RegistryEntries/RegistryEntryBase.cs:95-100 | the modified names are a subsequence of all the names |
| RegistryEntries.PendingNamesMembers | src/HassClient.Core/Models/RegistryEntries/RegistryEntryBase.cs:95-100 | a name is modified iff some pending property has it |
| RegistryEntries.PendingAfterUpdate | src/HassClient.Core/Models/RegistryEntries/RegistryEntryBase.cs:50 | replacing one property leaves the entry pending iff the new one is or another one was |
| RegistryEntries.SetBackClears | src/HassClient.Core/Models/RegistryEntries/RegistryEntryBase.cs:50 | on a saved entry, setting a new value makes it pending, and setting the old value back clears it |
| RegistryEntries.RegistryEntry.constructor | src/HassClient.Core/Models/RegistryEntries/RegistryEntryBase.cs:24-27 | the given properties, not read from the server, no unique id |
| RegistryEntries.RegistryEntry.SaveChanges | src/HassClient.Core/Models/RegistryEntries/RegistryEntryBase.cs:71-74 | every property saves; nothing is pending; layout and consistency kept |
| RegistryEntries.RegistryEntry.DiscardPendingChanges | src/HassClient.Core/Models/RegistryEntries/RegistryEntryBase.cs:79-82 | every property discards; nothing is pending; a consistent entry keeps its layout and stays consistent |
| RegistryEntries.RegistryEntry.Untrack | src/HassClient.Core/Models/RegistryEntries/RegistryEntryBase.cs:84-87 | the unique id is dropped, so the entry is no longer tracked |
| RegistryEntries.RegistryEntry.OnDeserialized | src/HassClient.Core/Models/RegistryEntries/RegistryEntryBase.cs:58-63 | marked as read from the server and saved; tracked iff it has a unique id |
| RegistryEntries.RegistryEntry.SetScalar | src/HassClient.Core.Tests/Models/AreaTests.cs:47-69 | one property takes the value; the entry is pending iff that value differs from the saved one or another property was pending |
| RegistryEntries.RegistryEntry.AddItem | src/HassClient.Core.Tests/Models/ModifiablePropertyCollectionTests.cs:13-40 | a rejected item throws and changes nothing; otherwise the item is in the set and the saved items are unchanged |
| RegistryEntries.RegistryEntry.RemoveItem | src/HassClient.Core.Tests/Models/ModifiablePropertyCollectionTests.cs:85-94 | reports whether the item was there; it is gone and the saved items are unchanged |
| RegistryEntries.RegistryEntry.ClearItems | src/HassClient.Core.Tests/Models/ModifiablePropertyCollectionTests.cs:96-104 | the set is emptied and the saved items are unchanged |
| RegistryEntries.SaveConsistent | src/HassClient.Core.Tests/Models/ModifiablePropertyCollectionTests.cs:42-50 | saving keeps a property consistent |
| RegistryEntries.DiscardConsistent | src/HassClient.Core.Tests/Models/ModifiablePropertyCollectionTests.cs:52-72 | discarding keeps a property consistent |
| RegistryEntries.SavedAll | src/HassClient.Core/Models/RegistryEntries/RegistryEntryBase.cs:71-74 | saving every property clears the pending flag and keeps layout and consistency |
| RegistryEntries.DiscardedAll | src/HassClient.Core/Models/RegistryEntries/RegistryEntryBase.cs:79-82 | discarding every property clears the pending flag and keeps layout and consistency |
| RegistryEntries.EntryEqualsSymmetric | src/HassClient.Core/Models/RegistryEntries/EntityRegistryEntryBase.cs:93-97 | the `is` test and id comparison of `Equals` is symmetric |
| RegistryEntries.EntryEqualsTransitive | src/HassClient.Core/Models/RegistryEntries/EntityRegistryEntryBase.cs:93-97 | the `is` test and id comparison of `Equals` is transitive |
| Areas.Area.constructor | src/HassClient.Core/Models/RegistryEntries/Area.cs:13-20 | a name and a picture at null, no id, nothing pending, not tracked |
| Areas.Area.Create | src/HassClient.Core/Models/RegistryEntries/Area.cs:27-34 | a null or white-space name throws `ArgumentException`; otherwise the area holds the name and the picture, is pending and untracked |
| Areas.Area.CreateUnmodified | src/HassClient.Core/Models/RegistryEntries/Area.cs:76-81 | the same values, already saved, so nothing is pending |
| Areas.Area.SetName | src/HassClient.Core/Models/RegistryEntries/Area.cs:52-63 | a null or white-space name throws `InvalidOperationException` and changes nothing; otherwise the name changes, the picture and saved values stay, and the area is pending iff the name differs from the saved one or the picture was pending |
| Areas.Area.SetPicture | src/HassClient.Core/Models/RegistryEntries/Area.cs:68-73 | any picture is accepted; the area is pending iff it differs from the saved one or the name was pending |
| Areas.Area.DiscardPendingChanges | src/HassClient.Core/Models/RegistryEntries/Area.cs:84-88 | name and picture return to their saved values and nothing is pending |
| Areas.Area.ToString | src/HassClient.Core/Models/RegistryEntries/Area.cs:91-94 | "Area: " followed by the name, nothing for null |
| Areas.Area.Equals | src/HassClient.Core/Models/RegistryEntries/Area.cs:97-101 | reflexive; only an area can be equal; between areas, equal iff the ids are equal, null included |
| Devices.Device.constructor | src/HassClient.Core/Models/RegistryEntries/Device.cs:15-28 | no area, no user's name, no disabling source, no id, nothing pending |
| Devices.Device.CreateUnmodified | src/HassClient.Core/Models/RegistryEntries/Device.cs:154-168 | the given id, original name, area and disabling source, all saved: nothing pending, the name reads back as the original one, and the device is disabled iff the source is not `None` |
| Devices.Device.Name | src/HassClient.Core/Models/RegistryEntries/Device.cs:56-58 | the user's name when one is set, otherwise the name reported by the integration |
| Devices.Device.DisabledBy | src/HassClient.Core/Models/RegistryEntries/Device.cs:145 | the stored disabling source, `None` when none is stored |
| Devices.Device.SetName | src/HassClient.Core/Models/RegistryEntries/Device.cs:59 | a value equal to the original name is stored as no override; the name then reads back as the value set (the original name for null), the area and disabling source stay, and the device is pending iff the stored override differs from the saved one or another property was pending |
| Devices.Device.SetAreaId | src/HassClient.Core/Models/RegistryEntries/Device.cs:129-133 | the area reads back as the value set, the other properties stay, and the device is pending iff the area differs from the saved one or another property was pending |
| Devices.Device.DiscardPendingChanges | src/HassClient.Core/Models/RegistryEntries/Device.cs:171-176 | area, user's name and disabling source return to their saved values and nothing is pending |
| Devices.Device.ToString | src/HassClient.Core/Models/RegistryEntries/Device.cs:179-182 | "Device: " followed by the name, nothing for null |
| Devices.Device.Equals | src/HassClient.Core/Models/RegistryEntries/Device.cs:185-189 | reflexive; only a device can be equal; between devices, equal iff the ids are equal |
| EntityEntries.NewSavedEntry | src/HassClient.Core/Models/RegistryEntries/EntityRegistryEntry.cs:40-49 | the entry a new entity registry entry holds: name, icon and disabling source stored as given (the originals are still null) and saved, so nothing is pending |
| EntityEntries.EntityRegistryEntry.constructor | src/HassClient.Core/Models/RegistryEntries/EntityRegistryEntry.cs:40-49 | any name is accepted; name and icon read back as given, the platform is the entity id's domain, the entry is disabled iff the source is not `None`, and nothing is pending |
| EntityEntries.EntityRegistryEntry.DisabledBy | src/HassClient.Core/Models/RegistryEntries/EntityRegistryEntry.cs:132 | the stored disabling source, `None` when none is stored |
| EntityEntries.EntityRegistryEntry.ShouldSerializeIcon | src/HassClient.Core/Models/RegistryEntries/EntityRegistryEntryBase.cs:80-83 | the icon is sent iff an override or an original icon exists or the entry is tracked |
| EntityEntries.EntityRegistryEntry.SetName | src/HassClient.Core/Models/RegistryEntries/EntityRegistryEntry.cs:56-60 | no name is refused; a value equal to the original name is stored as no override, the name reads back as the value set (the original for null), icon and disabling source stay, and the entry is pending iff the stored override differs from the saved one or another property was pending |
| EntityEntries.EntityRegistryEntry.SetIcon | src/HassClient.Core/Models/RegistryEntries/EntityRegistryEntry.cs:63-67 | the same override rule for the icon; the name and disabling source stay |
| EntityEntries.EntityRegistryEntry.SetDeviceClass | src/HassClient.Core/Models/RegistryEntries/EntityRegistryEntry.cs:97-102 | the device class reads back as the value set, the original for null; a plain field, so the saved state is untouched |
| EntityEntries.EntityRegistryEntry.DiscardPendingChanges | src/HassClient.Core/Models/RegistryEntries/EntityRegistryEntry.cs:190-193 | name, icon and disabling source return to their saved values and nothing is pending |
| EntityEntries.EntityRegistryEntry.ToString | src/HassClient.Core/Models/RegistryEntries/EntityRegistryEntry.cs:196-199 | "EntityRegistryEntry: " followed by the entity id |
| EntityEntries.EntityRegistryEntry.Equals | src/HassClient.Core/Models/RegistryEntries/EntityRegistryEntryBase.cs:93-97 | reflexive; only an entity entry (entity, input boolean or person) can be equal; to such an entry, equal iff the unique ids are equal, null included |
| Users.User.constructor | src/HassClient.Core/Models/RegistryEntries/User.cs:27-30 | no name, flags off, no group, no id, nothing pending |
| Users.User.Create | src/HassClient.Core/Models/RegistryEntries/User.cs:37-46 | a null or white-space name throws `ArgumentException`; otherwise the name is set and every group id given is held, nothing saved, so the user is pending |
| Users.User.CreateWithRole | src/HassClient.Core/Models/RegistryEntries/User.cs:53-57 | the same refusal; otherwise the user is an administrator iff asked, its only group being "system-admin" then |
| Users.User.CreateUnmodified | src/HassClient.Core/Models/RegistryEntries/User.cs:168-178 | the same refusal; otherwise the given id and owner flag, an owner being an administrator, and everything saved |
| Users.User.SetName | src/HassClient.Core/Models/RegistryEntries/User.cs:76-86 | a null or white-space name throws `InvalidOperationException` and changes nothing; otherwise the name changes, the rest stays, and pending follows the saved name |
| Users.User.SetIsActive | src/HassClient.Core/Models/RegistryEntries/User.cs:189-192 | the active flag changes, the rest stays, and pending follows its saved value |
| Users.User.SetIsLocalOnly | src/HassClient.Core/Models/RegistryEntries/User.cs:100-104 | the local-only flag changes, the rest stays, and pending follows its saved value |
| Users.User.AddGroup | src/HassClient.Core/Models/RegistryEntries/User.cs:148 | any group id is accepted, added once; the user is pending iff its groups differ from the saved ones or another property was pending |
| Users.User.AddGroups | src/HassClient.Core/Models/RegistryEntries/User.cs:43-45 | every group id is added in turn: the groups are the old ones plus the new ones |
| Users.User.RemoveGroup | src/HassClient.Core/Models/RegistryEntries/User.cs:148 | reports whether the group was there; the groups lose it, and pending follows the saved groups |
| Users.User.SetIsAdministrator | src/HassClient.Core/Models/RegistryEntries/User.cs:120-130 | afterwards the user is an administrator iff asked: the "system-admin" group is added or removed and the other groups stay |
| Users.User.DiscardPendingChanges | src/HassClient.Core/Models/RegistryEntries/User.cs:181-187 | name, flags and groups return to their saved values and nothing is pending |
| Users.User.ToString | src/HassClient.Core/Models/RegistryEntries/User.cs:195-198 | "User: " followed by the name, nothing for null |
| Users.User.Equals | src/HassClient.Core/Models/RegistryEntries/User.cs:201-205 | reflexive; only a user can be equal; between users, equal iff the ids are equal |
| StorageEntities.DomainCache.constructor | src/HassClient.Core/Models/RegistryEntries/StorageEntities/StorageEntityRegistryEntryBase.cs:14 | the cache starts empty |
| StorageEntities.DomainCache.GetDomain | src/HassClient.Core/Models/RegistryEntries/StorageEntities/StorageEntityRegistryEntryBase.cs:64-75 | a cached class is answered from the cache unchanged; otherwise its attribute's domain is returned and cached; a class without the attribute fails with `NullReferenceException` and caches nothing; every cached domain is the one its class's attribute names |
| StorageEntities.StorageEntityId | src/HassClient.Core/Models/RegistryEntries/StorageEntities/StorageEntityRegistryEntryBase.cs:50 | the entity id's domain part is the entry's domain, and with a non-empty word-character id it is a valid entity id of that domain |
| StorageEntities.InputBoolean.constructor | src/HassClient.Core/Models/RegistryEntries/StorageEntities/InputBoolean.cs:17-20 | the domain comes from the cache, which then holds the input-boolean domain; no name, icon or id, initial off, nothing pending |
| StorageEntities.InputBoolean.Create | src/HassClient.Core/Models/RegistryEntries/StorageEntities/InputBoolean.cs:28-32 | a null or white-space name throws `ArgumentException` before the domain is looked up; otherwise name, icon and initial state read back as given and are pending |
| StorageEntities.InputBoolean.CreateUnmodified | src/HassClient.Core/Models/RegistryEntries/StorageEntities/InputBoolean.cs:45-51 | the same refusal; otherwise the given id, an entity id of the input-boolean domain, and name, icon and initial state all saved |
| StorageEntities.InputBoolean.SetName | src/HassClient.Core/Models/RegistryEntries/EntityRegistryEntryBase.cs:51-62 | a null or white-space name throws `InvalidOperationException` and changes nothing; otherwise the name changes, icon and initial stay, and the entry is pending iff the name differs from the saved one or another property was pending |
| StorageEntities.InputBoolean.SetIcon | src/HassClient.Core/Models/RegistryEntries/EntityRegistryEntryBase.cs:67-72 | the icon changes, the rest stays, and pending follows the saved icon |
| StorageEntities.InputBoolean.SetInitial | src/HassClient.Core/Models/RegistryEntries/StorageEntities/InputBoolean.cs:37-42 | the initial state changes, the rest stays, and pending follows the saved initial state |
| StorageEntities.InputBoolean.DiscardPendingChanges | src/HassClient.Core/Models/RegistryEntries/StorageEntities/InputBoolean.cs:54-57 | name, icon and initial state return to their saved values and nothing is pending |
| StorageEntities.InputBoolean.ToString | src/HassClient.Core/Models/RegistryEntries/StorageEntities/InputBoolean.cs:60-63 | "InputBoolean: " followed by the name, the same text as the storage base class prints |
| StorageEntities.InputBoolean.Equals | src/HassClient.Core/Models/RegistryEntries/EntityRegistryEntryBase.cs:93-97 | reflexive; only an entity entry (entity, input boolean or person) can be equal; to such an entry, equal iff the unique ids are equal, null included |
| StorageEntities.InputBooleanEqualsEntity | src/HassClient.Core/Models/RegistryEntries/EntityRegistryEntryBase.cs:93-97 | an input boolean and an entity entry are equal from either side exactly when their unique ids are equal |
| Persons.WithoutProperty | src/HassClient.Core/Models/RegistryEntries/StorageEntities/Person.cs:147-154 | the layout keeps exactly the properties whose name differs from the one filtered out |
| Persons.WithoutPropertyCons | src/HassClient.Core/Models/RegistryEntries/StorageEntities/Person.cs:147-154 | filtering a layout with one more property in front keeps that property iff its name differs |
| Persons.WithoutAbsent | src/HassClient.Core/Models/RegistryEntries/StorageEntities/Person.cs:147-154 | filtering out a name no property has leaves the layout unchanged |
| Persons.PersonLayoutFiltersIcon | src/HassClient.Core/Models/RegistryEntries/StorageEntities/Person.cs:147-154 | the person's modifiable properties are the entity's and its own with the icon filtered out: name, user id, picture, device trackers, and none named "Icon" |
| Persons.PrefixStep | src/HassClient.Core/Models/RegistryEntries/StorageEntities/Person.cs:138-140 | one more accepted tracker extends both the accepted prefix and the set of trackers added |
| Persons.AcceptedTrackers | src/HassClient.Core/Models/RegistryEntries/StorageEntities/Person.cs:18-21 | every tracker the collection holds is a `device_tracker` entity id |
| Persons.Person.constructor | src/HassClient.Core/Models/RegistryEntries/StorageEntities/Person.cs:26-29 | no name, user, picture or tracker, nothing pending, not a storage entry; the domain cache learns the person domain |
| Persons.Person.CreateWithUserId | src/HassClient.Core/Models/RegistryEntries/StorageEntities/Person.cs:31-35 | a null or white-space name throws `ArgumentException`; otherwise the name and user id are set and pending, no icon, no tracker, not a storage entry |
| Persons.Person.Create | src/HassClient.Core/Models/RegistryEntries/StorageEntities/Person.cs:42-48 | the name is checked first (`ArgumentException`), then a null user throws `ArgumentNullException`; otherwise the person is linked to the user's id, is a storage entry and is pending |
| Persons.Person.CreateUnmodified | src/HassClient.Core/Models/RegistryEntries/StorageEntities/Person.cs:129-144 | a bad name throws `ArgumentException`; otherwise it succeeds iff every tracker is a `device_tracker` entity id (else `InvalidOperationException`), and then holds the id, name, user, picture and trackers given, all saved |
| Persons.Person.FillUnmodified | src/HassClient.Core/Models/RegistryEntries/StorageEntities/Person.cs:132-143 | the id and picture are set, each tracker added, and everything saved; fails iff some tracker is refused |
| Persons.Person.SaveChanges | src/HassClient.Core/Models/RegistryEntries/StorageEntities/Person.cs:142 | every value stays and becomes the saved one; nothing is pending |
| Persons.Person.ShouldSerializeIcon | src/HassClient.Core/Models/RegistryEntries/StorageEntities/Person.cs:97-99 | a person has no icon, so it is sent iff the person is tracked |
| Persons.Person.SetName | src/HassClient.Core/Models/RegistryEntries/EntityRegistryEntryBase.cs:51-62 | a null or white-space name throws `InvalidOperationException` and changes nothing; otherwise the name changes and the other properties stay |
| Persons.Person.SetIcon | src/HassClient.Core/Models/RegistryEntries/StorageEntities/Person.cs:97-105 | a non-null icon throws `InvalidOperationException`; null is ignored |
| Persons.Person.SetUserId | src/HassClient.Core/Models/RegistryEntries/StorageEntities/Person.cs:64-68 | the user id changes, the other properties and saved values stay, and the person is pending iff the id differs from the saved one or another property was pending |
| Persons.Person.SetPicture | src/HassClient.Core/Models/RegistryEntries/StorageEntities/Person.cs:80-88 | a tracked person that is not a storage entry throws `NotSupportedException` and changes nothing; otherwise the picture changes and the rest stays |
| Persons.Person.ChangeUser | src/HassClient.Core/Models/RegistryEntries/StorageEntities/Person.cs:112-126 | a null user throws `ArgumentNullException` first, then the storage-entry guard throws `NotSupportedException`; otherwise the person is linked to the user's id |
| Persons.Person.AddDeviceTracker | src/HassClient.Core/Models/RegistryEntries/StorageEntities/Person.cs:18-21 | an id that is not a `device_tracker` entity id throws `InvalidOperationException` and changes nothing; otherwise the trackers gain it once, and the person is pending iff the trackers differ from the saved ones or another property was pending |
| Persons.Person.AddDeviceTrackers | src/HassClient.Core/Models/RegistryEntries/StorageEntities/Person.cs:138-140 | every tracker is added in turn, stopping at the first refused one; succeeds iff all are accepted, and then the trackers are the old ones plus the new ones |
| Persons.Person.RemoveDeviceTracker | src/HassClient.Core/Models/RegistryEntries/StorageEntities/Person.cs:74 | reports whether the id was there; the trackers lose it, and pending follows the saved trackers |
| Persons.Person.ClearDeviceTrackers | src/HassClient.Core/Models/RegistryEntries/StorageEntities/Person.cs:74 | no tracker is left; pending iff some tracker was saved or another property was pending |
| Persons.Person.DiscardPendingChanges | src/HassClient.Core/Models/RegistryEntries/StorageEntities/Person.cs:147-154 | name, user, picture and trackers return to their saved values and nothing is pending |
| Persons.Person.ToString | src/HassClient.Core/Models/RegistryEntries/StorageEntities/Person.cs:157-160 | "Person: " followed by the name, the same text as any storage entry's |
| Persons.Person.Equals | src/HassClient.Core/Models/RegistryEntries/EntityRegistryEntryBase.cs:93-97 | reflexive; only an entity entry (entity, input boolean or person) can be equal; to such an entry, equal iff the unique ids are equal, null included |
| Persons.PersonNeverEqualsUser | src/HassClient.Core/Models/RegistryEntries/User.cs:201-205 | a person and a user are never equal, whichever side is asked |

## Left out

- Socket I/O is not modelled. Connecting, sending and receiving become inputs and an output log, and the UTF-8 reassembly of a frame from several reads is taken as done. A read past the frames an attempt delivers throws `WebSocketException`.
- Concurrency is not modelled: semaphores, background tasks, `Task.Run`, `Task.Delay` and linked cancellation tokens. The model is sequential. A cancellation is a flag saying at which await the token fired, and the retry delay is the point where it can fire.
- Running out of connection attempts is modelled as the token firing. This is how the caller of an endless retry loop stops it.
- The merge of a raw command's payload into the frame (src/HassClient.WebSocket/HassClientWebSocket.cs:507-515) is left out, because it is Newtonsoft's `JObject.Merge`. A raw command is written as its type and id.
- Newtonsoft serialisation is not modelled: contract resolution, snake-casing and `Populate`. JSON is a small datatype. A decoded frame is taken as already populated, and a malformed frame is not modelled.
- `SendCommandWithResultAsync<TResult>` is left out beyond its success check. Deserialising the result is Newtonsoft's work.
- The `onConnected` callback, trace output and `Debugger.Break` are left out. They change no state of the client.
- `SubscriptionsCount` is left out. It is a count of the registry.
- `HAVersion` is taken as the result of `CalVer.Create`, which is modelled in `CalendarVersion`. The client holds its value rather than a shared object.
- An exception thrown while writing the handshake frame is not modelled separately from a failed read.
- Client.HassClientWebSocket.Resubscribe: every send of a restore subscribe frame succeeds, so `Restore`, `RestoreEach`, `RestoreNext` and `RestoreOne` fail only on a read. A send cancelled at the semaphore by the close token, or one whose socket write throws, is not modelled. The source leaves the restore at that send, before the read; the model instead holds one more subscribe frame and fails on the read that follows.
- `CloseAsync` waits for the connection semaphore. That wait is not modelled.
- A send that fails with anything but a cancellation leaves the command's awaiter and callback in their tables. This is reproduced as written: only a cancellation rolls them back.
- `WaitForConnectionAsync` wraps a pending waiter in `Task.Run` and never applies its timeout. The model returns the waiter's state as it is.
- Ids on one connection go up only until `_lastSentId` wraps around after 2^32 - 1 sends. `Client.AscendingGrows` and `Client.SentIdsDistinct` hold up to that point.
- ColorConverter.ReadInto: reading into an existing colour returns the overwritten colour as a value. Object identity is not modelled, so the model does not show that the caller's object is the one changed.
- `XyColor`, `Color.FromXy` and the XY branch of `ColorConverter` are left out because they use floating point. `NameColor.cs` is not part of this model, so a named colour is a string.
- `ModifiableProperty`, `ModifiablePropertyCollection` and `ModifiablePropertyBase` are modelled as the values they keep, not as objects of their own. An entry's layout names each property and its kind in declaration order.
- `ObservableHashSet.SetItem` and `MoveItem` throw `NotImplementedException` and are never called by the entries. They are left out.
- `HashSet` enumeration order is taken to be insertion order wherever the model lists removed items.
- Reflection is replaced by fixed tables:
  - the assembly scan that builds the message factory table;
  - the `StorageEntityDomain` attribute lookup;
  - `KnownDomains.ToDomainString`.
- The `Where` filter of `Person.GetModifiableProperties` is proved about the layouts (`Persons.PersonLayoutFiltersIcon`). The person's property list is the filtered one.
- `GetDomain` and `IsValidDomainEntityId` of the entity-id helpers are not part of this model. They are taken to split an id at its first dot and to check the domain and a word-character object id.
- `GetHashCode`, the `Clone` methods used by tests, `CalVer.ReleaseDate`, `Zone`, the API wrappers and the message factories are left out. They are outside the modelled core, or use dates and floating point.
- `int.TryParse` accepts ASCII white space and an optional sign. Culture-specific signs and digits are not modelled.
- ColorConverter.DeserializeString: a null token is an error here. `Deserialize<string>` gives null for it, and the converter then builds or fills a `NameColor` with a null name; `NameColor.cs` is not part of this model.
- ColorConverter.ToComponent: number tokens are integers only. A floating-point token, which the `(byte)`/`(uint)` casts and `Deserialize<uint>` round and accept, is left out with the rest of floating point.
- Regular expressions: `\w` is modelled as ASCII letters, digits and `_`, and `\d` as ASCII digits.
