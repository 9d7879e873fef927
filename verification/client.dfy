/**
 * `HassClientWebSocket`: the session bookkeeping of the client, as a
 * sequential state machine.
 *
 * The socket is replaced by inputs and a log: each connection attempt says
 * what the socket delivers (`Attempt`), each listener step is given the
 * frame it reads, and the frames the client writes are appended to
 * `outbox`. Cancellation tokens are inputs that say whether a token fired.
 * The background tasks become methods the environment calls: one
 * iteration of the socket listener (`ReceiveFrame`), its end
 * (`ListenerEnded`) and one iteration of the event dispatcher
 * (`DispatchEvent`). A `TaskCompletionSource` is a ticket into `tasks`.
 */
module Client {
  import opened Outcomes
  import opened Delegates
  import opened Messages
  import opened SocketEventSubscriptions
  import opened CalendarVersion
  import opened ClientProtocol
  import opened Text

  /** `_connectionTcs`: absent, pending, or completed with whether the client connected. */
  datatype Waiter = NoWaiter | WaiterPending | WaiterDone(connected: bool)

  /** `_socket`: never created, created, or aborted and disposed. */
  datatype SocketState = NoSocket | SocketLive | SocketAborted

  /** An event frame as queued for the dispatcher. */
  datatype EventMessage = EventMessage(id: uint32, info: EventInfo)

  /** `_receivedEventsChannel`: absent, open, or completed; a completed channel can still be drained. */
  datatype Channel = NoChannel | ChannelOpen(queue: seq<EventMessage>) | ChannelCompleted(queue: seq<EventMessage>)

  /** `_socketListenerTask`: not running, reading frames, or past its loop and about to run its ending. */
  datatype ListenerState = NotListening | Listening | Ending

  /** A value of `_socketEventCallbacksBySubsciptionId`. */
  datatype Callback =
    /** `ProcessReceivedEventSubscriptionMessage`. */
    | EventsCallback
    /** `RenderTemplateMessage.ProcessEventReceivedMessage` of that message. */
    | TemplateCallback(template: RenderTemplateMessage)

  /** An outgoing identifiable message, by the kind `SendMessage` tells apart. */
  datatype Command =
    | SubscribeCommand(subscribe: SubscribeEventsMessage)
    | UnsubscribeCommand(unsubscribe: UnsubscribeEventsMessage)
    | TemplateCommand(render: RenderTemplateMessage)
    | OtherCommand(other: IdentifiableMessage)
  {
    /** The part that carries the type and the id. */
    function Header(): IdentifiableMessage {
      match this
      case SubscribeCommand(m) => m.message
      case UnsubscribeCommand(m) => m.message
      case TemplateCommand(m) => m.message
      case OtherCommand(m) => m
    }

    /** The message object that holds the payload, if any. */
    function Holder(): set<object> {
      match this
      case SubscribeCommand(m) => {m}
      case UnsubscribeCommand(m) => {m}
      case TemplateCommand(m) => {m}
      case OtherCommand(_) => {}
    }

    /** The payload the frame carries, read from the message when it is written. */
    function Body(): Payload
      reads Holder()
    {
      match this
      case SubscribeCommand(m) => EventTypePayload(m.eventType)
      case UnsubscribeCommand(m) => SubscriptionIdPayload(m.subscriptionId)
      case TemplateCommand(m) => TemplatePayload(m.template, m.entitiesIds, m.variables)
      case OtherCommand(_) => NoPayload
    }
  }

  /** What happens to one command after `SendCommandAsync` is called. */
  datatype CommandFate =
    /** The token fired while waiting for the sending semaphore. */
    | CancelledBeforeSend
    /** The socket write threw. */
    | SendFails(failure: Exception)
    /** The listener reads the server's result for the command's id. */
    | Replied(success: bool, error: Option<ErrorInfo>)
    /** The listener reads a pong for the command's id. */
    | Ponged
    /** No answer arrives before the token fires. */
    | CancelledWhileWaiting
    /** No answer arrives and the token never fires. */
    | NoReply

  /** What one iteration of the socket listener did. */
  datatype ListenerStep = Continued | Stopped | Ended | Crashed(error: Exception)

  /** The ids of the identifiable frames written, in order. */
  function SentIds(outbox: seq<Outbound>): (ids: seq<uint32>)
    ensures |ids| <= |outbox|
    ensures outbox == [] ==> ids == []
  {
    if outbox == [] then []
    else
      var init := SentIds(outbox[..|outbox| - 1]);
      match outbox[|outbox| - 1]
      case CommandOut(_, id, _) => init + [id]
      case AuthFrame(_) => init
  }

  /** Writing a frame with an id appends that id. */
  lemma SentIdsAppend(outbox: seq<Outbound>, frame: Outbound)
    ensures frame.CommandOut? ==> SentIds(outbox + [frame]) == SentIds(outbox) + [frame.id]
    ensures frame.AuthFrame? ==> SentIds(outbox + [frame]) == SentIds(outbox)
  {
    assert (outbox + [frame])[..|outbox|] == outbox;
  }

  /** Ids that go strictly up, each between 1 and `issued`. */
  predicate AscendingUpTo(ids: seq<uint32>, issued: nat) {
    (forall i, j :: 0 <= i < j < |ids| ==> ids[i] < ids[j])
    && (forall i :: 0 <= i < |ids| ==> 0 < ids[i] <= issued)
  }

  /**
   * Appending the next id keeps the ids of a connection ascending, as long
   * as `++_lastSentId` has not wrapped.
   */
  lemma {:induction false} AscendingGrows(ids: seq<uint32>, issued: nat)
    requires AscendingUpTo(ids, issued) && issued + 1 < UINT_LIMIT
    ensures AscendingUpTo(ids + [issued + 1], issued + 1)
  {
    var ext := ids + [issued + 1];
    forall i, j | 0 <= i < j < |ext| ensures ext[i] < ext[j] {
      if j < |ids| {
        assert ext[i] == ids[i] && ext[j] == ids[j];
      } else {
        assert ext[i] == ids[i] <= issued;
      }
    }
  }

  /** The ids of a connection, while ascending, never repeat and are never 0. */
  lemma SentIdsDistinct(outbox: seq<Outbound>, issued: nat)
    requires AscendingUpTo(SentIds(outbox), issued)
    ensures forall i, j :: 0 <= i < |SentIds(outbox)| && 0 <= j < |SentIds(outbox)| && i != j ==>
      SentIds(outbox)[i] != SentIds(outbox)[j]
    ensures 0 !in SentIds(outbox)
  {
  }

  /** `_connectionTcs?.TrySetResult(false)`, and dropping the source when that fails. */
  function ClearedWaiter(w: Waiter): (r: Waiter)
    ensures w == WaiterPending ==> r == WaiterDone(false)
    ensures w != WaiterPending ==> r == NoWaiter
  {
    match w
    case NoWaiter => NoWaiter
    case WaiterPending => WaiterDone(false)
    case WaiterDone(_) => NoWaiter
  }

  /** `Writer.Complete()`: completing a completed channel throws. */
  function CompleteChannel(c: Channel): (r: (Channel, Outcome))
    ensures r.1.Fail? <==> c.ChannelCompleted?
    ensures c != NoChannel ==> r.0.ChannelCompleted? && r.0.queue == c.queue
    ensures c == NoChannel ==> r.0 == NoChannel
  {
    match c
    case NoChannel => (NoChannel, Pass)
    case ChannelOpen(q) => (ChannelCompleted(q), Pass)
    case ChannelCompleted(_) => (c, Fail(InvalidOperation))
  }

  /** The states a first connection passes through, up to `s`. */
  function ConnectLog(s: ConnectionState): (log: seq<ConnectionState>)
    requires s in {Connecting, Authenticating, Connected}
    ensures |log| > 0 && log[0] == Connecting && log[|log| - 1] == s
    ensures log <= [Connecting, Authenticating, Connected]
  {
    if s == Connecting then [Connecting]
    else if s == Authenticating then [Connecting, Authenticating]
    else [Connecting, Authenticating, Connected]
  }


  /** Entering `Authenticating`, and then perhaps `Connected`, extends the log of a first connection. */
  lemma ConnectLogAuthenticated(base: seq<ConnectionState>, s: ConnectionState, t: ConnectionState,
                                before: seq<ConnectionState>, after: seq<ConnectionState>)
    requires s in {Connecting, Authenticating} && before == base + ConnectLog(s)
    requires t == Authenticating || t == Connected
    requires after == before + (if s == Authenticating then [] else [Authenticating]) + (if t == Connected then [Connected] else [])
    ensures after == base + ConnectLog(t)
  {
  }

  /** A read that makes the restore loop subscribe again: a result reporting failure. */
  predicate Declined(rcv: Receive) {
    rcv.Got? && rcv.frame.ResultFrame? && !rcv.frame.success
  }

  /**
   * The reads `from` to `to` that restore one event type: failed results,
   * then, last, the successful result carrying `id`.
   */
  predicate ReplyWindow(received: seq<Receive>, from: nat, to: nat, id: uint32) {
    from < to
    && (forall k :: from <= k < to - 1 ==> Declined(Next(received, k)))
    && Next(received, to - 1).Got? && Next(received, to - 1).frame.ResultFrame?
    && Next(received, to - 1).frame.success && Next(received, to - 1).frame.id == id
  }

  /** How a read that is not a result ends the restore: its exception, or a failed cast. */
  function ReadFailure(rcv: Receive): (r: Outcome)
    ensures r.Pass? <==> rcv.Got? && rcv.frame.ResultFrame?
    ensures rcv.ReceiveFails? ==> r == Fail(rcv.error)
  {
    match rcv
    case ReceiveFails(e) => Fail(e)
    case Got(f) => if f.ResultFrame? then Pass else Fail(InvalidCast)
  }

  /** A frame that subscribes to `eventType`. */
  predicate Subscribes(frame: Outbound, eventType: string) {
    frame.CommandOut? && frame.messageType == SUBSCRIBE_EVENTS_TYPE && frame.payload == EventTypePayload(Some(eventType))
  }

  /**
   * The frame written just before each read `lo` to `hi` subscribes to
   * `eventType`; read `k` answers `outbox[k + shift]`.
   */
  predicate SubscribedBefore(outbox: seq<Outbound>, shift: int, lo: nat, hi: nat, eventType: string) {
    0 <= lo + shift && hi + shift <= |outbox|
    && forall j :: lo + shift <= j < hi + shift ==> Subscribes(outbox[j], eventType)
  }

  /** One more subscribe frame covers one more read. */
  lemma SubscribedBeforeAppend(outbox: seq<Outbound>, frame: Outbound, shift: int, lo: nat, hi: nat, eventType: string)
    requires SubscribedBefore(outbox, shift, lo, hi, eventType) && Subscribes(frame, eventType)
    requires lo <= hi && hi + shift == |outbox|
    ensures SubscribedBefore(outbox + [frame], shift, lo, hi + 1, eventType)
  {
    var more := outbox + [frame];
    forall j | lo + shift <= j < hi + 1 + shift
      ensures Subscribes(more[j], eventType)
    {
      if j < |outbox| {
        assert more[j] == outbox[j];
      }
    }
  }

  /** Frames written later do not change the ones written before. */
  lemma SubscribedBeforeGrows(a: seq<Outbound>, b: seq<Outbound>, shift: int, lo: nat, hi: nat, eventType: string)
    requires a <= b && SubscribedBefore(a, shift, lo, hi, eventType)
    ensures SubscribedBefore(b, shift, lo, hi, eventType)
  {
    forall j | lo + shift <= j < hi + shift
      ensures Subscribes(b[j], eventType)
    {
      assert a[j] == b[j];
    }
  }

  /**
   * The event types in `order` were restored in turn: the i-th read the
   * replies `bounds[i]` up to `bounds[i + 1]`, the last of them carrying
   * the id `ids[order[i]]` its subscription now holds, and before each of
   * those reads a frame subscribing to it was written.
   */
  predicate RestoredInOrder(received: seq<Receive>, outbox: seq<Outbound>, shift: int,
                            order: seq<string>, bounds: seq<nat>, ids: map<string, uint32>)
  {
    |bounds| == |order| + 1
    && (forall i, j :: 0 <= i < j < |order| ==> order[i] != order[j])
    && (forall i :: 0 <= i < |order| ==>
          (order[i] in ids
           && ReplyWindow(received, bounds[i], bounds[i + 1], ids[order[i]])
           && SubscribedBefore(outbox, shift, bounds[i], bounds[i + 1], order[i])))
  }

  /** Restoring one more event type, whose replies follow the last window, extends the restore. */
  lemma RestoredInOrderExtend(received: seq<Receive>, outbox: seq<Outbound>, shift: int,
                              order: seq<string>, bounds: seq<nat>, ids: map<string, uint32>, eventType: string, next: nat)
    requires RestoredInOrder(received, outbox, shift, order, bounds, ids)
    requires forall i :: 0 <= i < |order| ==> order[i] != eventType
    requires eventType in ids && ReplyWindow(received, bounds[|order|], next, ids[eventType])
    requires SubscribedBefore(outbox, shift, bounds[|order|], next, eventType)
    ensures RestoredInOrder(received, outbox, shift, order + [eventType], bounds + [next], ids)
  {
    var order', bounds' := order + [eventType], bounds + [next];
    forall i | 0 <= i < |order'|
      ensures order'[i] in ids && ReplyWindow(received, bounds'[i], bounds'[i + 1], ids[order'[i]])
      ensures SubscribedBefore(outbox, shift, bounds'[i], bounds'[i + 1], order'[i])
    {
      if i < |order| {
        assert order'[i] == order[i] && bounds'[i] == bounds[i] && bounds'[i + 1] == bounds[i + 1];
      }
    }
  }

  /** Later frames, and ids set for other event types, leave a restore as it was. */
  lemma RestoredInOrderKeep(received: seq<Receive>, outbox: seq<Outbound>, more: seq<Outbound>, shift: int,
                            order: seq<string>, bounds: seq<nat>, ids: map<string, uint32>, now: map<string, uint32>)
    requires RestoredInOrder(received, outbox, shift, order, bounds, ids) && outbox <= more
    requires forall i :: 0 <= i < |order| ==> order[i] in now && now[order[i]] == ids[order[i]]
    ensures RestoredInOrder(received, more, shift, order, bounds, now)
  {
    forall i | 0 <= i < |order|
      ensures SubscribedBefore(more, shift, bounds[i], bounds[i + 1], order[i])
    {
      SubscribedBeforeGrows(outbox, more, shift, bounds[i], bounds[i + 1], order[i]);
    }
  }

  class HassClientWebSocket {
    /** `IsDiposed`. */
    var disposed: bool
    /** `AutomaticReconnection`. */
    var automaticReconnection: bool
    /** `IsReconnecting`. */
    var isReconnecting: bool
    /** `_connectionState`. */
    var state: ConnectionState
    /** The values passed to `ConnectionStateChanged`, in order. */
    var stateChanges: seq<ConnectionState>
    /** `_connectionTcs`. */
    var waiter: Waiter
    /** `_lastSentId`. */
    var lastSentId: uint32
    /** How many ids were handed out since the last reset. */
    ghost var issued: nat
    /** The frames written to the current socket. */
    var outbox: seq<Outbound>
    /** `_incomingMessageAwaitersById`: message id to the ticket of a response task. */
    var awaiters: map<uint32, nat>
    /** The response tasks, by ticket. */
    var tasks: map<nat, TaskState<Inbound>>
    var nextTicket: nat
    /** `_socketEventCallbacksBySubsciptionId`. */
    var callbacks: map<uint32, Callback>
    /** `_socketEventSubscriptionIdByEventType`. */
    var subscriptions: map<string, SocketEventSubscription>
    /** `_connectionParameters`. */
    var connectionParameters: Option<ConnectionParameters>
    /** `_receivedEventsChannel`. */
    var channel: Channel
    /** `_socket`. */
    var socket: SocketState
    /** `_socketListenerTask`. */
    var listener: ListenerState
    /** `_eventListenerTask` is running. */
    var dispatching: bool
    /** `_closeConnectionCts` was cancelled. */
    var closeRequested: bool
    /** `HAVersion`. */
    var haVersion: Option<Version>

    /** The subscription objects the registry holds. */
    function Entries(): set<SocketEventSubscription>
      reads this`subscriptions
    {
      set k | k in subscriptions :: subscriptions[k]
    }

    /** The id each registered event type's subscription holds. */
    function SubscriptionIds(): map<string, uint32>
      reads this`subscriptions, Entries()`subscriptionId
    {
      map k | k in subscriptions :: subscriptions[k].subscriptionId
    }

    /** The render-template messages the callback table holds. */
    function TemplateTargets(): set<RenderTemplateMessage>
      reads this`callbacks
    {
      set id | id in callbacks && callbacks[id].TemplateCallback? :: callbacks[id].template
    }

    /** The invariant the client keeps: its three parts below. */
    ghost predicate Valid()
      reads this`awaiters, this`tasks, this`nextTicket, this`lastSentId, this`issued, this`outbox, this`subscriptions
    {
      TasksValid() && IdsValid() && RegistryValid()
    }

    /** Every awaiter refers to a task, and tickets are never reused. */
    ghost predicate TasksValid()
      reads this`awaiters, this`tasks, this`nextTicket
    {
      (forall id :: id in awaiters ==> awaiters[id] in tasks)
      && (forall t :: t in tasks ==> t < nextTicket)
    }

    /**
     * Until `_lastSentId` wraps around, it counts the ids handed out since
     * the socket was created, and the frames written to that socket carry
     * the ids 1, 2, 3, ... in order.
     */
    ghost predicate IdsValid()
      reads this`lastSentId, this`issued, this`outbox
    {
      issued < UINT_LIMIT ==> lastSentId == issued && AscendingUpTo(SentIds(outbox), issued)
    }

    /** Each event type has its own subscription object. */
    ghost predicate RegistryValid()
      reads this`subscriptions
    {
      forall a, b :: a in subscriptions && b in subscriptions && a != b ==> subscriptions[a] != subscriptions[b]
    }

    /** A new client: disconnected, automatic reconnection on, nothing registered. */
    constructor()
      ensures Valid()
      ensures !disposed && automaticReconnection && !isReconnecting && state == Disconnected && stateChanges == []
      ensures waiter == NoWaiter && lastSentId == 0 && outbox == [] && awaiters == map[] && tasks == map[]
      ensures callbacks == map[] && subscriptions == map[] && connectionParameters.None? && channel == NoChannel
      ensures socket == NoSocket && listener == NotListening && !dispatching && !closeRequested && haVersion.None?
    {
      disposed := false;
      automaticReconnection := true;
      isReconnecting := false;
      state := Disconnected;
      stateChanges := [];
      waiter := NoWaiter;
      lastSentId := 0;
      issued := 0;
      outbox := [];
      awaiters := map[];
      tasks := map[];
      nextTicket := 0;
      callbacks := map[];
      subscriptions := map[];
      connectionParameters := None;
      channel := NoChannel;
      socket := NoSocket;
      listener := NotListening;
      dispatching := false;
      closeRequested := false;
      haVersion := None;
    }

    /** `PendingRequestsCount`. */
    function PendingRequestsCount(): (n: nat)
      reads this`awaiters
      ensures n == 0 <==> awaiters == map[]
    {
      |awaiters|
    }

    /**
     * The `ConnectionState` setter: only a change is stored and announced;
     * becoming `Connected` also completes a pending connection waiter with
     * `true`. The waiter exists whenever the client sets `Connected`.
     */
    method SetConnectionState(value: ConnectionState)
      requires value == Connected ==> waiter != NoWaiter
      modifies this`state, this`stateChanges, this`waiter
      ensures state == value
      ensures stateChanges == if value == old(state) then old(stateChanges) else old(stateChanges) + [value]
      ensures waiter == if value != old(state) && value == Connected && old(waiter) == WaiterPending
        then WaiterDone(true) else old(waiter)
    {
      if state != value {
        state := value;
        if value == Connected && waiter == WaiterPending {
          waiter := WaiterDone(true);
        }
        stateChanges := stateChanges + [value];
      }
    }

    /**
     * What `ClearSocketResources` did, with `r` what it threw. Nothing
     * happens once disconnected. Otherwise the state becomes `Disconnected`
     * (with its notification), the parameters are dropped and the connection
     * waiter is told `false` (and dropped if it was already complete). With
     * no socket ever created the abort throws `NullReferenceException` there.
     * Otherwise the callbacks and the awaiters are emptied, and the channel
     * is completed, which throws `InvalidOperationException` when it already
     * was.
     */
    twostate predicate Cleared(r: Outcome)
      reads this`state, this`stateChanges, this`waiter, this`isReconnecting, this`connectionParameters
      reads this`socket, this`callbacks, this`awaiters, this`channel
    {
      if old(state) == Disconnected then
        r.Pass? && state == old(state) && stateChanges == old(stateChanges) && waiter == old(waiter)
        && isReconnecting == old(isReconnecting) && connectionParameters == old(connectionParameters)
        && socket == old(socket) && callbacks == old(callbacks) && awaiters == old(awaiters) && channel == old(channel)
      else
        state == Disconnected && stateChanges == old(stateChanges) + [Disconnected] && !isReconnecting
        && connectionParameters.None? && waiter == ClearedWaiter(old(waiter))
        && if old(socket) == NoSocket then
             r == Fail(NullReference) && socket == NoSocket
             && callbacks == old(callbacks) && awaiters == old(awaiters) && channel == old(channel)
           else
             socket == SocketAborted && callbacks == map[] && awaiters == map[]
             && channel == CompleteChannel(old(channel)).0 && r == CompleteChannel(old(channel)).1
    }

    /**
     * `ClearSocketResources`. The response tasks of the awaiters it drops
     * are not completed: whoever waits on them keeps waiting.
     */
    method ClearSocketResources() returns (r: Outcome)
      requires Valid()
      modifies this`state, this`stateChanges, this`waiter, this`isReconnecting, this`connectionParameters
      modifies this`socket, this`callbacks, this`awaiters, this`channel
      ensures Valid()
      ensures Cleared(r)
      ensures tasks == old(tasks)
    {
      if state == Disconnected {
        return Pass;
      }
      MarkDisconnected();
      if socket == NoSocket {
        return Fail(NullReference);
      }
      r := ReleaseSocket();
    }

    /** The first half of `ClearSocketResources`: the state, the reconnection flag, the parameters and the waiter. */
    method MarkDisconnected()
      requires state != Disconnected
      modifies this`state, this`stateChanges, this`waiter, this`isReconnecting, this`connectionParameters
      ensures state == Disconnected && stateChanges == old(stateChanges) + [Disconnected]
      ensures !isReconnecting && connectionParameters.None? && waiter == ClearedWaiter(old(waiter))
    {
      SetConnectionState(Disconnected);
      isReconnecting := false;
      connectionParameters := None;
      waiter := ClearedWaiter(waiter);
    }

    /** The second half of `ClearSocketResources`: the socket, the callbacks, the awaiters and the channel. */
    method ReleaseSocket() returns (r: Outcome)
      requires Valid()
      modifies this`socket, this`callbacks, this`awaiters, this`channel
      ensures Valid()
      ensures socket == SocketAborted && callbacks == map[] && awaiters == map[]
      ensures channel == CompleteChannel(old(channel)).0 && r == CompleteChannel(old(channel)).1
    {
      socket := SocketAborted;
      callbacks := map[];
      awaiters := map[];
      var completed := CompleteChannel(channel);
      channel := completed.0;
      r := completed.1;
    }

    /**
     * `Dispose`: the first call marks the client disposed, clears the socket
     * resources and then empties every subscription and the registry; an
     * exception from the clearing leaves the registry as it was. Later calls
     * do nothing.
     */
    method Dispose() returns (r: Outcome)
      requires Valid()
      modifies this`disposed, this`state, this`stateChanges, this`waiter, this`isReconnecting
      modifies this`connectionParameters, this`socket, this`callbacks, this`awaiters, this`channel
      modifies this`subscriptions, Entries()`handlers, Entries()`subscriptionCount
      ensures Valid()
      ensures old(disposed) ==> r.Pass?
      ensures old(disposed) ==> unchanged(this)
      ensures old(disposed) ==> forall k :: k in subscriptions ==>
        subscriptions[k].handlers == old(subscriptions[k].handlers)
        && subscriptions[k].subscriptionCount == old(subscriptions[k].subscriptionCount)
      ensures !old(disposed) ==> disposed && Cleared(r)
      ensures !old(disposed) && r.Fail? ==> subscriptions == old(subscriptions)
      ensures !old(disposed) && r.Pass? ==> (subscriptions == map[]
        && forall s :: s in old(Entries()) ==> s.handlers == [] && s.subscriptionCount == 0)
    {
      if disposed {
        return Pass;
      }
      disposed := true;
      r := Release();
    }

    /** The first `Dispose`, once marked: the socket resources, then the registry. */
    method Release() returns (r: Outcome)
      requires Valid()
      modifies this`state, this`stateChanges, this`waiter, this`isReconnecting
      modifies this`connectionParameters, this`socket, this`callbacks, this`awaiters, this`channel
      modifies this`subscriptions, Entries()`handlers, Entries()`subscriptionCount
      ensures Valid()
      ensures Cleared(r)
      ensures r.Fail? ==> subscriptions == old(subscriptions)
      ensures r.Pass? ==> (subscriptions == map[]
        && forall s :: s in old(Entries()) ==> s.handlers == [] && s.subscriptionCount == 0)
    {
      r := ClearSocketResources();
      if r.Fail? {
        return;
      }
      ClearRegistry();
    }

    /** The end of `Dispose`: every subscription loses its handlers, then the registry is emptied. */
    method ClearRegistry()
      modifies this`subscriptions, Entries()`handlers, Entries()`subscriptionCount
      ensures subscriptions == map[] && RegistryValid()
      ensures forall s :: s in old(Entries()) ==> s.handlers == [] && s.subscriptionCount == 0
    {
      var pending := subscriptions.Keys;
      while pending != {}
        invariant pending <= subscriptions.Keys && subscriptions == old(subscriptions)
        modifies Entries()`handlers, Entries()`subscriptionCount
        invariant forall k :: k in subscriptions && k !in pending ==>
          subscriptions[k].handlers == [] && subscriptions[k].subscriptionCount == 0
        decreases pending
      {
        var k :| k in pending;
        subscriptions[k].ClearAllSubscriptions();
        pending := pending - {k};
      }
      subscriptions := map[];
    }

    /**
     * `WaitForConnectionAsync(timeout, cancellationToken)`: without a
     * positive timeout and without a token it throws `ArgumentException`.
     * Connected: `true` at once. No connection waiter: `false` at once.
     * Otherwise the waiter's task, which stays pending however long the
     * timeout: the timeout is never applied.
     */
    function WaitForConnection(timeoutPositive: bool, tokenGiven: bool): (r: TaskState<bool>)
      reads this`state, this`waiter
      ensures !timeoutPositive && !tokenGiven ==> r == Faulted(Argument)
      ensures (timeoutPositive || tokenGiven) && state == Connected ==> r == Completed(true)
      ensures (timeoutPositive || tokenGiven) && state != Connected && waiter == NoWaiter ==> r == Completed(false)
      ensures r.Running? <==> (timeoutPositive || tokenGiven) && state != Connected && waiter == WaiterPending
      ensures (timeoutPositive || tokenGiven) && state != Connected && waiter.WaiterDone? ==> r == Completed(waiter.connected)
    {
      if !timeoutPositive && !tokenGiven then Faulted(Argument)
      else if state == Connected then Completed(true)
      else
        match waiter
        case NoWaiter => Completed(false)
        case WaiterPending => Running
        case WaiterDone(b) => Completed(b)
    }

    /**
     * `SendMessage` for an identifiable message. The token can fire at the
     * sending semaphore, before anything happens. Otherwise the message gets
     * the next id, `++_lastSentId`. A subscribe or render-template message
     * registers its callback under that id (`Dictionary.Add`, which throws
     * `ArgumentException` for an id already there, before the frame is
     * written). The response task, if any, becomes the id's awaiter unless
     * the id already has one. Then the frame is written; the write can throw.
     */
    method SendMessage(cmd: Command, ticket: Option<nat>, waitCancelled: bool, sendError: Option<Exception>)
      returns (r: Outcome)
      requires Valid()
      requires ticket.Some? ==> ticket.value in tasks
      modifies this`lastSentId, this`issued, this`outbox, this`callbacks, this`awaiters, cmd.Header()
      ensures Valid()
      ensures waitCancelled ==> r == Fail(OperationCanceled) && unchanged(this) && unchanged(cmd.Header())
      ensures !waitCancelled ==> (cmd.Header().id == Increment(old(lastSentId)) && lastSentId == cmd.Header().id
        && issued == old(issued) + 1)
      ensures !waitCancelled && Registers(cmd) && cmd.Header().id in old(callbacks) ==>
        r == Fail(Argument) && outbox == old(outbox) && callbacks == old(callbacks) && awaiters == old(awaiters)
      ensures !waitCancelled && !(Registers(cmd) && cmd.Header().id in old(callbacks)) ==>
        r == (if sendError.Some? then Fail(sendError.value) else Pass)
        && outbox == old(outbox) + [CommandOut(cmd.Header().messageType, cmd.Header().id, cmd.Body())]
        && callbacks == (if Registers(cmd) then old(callbacks)[cmd.Header().id := CallbackFor(cmd)] else old(callbacks))
        && awaiters == if ticket.Some? && cmd.Header().id !in old(awaiters)
          then old(awaiters)[cmd.Header().id := ticket.value] else old(awaiters)
    {
      if waitCancelled {
        return Fail(OperationCanceled);
      }
      r := SendAfterWait(cmd, ticket, sendError);
    }

    /** `SendMessage` once the sending semaphore is held: the id, the tables, then the write. */
    method SendAfterWait(cmd: Command, ticket: Option<nat>, sendError: Option<Exception>) returns (r: Outcome)
      requires Valid()
      requires ticket.Some? ==> ticket.value in tasks
      modifies this`lastSentId, this`issued, this`outbox, this`callbacks, this`awaiters, cmd.Header()
      ensures Valid()
      ensures cmd.Header().id == Increment(old(lastSentId)) && lastSentId == cmd.Header().id && issued == old(issued) + 1
      ensures Registers(cmd) && cmd.Header().id in old(callbacks) ==>
        r == Fail(Argument) && outbox == old(outbox) && callbacks == old(callbacks) && awaiters == old(awaiters)
      ensures !(Registers(cmd) && cmd.Header().id in old(callbacks)) ==>
        r == (if sendError.Some? then Fail(sendError.value) else Pass)
        && outbox == old(outbox) + [CommandOut(cmd.Header().messageType, cmd.Header().id, cmd.Body())]
        && callbacks == (if Registers(cmd) then old(callbacks)[cmd.Header().id := CallbackFor(cmd)] else old(callbacks))
        && awaiters == if ticket.Some? && cmd.Header().id !in old(awaiters)
          then old(awaiters)[cmd.Header().id := ticket.value] else old(awaiters)
    {
      var header := cmd.Header();
      var id := TakeId(header);
      r := Enlist(cmd, id, ticket);
      if r.Fail? {
        return;
      }
      Write(CommandOut(header.messageType, id, cmd.Body()));
      r := if sendError.Some? then Fail(sendError.value) else Pass;
    }

    /** `message.Id = ++_lastSentId`: the next id, which the frame about to be written will carry. */
    method TakeId(header: IdentifiableMessage) returns (id: uint32)
      requires IdsValid()
      modifies this`lastSentId, this`issued, header
      ensures id == Increment(old(lastSentId)) && lastSentId == id && header.id == id && issued == old(issued) + 1
      ensures issued < UINT_LIMIT ==> lastSentId == issued && AscendingUpTo(SentIds(outbox), issued - 1)
    {
      lastSentId := Increment(lastSentId);
      issued := issued + 1;
      header.id := lastSentId;
      id := lastSentId;
    }

    /**
     * The tables `SendMessage` fills before writing the frame: the event
     * callback of a subscribe or render-template message (refused with
     * `ArgumentException` for an id already there), then the awaiter.
     */
    method Enlist(cmd: Command, id: uint32, ticket: Option<nat>) returns (r: Outcome)
      requires forall i :: i in awaiters ==> awaiters[i] in tasks
      requires ticket.Some? ==> ticket.value in tasks
      modifies this`callbacks, this`awaiters
      ensures forall i :: i in awaiters ==> awaiters[i] in tasks
      ensures Registers(cmd) && id in old(callbacks) ==>
        r == Fail(Argument) && callbacks == old(callbacks) && awaiters == old(awaiters)
      ensures !(Registers(cmd) && id in old(callbacks)) ==>
        r.Pass?
        && callbacks == (if Registers(cmd) then old(callbacks)[id := CallbackFor(cmd)] else old(callbacks))
        && awaiters == if ticket.Some? && id !in old(awaiters) then old(awaiters)[id := ticket.value] else old(awaiters)
    {
      if Registers(cmd) {
        if id in callbacks {
          return Fail(Argument);
        }
        callbacks := callbacks[id := CallbackFor(cmd)];
      }
      if ticket.Some? && id !in awaiters {
        awaiters := awaiters[id := ticket.value];
      }
      r := Pass;
    }

    /**
     * One entry of `RestoreEventsSubscriptionsAsync`: subscribe again to the
     * event type, reading the next frame as the answer, until the server
     * accepts; the accepted result's id is the new subscription id. Each
     * try registers another event callback. A read that throws, or a frame
     * that is not a result, ends the restore with that exception.
     */
    method Resubscribe(eventType: string, received: seq<Receive>, from: nat) returns (r: Outcome, next: nat, id: uint32)
      requires Valid()
      modifies this`lastSentId, this`issued, this`outbox, this`callbacks, this`awaiters
      ensures Valid()
      ensures next >= from && awaiters == old(awaiters) && old(outbox) <= outbox
      ensures OnlyEventCallbacks(old(callbacks)) ==> OnlyEventCallbacks(callbacks)
      ensures |outbox| == |old(outbox)| + (next - from)
      ensures SubscribedBefore(outbox, |old(outbox)| - from, from, next, eventType)
      ensures forall k :: from <= k < next - 1 ==> Declined(Next(received, k))
      ensures r.Pass? ==> ReplyWindow(received, from, next, id)
      ensures r.Fail? && r != Fail(Argument) ==> next > from && r == ReadFailure(Next(received, next - 1))
    {
      next := from;
      id := 0;
      ghost var shift := |outbox| - from;
      while true
        invariant Valid()
        invariant next >= from && awaiters == old(awaiters) && old(outbox) <= outbox
        invariant OnlyEventCallbacks(old(callbacks)) ==> OnlyEventCallbacks(callbacks)
        invariant |outbox| == |old(outbox)| + (next - from)
        invariant SubscribedBefore(outbox, shift, from, next, eventType)
        invariant forall k :: from <= k < next ==> Declined(Next(received, k))
        decreases |received| - next
      {
        var message := new SubscribeEventsMessage(Some(eventType));
        ghost var before := outbox;
        r := SendMessage(SubscribeCommand(message), None, false, None);
        if r.Fail? {
          return;
        }
        SubscribedBeforeAppend(before, outbox[|before|], shift, from, next, eventType);
        var rcv := Next(received, next);
        next := next + 1;
        if rcv.ReceiveFails? {
          return Fail(rcv.error), next, id;
        }
        if !rcv.frame.ResultFrame? {
          return Fail(InvalidCast), next, id;
        }
        if rcv.frame.success {
          return Pass, next, rcv.frame.id;
        }
      }
    }

    /**
     * `RestoreEventsSubscriptionsAsync`, after a reconnection: the callbacks
     * are dropped, then every registered event type is subscribed again and
     * its subscription takes the id the server accepted. The handlers stay.
     * The state becomes `Restoring` as soon as there is a type to restore.
     * The event types restored are `order`, in turn; the i-th read the
     * replies from `bounds[i]` up to `bounds[i + 1]`.
     */
    method Restore(received: seq<Receive>, from: nat)
      returns (r: Outcome, next: nat, ghost order: seq<string>, ghost bounds: seq<nat>)
      requires Valid()
      modifies this`lastSentId, this`issued, this`outbox, this`callbacks, this`awaiters
      modifies this`state, this`stateChanges, this`waiter, Entries()`subscriptionId
      ensures Valid()
      ensures next >= from && awaiters == old(awaiters) && waiter == old(waiter) && subscriptions == old(subscriptions)
      ensures old(outbox) <= outbox && OnlyEventCallbacks(callbacks)
      ensures subscriptions == map[] ==> r.Pass?
      ensures state == if subscriptions == map[] then old(state) else Restoring
      ensures stateChanges == if subscriptions == map[] || old(state) == Restoring then old(stateChanges)
        else old(stateChanges) + [Restoring]
      ensures forall k :: k in subscriptions ==>
        subscriptions[k].handlers == old(subscriptions[k].handlers)
        && subscriptions[k].subscriptionCount == old(subscriptions[k].subscriptionCount)
      ensures |outbox| == |old(outbox)| + (next - from)
      ensures |bounds| == |order| + 1 && bounds[0] == from && (r.Pass? ==> bounds[|order|] == next)
      ensures forall i, j :: 0 <= i < j < |order| ==> order[i] != order[j]
      ensures forall i :: 0 <= i < |order| ==> order[i] in subscriptions
      ensures r.Pass? ==> forall k :: k in subscriptions ==> k in order
      ensures forall i :: 0 <= i < |order| ==>
        ReplyWindow(received, bounds[i], bounds[i + 1], subscriptions[order[i]].subscriptionId)
      ensures forall i :: 0 <= i < |order| ==>
        SubscribedBefore(outbox, |old(outbox)| - from, bounds[i], bounds[i + 1], order[i])
    {
      callbacks := map[];
      next := from;
      r := Pass;
      order := [];
      bounds := [from];
      if subscriptions == map[] {
        return;
      }
      // The first pass sets `Restoring`; setting it here already changes nothing the first pass would not.
      SetConnectionState(Restoring);
      r, next, order, bounds := RestoreEach(received, from);
    }

    /** The restore loop of `Restore`, once the state is `Restoring`: each event type in turn, until one fails. */
    method RestoreEach(received: seq<Receive>, from: nat)
      returns (r: Outcome, next: nat, ghost order: seq<string>, ghost bounds: seq<nat>)
      requires Valid() && state == Restoring && OnlyEventCallbacks(callbacks)
      modifies this`lastSentId, this`issued, this`outbox, this`callbacks, this`awaiters
      modifies this`state, this`stateChanges, this`waiter, Entries()`subscriptionId
      ensures Valid()
      ensures next >= from && awaiters == old(awaiters) && waiter == old(waiter) && subscriptions == old(subscriptions)
      ensures old(outbox) <= outbox && OnlyEventCallbacks(callbacks)
      ensures state == Restoring && stateChanges == old(stateChanges)
      ensures |outbox| == |old(outbox)| + (next - from)
      ensures RestoredInOrder(received, outbox, |old(outbox)| - from, order, bounds, SubscriptionIds())
      ensures bounds[0] == from && (r.Pass? ==> bounds[|order|] == next)
      ensures r.Pass? ==> forall k :: k in subscriptions ==> k in order
    {
      next := from;
      r := Pass;
      order := [];
      bounds := [from];
      ghost var shift := |outbox| - from;
      var pending := subscriptions.Keys;
      while pending != {} && r.Pass?
        invariant Valid()
        invariant pending <= subscriptions.Keys
        invariant next >= from && awaiters == old(awaiters) && waiter == old(waiter) && subscriptions == old(subscriptions)
        invariant old(outbox) <= outbox && OnlyEventCallbacks(callbacks)
        invariant state == Restoring && stateChanges == old(stateChanges)
        invariant |outbox| == |old(outbox)| + (next - from)
        invariant RestoredInOrder(received, outbox, shift, order, bounds, SubscriptionIds())
        invariant bounds[0] == from && (r.Pass? ==> bounds[|order|] == next)
        invariant forall i :: 0 <= i < |order| ==> order[i] !in pending
        invariant r.Pass? ==> forall k :: k in subscriptions ==> k in pending || k in order
        decreases pending, if r.Pass? then 1 else 0
      {
        var eventType :| eventType in pending;
        r, next, order, bounds := RestoreNext(eventType, received, next, shift, order, bounds);
        if r.Pass? {
          pending := pending - {eventType};
        }
      }
    }

    /**
     * A pass of the restore loop, as the restore order sees it: an event
     * type not restored yet, whose replies start where the last window
     * ended, joins the order when it passes; a failure leaves the order.
     */
    method RestoreNext(eventType: string, received: seq<Receive>, from: nat, ghost shift: int,
                       ghost order: seq<string>, ghost bounds: seq<nat>)
      returns (r: Outcome, next: nat, ghost order': seq<string>, ghost bounds': seq<nat>)
      requires Valid() && eventType in subscriptions && state == Restoring
      requires RestoredInOrder(received, outbox, shift, order, bounds, SubscriptionIds())
      requires bounds[|order|] == from && |outbox| == from + shift
      requires forall i :: 0 <= i < |order| ==> order[i] != eventType
      modifies this`lastSentId, this`issued, this`outbox, this`callbacks, this`awaiters
      modifies this`state, this`stateChanges, this`waiter, Entries()`subscriptionId
      ensures Valid()
      ensures next >= from && awaiters == old(awaiters) && waiter == old(waiter)
      ensures old(outbox) <= outbox && (OnlyEventCallbacks(old(callbacks)) ==> OnlyEventCallbacks(callbacks))
      ensures state == Restoring && stateChanges == old(stateChanges)
      ensures |outbox| == |old(outbox)| + (next - from)
      ensures RestoredInOrder(received, outbox, shift, order', bounds', SubscriptionIds())
      ensures if r.Pass? then order' == order + [eventType] && bounds' == bounds + [next]
        else order' == order && bounds' == bounds
    {
      ghost var before, ids := outbox, SubscriptionIds();
      r, next := RestoreOne(eventType, received, from);
      ghost var now := SubscriptionIds();
      RestoredInOrderKeep(received, before, outbox, shift, order, bounds, ids, now);
      order', bounds' := order, bounds;
      if r.Pass? {
        RestoredInOrderExtend(received, outbox, shift, order, bounds, now, eventType, next);
        order', bounds' := order + [eventType], bounds + [next];
      }
    }

    /** One pass of the restore loop: the state, the subscription, and its new id. */
    method RestoreOne(eventType: string, received: seq<Receive>, from: nat) returns (r: Outcome, next: nat)
      requires Valid() && eventType in subscriptions
      modifies this`lastSentId, this`issued, this`outbox, this`callbacks, this`awaiters
      modifies this`state, this`stateChanges, this`waiter, Entries()`subscriptionId
      ensures Valid()
      ensures next >= from && awaiters == old(awaiters) && waiter == old(waiter)
      ensures old(outbox) <= outbox && (OnlyEventCallbacks(old(callbacks)) ==> OnlyEventCallbacks(callbacks))
      ensures state == Restoring
      ensures stateChanges == if old(state) == Restoring then old(stateChanges) else old(stateChanges) + [Restoring]
      ensures |outbox| == |old(outbox)| + (next - from)
      ensures SubscribedBefore(outbox, |old(outbox)| - from, from, next, eventType)
      ensures r.Pass? ==> ReplyWindow(received, from, next, subscriptions[eventType].subscriptionId)
      ensures forall k :: k in subscriptions && k != eventType ==>
        subscriptions[k].subscriptionId == old(subscriptions[k].subscriptionId)
    {
      SetConnectionState(Restoring);
      var id;
      r, next, id := Resubscribe(eventType, received, from);
      if r.Pass? {
        subscriptions[eventType].SetSubscriptionId(id);
      }
    }

    /**
     * The authentication exchange of `InternalConnect`, on a socket that has
     * just connected: the server must first ask for authentication, the
     * client answers with its access token, and the server's next frame
     * decides. An accepted authentication parses the server's version,
     * restores the event subscriptions after a reconnection and sets the
     * state to `Connected`, which completes the connection waiter. A frame
     * that neither accepts nor rejects falls through: the attempt passes but
     * the client stays `Authenticating`.
     */
    method Handshake(parameters: ConnectionParameters, received: seq<Receive>) returns (r: Outcome)
      requires Valid() && waiter == WaiterPending && state == Authenticating
      modifies this`outbox, this`haVersion, this`isReconnecting, this`state, this`stateChanges, this`waiter
      modifies this`lastSentId, this`issued, this`callbacks, this`awaiters, Entries()`subscriptionId
      ensures Valid()
      ensures HandshakeOutcome(received).Fail? ==> r == HandshakeOutcome(received)
      ensures !old(isReconnecting) ==> r == HandshakeOutcome(received)
      ensures r.Pass? ==> old(outbox) + [AuthFrame(parameters.accessToken)] <= outbox
      ensures waiter != NoWaiter
      ensures r.Pass? && Accepted(received) ==> (state == Connected && waiter == WaiterDone(true) && !isReconnecting
        && haVersion == Some(ParseVersion(Next(received, 1).frame.haVersion).value))
      ensures r.Pass? && !Accepted(received) ==> state == old(state) && stateChanges == old(stateChanges)
      ensures r.Fail? ==> state == Authenticating || state == Restoring
      ensures !old(isReconnecting) ==> (!isReconnecting && (state == old(state) || state == Connected)
        && stateChanges == if state == old(state) then old(stateChanges) else old(stateChanges) + [Connected])
    {
      var first := Next(received, 0);
      if first.ReceiveFails? {
        return Fail(first.error);
      }
      if first.frame != AuthRequired {
        return Fail(Authentication);
      }
      SentIdsAppend(outbox, AuthFrame(parameters.accessToken));
      outbox := outbox + [AuthFrame(parameters.accessToken)];
      var second := Next(received, 1);
      if second.ReceiveFails? {
        return Fail(second.error);
      }
      if second.frame.AuthInvalid? {
        return Fail(Authentication);
      }
      if second.frame.AuthOk? {
        r := Accept(second.frame.haVersion, received);
        return;
      }
      r := Pass;
    }

    /**
     * An accepted authentication: the server's version is parsed, the event
     * subscriptions are restored after a reconnection, and the client is
     * `Connected`, which completes the connection waiter.
     */
    method Accept(version: Option<string>, received: seq<Receive>) returns (r: Outcome)
      requires Valid() && waiter == WaiterPending && state == Authenticating
      modifies this`outbox, this`haVersion, this`isReconnecting, this`state, this`stateChanges, this`waiter
      modifies this`lastSentId, this`issued, this`callbacks, this`awaiters, Entries()`subscriptionId
      ensures Valid() && waiter != NoWaiter && old(outbox) <= outbox
      ensures ParseVersion(version).Err? ==> r == Fail(ParseVersion(version).error)
      ensures ParseVersion(version).Ok? && !old(isReconnecting) ==> r.Pass?
      ensures r.Pass? ==> (state == Connected && waiter == WaiterDone(true) && !isReconnecting
        && haVersion == Some(ParseVersion(version).value))
      ensures r.Fail? ==> state == Authenticating || state == Restoring
      ensures !old(isReconnecting) ==> (!isReconnecting && (state == old(state) || state == Connected)
        && stateChanges == if state == old(state) then old(stateChanges) else old(stateChanges) + [Connected])
    {
      var parsed := ParseVersion(version);
      if parsed.Err? {
        return Fail(parsed.error);
      }
      haVersion := Some(parsed.value);
      r := Connect(received);
    }

    /** After the version: the restore when reconnecting, then `Connected`. */
    method Connect(received: seq<Receive>) returns (r: Outcome)
      requires Valid() && waiter == WaiterPending && state == Authenticating
      modifies this`outbox, this`isReconnecting, this`state, this`stateChanges, this`waiter
      modifies this`lastSentId, this`issued, this`callbacks, this`awaiters, Entries()`subscriptionId
      ensures Valid() && waiter != NoWaiter && old(outbox) <= outbox
      ensures !old(isReconnecting) ==> r.Pass?
      ensures r.Pass? ==> state == Connected && waiter == WaiterDone(true) && !isReconnecting
      ensures r.Fail? ==> state == Authenticating || state == Restoring
      ensures !old(isReconnecting) ==> (!isReconnecting && (state == old(state) || state == Connected)
        && stateChanges == if state == old(state) then old(stateChanges) else old(stateChanges) + [Connected])
    {
      if isReconnecting {
        var next;
        ghost var order, bounds;
        r, next, order, bounds := Restore(received, 2);
        if r.Fail? {
          return;
        }
      }
      isReconnecting := false;
      SetConnectionState(Connected);
      r := Pass;
    }

    /**
     * The body of one iteration of `InternalConnect`'s loop, after the
     * connection semaphore: the token check, then a fresh id counter,
     * connection waiter and socket, the connect, the `Authenticating` state,
     * the handshake, and the start of the socket listener.
     */
    method RunAttempt(parameters: ConnectionParameters, attempt: Attempt, ghost base: seq<ConnectionState>)
      returns (r: Outcome)
      requires Valid()
      modifies this`outbox, this`haVersion, this`isReconnecting, this`state, this`stateChanges, this`waiter
      modifies this`lastSentId, this`issued, this`callbacks, this`awaiters, Entries()`subscriptionId, this`socket, this`listener
      ensures Valid()
      ensures attempt.checkCancelled ==> (r == Fail(OperationCanceled) && state == old(state)
        && stateChanges == old(stateChanges) && socket == old(socket) && isReconnecting == old(isReconnecting))
      ensures !attempt.checkCancelled ==> socket == SocketLive && waiter != NoWaiter
      ensures !attempt.checkCancelled && attempt.connectError.Some? ==>
        (r == Fail(attempt.connectError.value) && state == old(state) && stateChanges == old(stateChanges)
        && isReconnecting == old(isReconnecting))
      ensures !attempt.checkCancelled && attempt.connectError.None? ==>
        (HandshakeOutcome(attempt.received).Fail? ==> r == HandshakeOutcome(attempt.received))
        && (!old(isReconnecting) ==> r == HandshakeOutcome(attempt.received))
        && (r.Pass? ==> listener == Listening && [AuthFrame(parameters.accessToken)] <= outbox)
        && (r.Pass? && Accepted(attempt.received) ==> state == Connected && waiter == WaiterDone(true))
        && (r.Pass? && !Accepted(attempt.received) ==> state == Authenticating)
        && (r.Fail? ==> state == Authenticating || state == Restoring)
      ensures r.Fail? ==> listener == old(listener)
      ensures !old(isReconnecting) ==> !isReconnecting
      ensures !old(isReconnecting) && old(state) in {Connecting, Authenticating} && old(stateChanges) == base + ConnectLog(old(state)) ==>
        (state in {Connecting, Authenticating, Connected} && stateChanges == base + ConnectLog(state))
    {
      if attempt.checkCancelled {
        return Fail(OperationCanceled);
      }
      r := Open(parameters, attempt.connectError, attempt.received, base);
    }

    /** `RunAttempt` past the token check: the new socket, its connect, and the authentication. */
    method Open(parameters: ConnectionParameters, connectError: Option<Exception>, received: seq<Receive>,
                ghost base: seq<ConnectionState>)
      returns (r: Outcome)
      requires Valid()
      modifies this`outbox, this`haVersion, this`isReconnecting, this`state, this`stateChanges, this`waiter
      modifies this`lastSentId, this`issued, this`callbacks, this`awaiters, Entries()`subscriptionId, this`socket, this`listener
      ensures Valid() && socket == SocketLive && waiter != NoWaiter
      ensures connectError.Some? ==>
        (r == Fail(connectError.value) && state == old(state) && stateChanges == old(stateChanges)
        && isReconnecting == old(isReconnecting))
      ensures connectError.None? ==>
        (HandshakeOutcome(received).Fail? ==> r == HandshakeOutcome(received))
        && (!old(isReconnecting) ==> r == HandshakeOutcome(received))
        && (r.Pass? ==> listener == Listening && [AuthFrame(parameters.accessToken)] <= outbox)
        && (r.Pass? && Accepted(received) ==> state == Connected && waiter == WaiterDone(true))
        && (r.Pass? && !Accepted(received) ==> state == Authenticating)
        && (r.Fail? ==> state == Authenticating || state == Restoring)
      ensures r.Fail? ==> listener == old(listener)
      ensures !old(isReconnecting) ==> !isReconnecting
      ensures !old(isReconnecting) && old(state) in {Connecting, Authenticating} && old(stateChanges) == base + ConnectLog(old(state)) ==>
        (state in {Connecting, Authenticating, Connected} && stateChanges == base + ConnectLog(state))
    {
      Reset();
      if connectError.Some? {
        return Fail(connectError.value);
      }
      r := Authenticate(parameters, received);
      if !old(isReconnecting) && old(state) in {Connecting, Authenticating} && old(stateChanges) == base + ConnectLog(old(state)) {
        ConnectLogAuthenticated(base, old(state), state, old(stateChanges), stateChanges);
      }
    }

    /** A new socket: the id counter starts again and a new connection waiter is pending. */
    method Reset()
      requires Valid()
      modifies this`lastSentId, this`issued, this`outbox, this`waiter, this`socket
      ensures Valid()
      ensures lastSentId == 0 && issued == 0 && outbox == [] && waiter == WaiterPending && socket == SocketLive
    {
      lastSentId := 0;
      issued := 0;
      outbox := [];
      waiter := WaiterPending;
      socket := SocketLive;
    }

    /** The connected socket: `Authenticating`, the handshake, and the socket listener. */
    method Authenticate(parameters: ConnectionParameters, received: seq<Receive>) returns (r: Outcome)
      requires Valid() && waiter == WaiterPending
      modifies this`outbox, this`haVersion, this`isReconnecting, this`state, this`stateChanges, this`waiter
      modifies this`lastSentId, this`issued, this`callbacks, this`awaiters, Entries()`subscriptionId, this`listener
      ensures Valid() && waiter != NoWaiter
      ensures HandshakeOutcome(received).Fail? ==> r == HandshakeOutcome(received)
      ensures !old(isReconnecting) ==> r == HandshakeOutcome(received)
      ensures r.Pass? ==> listener == Listening && old(outbox) + [AuthFrame(parameters.accessToken)] <= outbox
      ensures r.Fail? ==> listener == old(listener)
      ensures r.Pass? && Accepted(received) ==> state == Connected && waiter == WaiterDone(true)
      ensures r.Pass? && !Accepted(received) ==> state == Authenticating
      ensures r.Fail? ==> state == Authenticating || state == Restoring
      ensures !old(isReconnecting) ==> (!isReconnecting && state in {Authenticating, Connected}
        && stateChanges == old(stateChanges) + (if old(state) == Authenticating then [] else [Authenticating])
          + (if state == Connected then [Connected] else []))
    {
      SetConnectionState(Authenticating);
      r := Listen(parameters, received);
    }

    /** The handshake, and the socket listener once it passes. */
    method Listen(parameters: ConnectionParameters, received: seq<Receive>) returns (r: Outcome)
      requires Valid() && waiter == WaiterPending && state == Authenticating
      modifies this`outbox, this`haVersion, this`isReconnecting, this`state, this`stateChanges, this`waiter
      modifies this`lastSentId, this`issued, this`callbacks, this`awaiters, Entries()`subscriptionId, this`listener
      ensures Valid() && waiter != NoWaiter
      ensures HandshakeOutcome(received).Fail? ==> r == HandshakeOutcome(received)
      ensures !old(isReconnecting) ==> r == HandshakeOutcome(received)
      ensures r.Pass? ==> listener == Listening && old(outbox) + [AuthFrame(parameters.accessToken)] <= outbox
      ensures r.Fail? ==> listener == old(listener)
      ensures r.Pass? && Accepted(received) ==> state == Connected && waiter == WaiterDone(true)
      ensures r.Pass? && !Accepted(received) ==> state == Authenticating
      ensures r.Fail? ==> state == Authenticating || state == Restoring
      ensures !old(isReconnecting) ==> (!isReconnecting && (state == Authenticating || state == Connected)
        && stateChanges == old(stateChanges) + (if state == Connected then [Connected] else []))
    {
      r := Handshake(parameters, received);
      if r.Pass? {
        listener := Listening;
      }
    }

    /**
     * The `finally` of a connect attempt that is not retried: unless the
     * client got connected, the socket resources are cleared, and an
     * exception from the clearing replaces the attempt's outcome.
     */
    method Conclude(o: Outcome) returns (r: Outcome)
      requires Valid() && state != Disconnected
      modifies this`state, this`stateChanges, this`waiter, this`isReconnecting, this`connectionParameters
      modifies this`socket, this`callbacks, this`awaiters, this`channel
      ensures Valid()
      ensures old(state) == Connected ==> (r == o && state == Connected && stateChanges == old(stateChanges)
        && waiter == old(waiter) && isReconnecting == old(isReconnecting))
      ensures old(state) != Connected ==> state == Disconnected && (r.Pass? ==> o.Pass?) && (o.Fail? ==> r.Fail?)
    {
      r := o;
      if state != Connected {
        var cleared := ClearSocketResources();
        if cleared.Fail? {
          r := cleared;
        }
      }
    }

    /**
     * One pass of `InternalConnect`'s loop. The token can fire at the
     * connection semaphore, before the `try`: nothing is cleared then.
     * Otherwise the attempt runs; a failure is retried by the retry rule,
     * unless the token fires during the delay, whose exception leaves the
     * `finally` nothing to clear. An attempt that is not retried is
     * concluded.
     */
    method AttemptOnce(parameters: ConnectionParameters, a: Attempt, retries: int, ghost base: seq<ConnectionState>)
      returns (o: Option<Outcome>, r: Outcome, retry: bool, left: int)
      requires Valid() && state != Disconnected && state != Connected
      modifies this`outbox, this`haVersion, this`isReconnecting, this`state, this`stateChanges, this`waiter
      modifies this`lastSentId, this`issued, this`callbacks, this`awaiters, Entries()`subscriptionId, this`socket, this`listener
      modifies this`connectionParameters, this`channel
      ensures Valid()
      ensures a.waitCancelled ==> (o.None? && r == Fail(OperationCanceled) && !retry && left == retries
        && state == old(state) && stateChanges == old(stateChanges))
      ensures !a.waitCancelled ==> o.Some?
      ensures retry ==> (o == Some(Fail(WebSocket)) && RetryDecision(retries, WebSocket) == (true, left)
        && state != Disconnected && state != Connected)
      ensures retries < 0 ==> left < 0
      ensures retry <==> o.Some? && o.value.Fail? && RetryDecision(retries, o.value.error).0 && !a.delayCancelled
      ensures o.Some? && o.value.Fail? ==> left == RetryDecision(retries, o.value.error).1
      ensures o.Some? && o.value.Fail? && RetryDecision(retries, o.value.error).0 && a.delayCancelled ==>
        r == Fail(OperationCanceled)
      ensures !a.waitCancelled && !a.checkCancelled && a.connectError.Some? ==> o == Some(Fail(a.connectError.value))
      ensures state == Connected ==> r.Pass? && !retry
      ensures !retry && r.Fail? && r.error != OperationCanceled ==> state == Disconnected && o.Some?
      ensures !retry && o.Some? && o.value.Fail? ==> r.Fail?
      ensures !old(isReconnecting) && old(state) in {Connecting, Authenticating} && old(stateChanges) == base + ConnectLog(old(state)) ==>
        (retry ==> !isReconnecting && state in {Connecting, Authenticating} && stateChanges == base + ConnectLog(state))
        && (state == Connected ==> stateChanges == base + ConnectLog(Connected))
    {
      left := retries;
      retry := false;
      if a.waitCancelled {
        return None, Fail(OperationCanceled), false, retries;
      }
      var outcome := RunAttempt(parameters, a, base);
      o := Some(outcome);
      if outcome.Fail? {
        var decision := RetryDecision(retries, outcome.error);
        left := decision.1;
        if decision.0 {
          if a.delayCancelled {
            return o, Fail(OperationCanceled), false, left;
          }
          return o, outcome, true, left;
        }
      }
      r := Conclude(outcome);
    }

    /**
     * `InternalConnect`: `Connecting`, then attempts until one is not
     * retried. `attempts` says what each attempt meets; when they run out,
     * the token is taken to fire at the next semaphore wait. Returns the
     * outcome and the outcome of each attempt that ran.
     */
    method InternalConnect(parameters: ConnectionParameters, retries: int, attempts: seq<Attempt>)
      returns (r: Outcome, outcomes: seq<Outcome>)
      requires Valid() && state == Disconnected
      modifies this`outbox, this`haVersion, this`isReconnecting, this`state, this`stateChanges, this`waiter
      modifies this`lastSentId, this`issued, this`callbacks, this`awaiters, Entries()`subscriptionId, this`socket, this`listener
      modifies this`connectionParameters, this`channel
      ensures Valid()
      ensures |outcomes| <= |attempts|
      ensures forall i :: 0 <= i < |outcomes| - 1 ==> outcomes[i] == Fail(WebSocket)
      ensures retries >= 0 ==> |outcomes| <= retries + 1
      ensures state == Connected ==> r.Pass?
      ensures r.Fail? && r.error != OperationCanceled ==> state == Disconnected && outcomes != []
      ensures (forall i :: 0 <= i < |attempts| ==> FailsWithWebSocket(attempts[i])) ==>
        r.Fail? && |outcomes| == if retries < 0 || |attempts| <= retries + 1 then |attempts| else retries + 1
      ensures !old(isReconnecting) && state == Connected ==>
        stateChanges == old(stateChanges) + [Connecting, Authenticating, Connected]
    {
      SetConnectionState(Connecting);
      r, outcomes := Retry(parameters, retries, attempts, old(stateChanges));
    }

    /**
     * The `do ... while (retry)` loop of `InternalConnect`, from the attempt
     * `attempts[0]` on, with `retries` retries left.
     */
    method Retry(parameters: ConnectionParameters, retries: int, attempts: seq<Attempt>, ghost base: seq<ConnectionState>)
      returns (r: Outcome, outcomes: seq<Outcome>)
      requires Valid() && state != Disconnected && state != Connected
      modifies this`outbox, this`haVersion, this`isReconnecting, this`state, this`stateChanges, this`waiter
      modifies this`lastSentId, this`issued, this`callbacks, this`awaiters, Entries()`subscriptionId, this`socket, this`listener
      modifies this`connectionParameters, this`channel
      ensures Valid()
      ensures |outcomes| <= |attempts|
      ensures forall i :: 0 <= i < |outcomes| - 1 ==> outcomes[i] == Fail(WebSocket)
      ensures retries >= 0 ==> |outcomes| <= retries + 1
      ensures state == Connected ==> r.Pass?
      ensures r.Fail? && r.error != OperationCanceled ==> state == Disconnected && outcomes != []
      ensures (forall i :: 0 <= i < |attempts| ==> FailsWithWebSocket(attempts[i])) ==>
        r.Fail? && |outcomes| == if retries < 0 || |attempts| <= retries + 1 then |attempts| else retries + 1
      ensures (!old(isReconnecting) && old(state) in {Connecting, Authenticating} && old(stateChanges) == base + ConnectLog(old(state))
        && state == Connected) ==> stateChanges == base + ConnectLog(Connected)
      decreases |attempts|
    {
      if attempts == [] {
        return Fail(OperationCanceled), [];
      }
      var o, retry, left;
      o, r, retry, left := AttemptOnce(parameters, attempts[0], retries, base);
      outcomes := if o.Some? then [o.value] else [];
      if retry {
        var more;
        r, more := Retry(parameters, left, attempts[1..], base);
        outcomes := outcomes + more;
      }
    }

    /**
     * `ConnectAsync`. Disposed: `ObjectDisposedException`; unlimited
     * retries (negative) without a token: `ArgumentException`; not
     * disconnected: `InvalidOperationException`. Otherwise a new close token,
     * the connection, and then the parameters kept for reconnection, a new
     * event channel and its dispatcher.
     */
    method ConnectAsync(parameters: ConnectionParameters, retries: int, tokenGiven: bool, attempts: seq<Attempt>)
      returns (r: Outcome, outcomes: seq<Outcome>)
      requires Valid()
      modifies this`outbox, this`haVersion, this`isReconnecting, this`state, this`stateChanges, this`waiter
      modifies this`lastSentId, this`issued, this`callbacks, this`awaiters, Entries()`subscriptionId, this`socket, this`listener
      modifies this`connectionParameters, this`channel, this`closeRequested, this`dispatching
      ensures Valid()
      ensures old(disposed) ==> r == Fail(ObjectDisposed)
      ensures !old(disposed) && retries < 0 && !tokenGiven ==> r == Fail(Argument)
      ensures !old(disposed) && !(retries < 0 && !tokenGiven) && old(state) != Disconnected ==> r == Fail(InvalidOperation)
      ensures r in {Fail(ObjectDisposed), Fail(Argument), Fail(InvalidOperation)} && outcomes == [] ==>
        state == old(state) && stateChanges == old(stateChanges)
      ensures forall i :: 0 <= i < |outcomes| - 1 ==> outcomes[i] == Fail(WebSocket)
      ensures retries >= 0 ==> |outcomes| <= retries + 1
      ensures old(state) != Connected && state == Connected ==> r.Pass?
      ensures r.Pass? ==> connectionParameters == Some(parameters) && channel == ChannelOpen([]) && dispatching
      ensures !old(isReconnecting) && old(state) != Connected && state == Connected ==>
        stateChanges == old(stateChanges) + [Connecting, Authenticating, Connected]
    {
      outcomes := [];
      if disposed {
        return Fail(ObjectDisposed), [];
      }
      if retries < 0 && !tokenGiven {
        return Fail(Argument), [];
      }
      if state != Disconnected {
        return Fail(InvalidOperation), [];
      }
      closeRequested := false;
      r, outcomes := InternalConnect(parameters, retries, attempts);
      if r.Pass? {
        connectionParameters := Some(parameters);
        channel := ChannelOpen([]);
        dispatching := true;
      }
    }

    /**
     * `CloseAsync`. Disposed: `ObjectDisposedException`; already
     * disconnected: nothing to do; a token fired at the check:
     * `OperationCanceledException`. Otherwise the close token is cancelled,
     * which stops the listener and the dispatcher, and, once the connection
     * semaphore is taken, the socket resources are cleared. The token can
     * also fire at the semaphore, after the close token was cancelled.
     */
    method CloseAsync(checkCancelled: bool, waitCancelled: bool) returns (r: Outcome)
      requires Valid()
      modifies this`state, this`stateChanges, this`waiter, this`isReconnecting, this`connectionParameters
      modifies this`socket, this`callbacks, this`awaiters, this`channel, this`closeRequested
      ensures Valid()
      ensures old(disposed) ==> r == Fail(ObjectDisposed)
      ensures !old(disposed) && old(state) == Disconnected ==> r.Pass?
      ensures !old(disposed) && old(state) != Disconnected && checkCancelled ==> r == Fail(OperationCanceled)
      ensures !old(disposed) && old(state) != Disconnected && !checkCancelled ==> closeRequested
      ensures !old(disposed) && old(state) != Disconnected && !checkCancelled && !waitCancelled ==> Cleared(r)
      ensures !old(disposed) && old(state) != Disconnected && !checkCancelled && waitCancelled ==>
        r == Fail(OperationCanceled) && state == old(state)
      ensures old(disposed) || old(state) == Disconnected || checkCancelled ==>
        state == old(state) && stateChanges == old(stateChanges) && closeRequested == old(closeRequested)
    {
      if disposed {
        return Fail(ObjectDisposed);
      }
      if state == Disconnected {
        return Pass;
      }
      if checkCancelled {
        return Fail(OperationCanceled);
      }
      closeRequested := true;
      if waitCancelled {
        return Fail(OperationCanceled);
      }
      r := ClearSocketResources();
    }

    /**
     * One iteration of the socket listener (`CreateSocketListenerTask`).
     * Once the socket is no longer open the loop is over and the ending
     * runs next. A read that throws `OperationCanceledException` stops the
     * listener; one that throws `WebSocketException` ends the loop; any
     * other exception faults the listener. A frame that is not an incoming
     * message cannot be read as one and faults it too. After a read the
     * close token is checked, then the frame is routed.
     */
    method ReceiveFrame(rcv: Receive) returns (step: ListenerStep)
      requires Valid()
      modifies this`listener, this`channel, this`awaiters, this`tasks
      ensures Valid()
      ensures old(listener) != Listening ==> (step == Stopped && listener == old(listener)
        && channel == old(channel) && awaiters == old(awaiters) && tasks == old(tasks))
      ensures old(listener) == Listening && socket != SocketLive ==> (step == Ended && listener == Ending
        && channel == old(channel) && awaiters == old(awaiters) && tasks == old(tasks))
      ensures old(listener) == Listening && socket == SocketLive && (rcv.ReceiveFails? || !IsIncoming(rcv.frame) || closeRequested) ==>
        channel == old(channel) && awaiters == old(awaiters) && tasks == old(tasks)
        && step == (if rcv.Got? && !IsIncoming(rcv.frame) then Crashed(InvalidCast)
          else if rcv.Got? || rcv.error == OperationCanceled then Stopped
          else if rcv.error == WebSocket then Ended
          else Crashed(rcv.error))
      ensures old(listener) == Listening ==> (step.Ended? <==> listener == Ending) && (step.Continued? <==> listener == Listening)
      ensures old(listener) == Listening && socket == SocketLive && rcv.Got? && IsIncoming(rcv.frame) && !closeRequested ==>
        (step, channel, awaiters, tasks) == old(Route(rcv.frame))
    {
      if listener != Listening {
        return Stopped;
      }
      if socket != SocketLive {
        listener := Ending;
        return Ended;
      }
      step := Handle(rcv);
      listener := if step.Ended? then Ending else if step.Continued? then Listening else NotListening;
    }

    /** What the listener does with one read on a live socket, before it decides whether to go on. */
    method Handle(rcv: Receive) returns (step: ListenerStep)
      requires Valid()
      modifies this`channel, this`awaiters, this`tasks
      ensures Valid()
      ensures rcv.ReceiveFails? || !IsIncoming(rcv.frame) || closeRequested ==>
        channel == old(channel) && awaiters == old(awaiters) && tasks == old(tasks)
        && step == (if rcv.Got? && !IsIncoming(rcv.frame) then Crashed(InvalidCast)
          else if rcv.Got? || rcv.error == OperationCanceled then Stopped
          else if rcv.error == WebSocket then Ended
          else Crashed(rcv.error))
      ensures rcv.Got? && IsIncoming(rcv.frame) && !closeRequested ==>
        (step, channel, awaiters, tasks) == old(Route(rcv.frame))
    {
      if rcv.ReceiveFails? {
        if rcv.error == OperationCanceled {
          step := Stopped;
        } else if rcv.error == WebSocket {
          step := Ended;
        } else {
          step := Crashed(rcv.error);
        }
      } else if !IsIncoming(rcv.frame) {
        step := Crashed(InvalidCast);
      } else if closeRequested {
        step := Stopped;
      } else {
        var routed := Route(rcv.frame);
        step, channel, awaiters, tasks := routed.0, routed.1, routed.2, routed.3;
        RouteKeepsTasksValid(rcv.frame);
      }
    }

    /**
     * Where the listener sends an incoming frame: an event goes to the
     * channel (a completed channel refuses it and it is dropped; with no
     * channel yet the write throws `NullReferenceException`). A result or a
     * pong takes the awaiter of its id out of the table and completes its
     * task, which throws `InvalidOperationException` if the task is
     * already complete; with no awaiter the frame is dropped.
     */
    function Route(frame: Inbound): (r: (ListenerStep, Channel, map<uint32, nat>, map<nat, TaskState<Inbound>>))
      requires IsIncoming(frame) && TasksValid()
      reads this`channel, this`awaiters, this`tasks, this`nextTicket
      ensures frame.EventFrame? ==> r.2 == awaiters && r.3 == tasks
      ensures frame.EventFrame? && channel.ChannelOpen? ==>
        r.0 == Continued && r.1 == ChannelOpen(channel.queue + [EventMessage(frame.id, frame.info)])
      ensures frame.EventFrame? && !channel.ChannelOpen? ==>
        r.1 == channel && r.0 == (if channel.NoChannel? then Crashed(NullReference) else Continued)
      ensures !frame.EventFrame? ==> r.1 == channel
      ensures !frame.EventFrame? && frame.id !in awaiters ==> r == (Continued, channel, awaiters, tasks)
      ensures !frame.EventFrame? && frame.id in awaiters ==> (r.2 == awaiters - {frame.id}
        && (tasks[awaiters[frame.id]].Running? ==> r.0 == Continued && r.3 == tasks[awaiters[frame.id] := Completed(frame)])
        && (!tasks[awaiters[frame.id]].Running? ==> r.0 == Crashed(InvalidOperation) && r.3 == tasks))
    {
      if frame.EventFrame? then
        match channel
        case ChannelOpen(q) => (Continued, ChannelOpen(q + [EventMessage(frame.id, frame.info)]), awaiters, tasks)
        case ChannelCompleted(_) => (Continued, channel, awaiters, tasks)
        case NoChannel => (Crashed(NullReference), channel, awaiters, tasks)
      else if frame.id !in awaiters then (Continued, channel, awaiters, tasks)
      else
        var ticket := awaiters[frame.id];
        if tasks[ticket].Running? then (Continued, channel, awaiters - {frame.id}, tasks[ticket := Completed(frame)])
        else (Crashed(InvalidOperation), channel, awaiters - {frame.id}, tasks)
    }

    /** Routing keeps every awaiter on a task and every ticket below the next one. */
    lemma RouteKeepsTasksValid(frame: Inbound)
      requires IsIncoming(frame) && TasksValid()
      ensures var r := Route(frame);
        (forall id :: id in r.2 ==> r.2[id] in r.3) && (forall t :: t in r.3 ==> t < nextTicket)
    {
    }

    /**
     * The end of the socket listener, after its loop: the client is
     * `Disconnected`. Unless the close token was cancelled, it reconnects
     * when automatic reconnection is on and parameters are known, retrying
     * without limit, and otherwise clears the socket resources, which finds
     * the state already `Disconnected` and does nothing.
     */
    method ListenerEnded(attempts: seq<Attempt>) returns (r: Outcome, outcomes: seq<Outcome>)
      requires Valid()
      modifies this`outbox, this`haVersion, this`isReconnecting, this`state, this`stateChanges, this`waiter
      modifies this`lastSentId, this`issued, this`callbacks, this`awaiters, Entries()`subscriptionId, this`socket, this`listener
      modifies this`connectionParameters, this`channel
      ensures Valid()
      ensures old(listener) != Ending ==>
        r.Pass? && outcomes == [] && state == old(state) && listener == old(listener) && stateChanges == old(stateChanges)
      ensures old(listener) == Ending && (closeRequested || !automaticReconnection || old(connectionParameters).None?) ==>
        r.Pass? && outcomes == [] && state == Disconnected && listener == NotListening
        && stateChanges == old(stateChanges) + (if old(state) == Disconnected then [] else [Disconnected])
        && isReconnecting == old(isReconnecting) && connectionParameters == old(connectionParameters)
      ensures old(listener) == Ending && !closeRequested && automaticReconnection && old(connectionParameters).Some? ==>
        (forall i :: 0 <= i < |outcomes| - 1 ==> outcomes[i] == Fail(WebSocket))
        && (state == Connected ==> r.Pass?)
        && (r.Fail? && r.error != OperationCanceled ==> state == Disconnected)
    {
      outcomes := [];
      if listener != Ending {
        return Pass, [];
      }
      listener := NotListening;
      SetConnectionState(Disconnected);
      if closeRequested {
        return Pass, [];
      }
      r, outcomes := Reconnect(attempts);
    }

    /**
     * The reconnection at the end of the listener: without limit on the
     * retries when it is on and parameters are known, otherwise a clearing
     * that finds nothing to do.
     */
    method Reconnect(attempts: seq<Attempt>) returns (r: Outcome, outcomes: seq<Outcome>)
      requires Valid() && state == Disconnected
      modifies this`outbox, this`haVersion, this`isReconnecting, this`state, this`stateChanges, this`waiter
      modifies this`lastSentId, this`issued, this`callbacks, this`awaiters, Entries()`subscriptionId, this`socket, this`listener
      modifies this`connectionParameters, this`channel
      ensures Valid()
      ensures !automaticReconnection || old(connectionParameters).None? ==>
        r.Pass? && outcomes == [] && state == Disconnected && stateChanges == old(stateChanges) && listener == old(listener)
        && isReconnecting == old(isReconnecting) && connectionParameters == old(connectionParameters)
      ensures automaticReconnection && old(connectionParameters).Some? ==>
        (forall i :: 0 <= i < |outcomes| - 1 ==> outcomes[i] == Fail(WebSocket))
        && (state == Connected ==> r.Pass?)
        && (r.Fail? && r.error != OperationCanceled ==> state == Disconnected)
    {
      outcomes := [];
      if automaticReconnection && connectionParameters.Some? {
        isReconnecting := true;
        r, outcomes := InternalConnect(connectionParameters.value, -1, attempts);
      } else {
        r := ClearSocketResources();
      }
    }

    /**
     * The calls `ProcessReceivedEventSubscriptionMessage` makes for an
     * event: the handlers of the entry for the event's type, when that
     * entry's subscription id is the event's id, then those of the entry
     * for every event ("*") under the same condition.
     */
    function RoutedCalls(id: uint32, info: EventInfo): (calls: seq<Call>)
      reads this`subscriptions, Entries()
      ensures forall c :: c in calls ==> c.info == info
      ensures forall c :: c in calls ==> Routes(info.eventType, id, c.handler) || Routes(ANY_EVENT_FILTER, id, c.handler)
      ensures forall h :: Routes(info.eventType, id, h) || Routes(ANY_EVENT_FILTER, id, h) ==> Call(h, info) in calls
      ensures calls == [] <==> (
        (info.eventType !in subscriptions || subscriptions[info.eventType].subscriptionId != id
          || subscriptions[info.eventType].handlers == [])
        && (ANY_EVENT_FILTER !in subscriptions || subscriptions[ANY_EVENT_FILTER].subscriptionId != id
          || subscriptions[ANY_EVENT_FILTER].handlers == []))
    {
      EntryCalls(info.eventType, id, info) + EntryCalls(ANY_EVENT_FILTER, id, info)
    }

    /** The entry for this event type exists, has this subscription id, and holds the handler. */
    predicate Routes(eventType: string, id: uint32, h: Handler)
      reads this`subscriptions, Entries()
    {
      eventType in subscriptions && subscriptions[eventType].subscriptionId == id && h in subscriptions[eventType].handlers
    }

    /** The calls of one registry entry, if its subscription id matches. */
    function EntryCalls(eventType: string, id: uint32, info: EventInfo): (calls: seq<Call>)
      reads this`subscriptions, Entries()
      ensures eventType in subscriptions && subscriptions[eventType].subscriptionId == id ==>
        calls == CallsOf(subscriptions[eventType].handlers, info)
      ensures !(eventType in subscriptions && subscriptions[eventType].subscriptionId == id) ==> calls == []
    {
      if eventType in subscriptions && subscriptions[eventType].subscriptionId == id then
        subscriptions[eventType].Invoke(info)
      else []
    }

    /**
     * One iteration of the event dispatcher (`CreateEventListenerTask`).
     * The close token ends it; so does a completed, drained channel. An
     * empty open channel makes it wait. Otherwise the oldest event is taken
     * and passed to the callback registered under its id, if any: the
     * subscription callback calls the matching handlers; a render-template
     * callback completes that message's response, and throws when it was
     * already complete, which ends the dispatcher.
     */
    method DispatchEvent() returns (r: Outcome, calls: seq<Call>)
      modifies this`channel, this`dispatching, TemplateTargets()`response
      ensures !old(dispatching) ==> r.Pass? && calls == [] && channel == old(channel) && !dispatching
      ensures old(dispatching) && closeRequested ==>
        r == Fail(OperationCanceled) && calls == [] && !dispatching && channel == old(channel)
      ensures old(dispatching) && !closeRequested && old(channel).NoChannel? ==> r == Fail(NullReference) && !dispatching
      ensures old(dispatching) && !closeRequested && !old(channel).NoChannel? && old(channel).queue == [] ==>
        r.Pass? && calls == [] && channel == old(channel) && (dispatching <==> old(channel).ChannelOpen?)
      ensures old(dispatching) && !closeRequested && !old(channel).NoChannel? && old(channel).queue != [] ==>
        (var m := old(channel).queue[0];
         channel == (if old(channel).ChannelOpen? then ChannelOpen(old(channel).queue[1..]) else ChannelCompleted(old(channel).queue[1..]))
         && (m.id !in callbacks ==> r.Pass? && calls == [] && dispatching)
         && (m.id in callbacks && callbacks[m.id].EventsCallback? ==> r.Pass? && calls == RoutedCalls(m.id, m.info) && dispatching)
         && (m.id in callbacks && callbacks[m.id].TemplateCallback? ==> (calls == []
             && (old(callbacks[m.id].template.response).Running? ==>
                   r.Pass? && dispatching && callbacks[m.id].template.response == Completed(m.info.result))
             && (!old(callbacks[m.id].template.response).Running? ==> r == Fail(InvalidOperation) && !dispatching))))
    {
      calls := [];
      r := Pass;
      if !dispatching {
        return;
      }
      if closeRequested {
        dispatching := false;
        return Fail(OperationCanceled), [];
      }
      if channel.NoChannel? {
        dispatching := false;
        return Fail(NullReference), [];
      }
      if channel.queue == [] {
        if channel.ChannelCompleted? {
          dispatching := false;
        }
        return;
      }
      var m := channel.queue[0];
      channel := if channel.ChannelOpen? then ChannelOpen(channel.queue[1..]) else ChannelCompleted(channel.queue[1..]);
      if m.id in callbacks {
        match callbacks[m.id]
        case EventsCallback => {
          calls := RoutedCalls(m.id, m.info);
        }
        case TemplateCallback(target) => {
          r := target.ProcessEventReceivedMessage(m.info.result);
          if r.Fail? {
            dispatching := false;
          }
        }
      }
    }

    /** A new response task (`TaskCompletionSource`), running, under a ticket no task has. */
    method NewTask() returns (ticket: nat)
      requires Valid()
      modifies this`tasks, this`nextTicket
      ensures Valid()
      ensures ticket !in old(tasks) && tasks == old(tasks)[ticket := Running] && nextTicket == old(nextTicket) + 1
    {
      ticket := nextTicket;
      tasks := tasks[ticket := Running];
      nextTicket := nextTicket + 1;
    }

    /** The clean-up after a cancelled command: its id loses its awaiter and its event callback. */
    method Forget(id: uint32)
      requires TasksValid()
      modifies this`awaiters, this`callbacks
      ensures TasksValid()
      ensures awaiters == old(awaiters) - {id} && callbacks == old(callbacks) - {id}
    {
      awaiters := awaiters - {id};
      callbacks := callbacks - {id};
    }

    /** The id the next message gets is in neither table (the callback table only matters to messages that register). */
    predicate FreeId(registers: bool)
      reads this`lastSentId, this`awaiters, this`callbacks
    {
      Increment(lastSentId) !in awaiters && !(registers && Increment(lastSentId) in callbacks)
    }

    /** The listener holds the awaiter of this id for this task, and the server answers it. */
    predicate Answers(id: uint32, ticket: nat, fate: CommandFate)
      reads this`awaiters
    {
      (fate.Replied? || fate.Ponged?) && id in awaiters && awaiters[id] == ticket
    }

    /**
     * The second half of `SendCommandAsync`, once the frame is written: the
     * answer the listener routes completes the response task, which gives a
     * result as is and a pong as a bare success. A token that fires first
     * cancels the task; the catch then takes the id out of both tables,
     * but only when the id is positive. Without either the caller keeps
     * waiting.
     */
    method Await(id: uint32, ticket: nat, fate: CommandFate) returns (t: TaskState<ResultInfo>)
      requires TasksValid() && ticket in tasks && tasks[ticket].Running?
      modifies this`awaiters, this`callbacks, this`tasks
      ensures TasksValid() && tasks.Keys == old(tasks).Keys
      ensures old(Answers(id, ticket, fate)) ==>
        t == (if fate.Replied? then Completed(ResultInfo(id, fate.success, fate.error)) else Completed(ResultInfo(0, true, None)))
        && awaiters == old(awaiters) - {id} && callbacks == old(callbacks) && tasks[ticket].Completed?
      ensures !old(Answers(id, ticket, fate)) && fate == CancelledWhileWaiting ==>
        t == Faulted(OperationCanceled) && tasks == old(tasks)[ticket := Faulted(OperationCanceled)]
        && awaiters == (if id > 0 then old(awaiters) - {id} else old(awaiters))
        && callbacks == (if id > 0 then old(callbacks) - {id} else old(callbacks))
      ensures !old(Answers(id, ticket, fate)) && fate != CancelledWhileWaiting ==>
        t == Running && tasks[ticket] == Running && callbacks == old(callbacks)
        && (fate == NoReply ==> awaiters == old(awaiters))
    {
      if fate.Replied? || fate.Ponged? {
        var frame := if fate.Replied? then ResultFrame(id, fate.success, fate.error) else PongFrame(id);
        var routed := Route(frame);
        RouteKeepsTasksValid(frame);
        awaiters, tasks := routed.2, routed.3;
      }
      match tasks[ticket]
      case Completed(frame) => {
        t := if AnswerOf(frame).Some? then Completed(AnswerOf(frame).value) else Faulted(InvalidOperation);
      }
      case Faulted(e) => {
        t := Faulted(e);
      }
      case Running => {
        if fate == CancelledWhileWaiting {
          tasks := tasks[ticket := Faulted(OperationCanceled)];
          if id > 0 {
            Forget(id);
          }
          t := Faulted(OperationCanceled);
        } else {
          t := Running;
        }
      }
    }

    /**
     * `SendCommandAsync`: only a connected client sends. A new response
     * task awaits the command's answer. A cancellation at the send or while
     * waiting takes the command's id, if positive, out of both tables; any
     * other failure of the send leaves the awaiter in place.
     */
    method SendCommand(cmd: Command, fate: CommandFate) returns (t: TaskState<ResultInfo>)
      requires Valid()
      modifies this`lastSentId, this`issued, this`outbox, this`callbacks, this`awaiters, this`tasks, this`nextTicket
      modifies cmd.Header()
      ensures Valid()
      ensures state != Connected ==> t == Faulted(InvalidOperation) && unchanged(this) && unchanged(cmd.Header())
      ensures state == Connected && fate == CancelledBeforeSend ==>
        t == Faulted(OperationCanceled) && outbox == old(outbox) && cmd.Header().id == old(cmd.Header().id)
        && awaiters == (if cmd.Header().id > 0 then old(awaiters) - {cmd.Header().id} else old(awaiters))
        && callbacks == (if cmd.Header().id > 0 then old(callbacks) - {cmd.Header().id} else old(callbacks))
      ensures state == Connected && fate != CancelledBeforeSend ==>
        cmd.Header().id == Increment(old(lastSentId)) && lastSentId == cmd.Header().id
      ensures state == Connected && fate != CancelledBeforeSend && Registers(cmd) && cmd.Header().id in old(callbacks) ==>
        t == Faulted(Argument) && outbox == old(outbox) && callbacks == old(callbacks) && awaiters == old(awaiters)
      ensures state == Connected && fate != CancelledBeforeSend && !(Registers(cmd) && cmd.Header().id in old(callbacks)) ==>
        outbox == old(outbox) + [CommandOut(cmd.Header().messageType, cmd.Header().id, cmd.Body())]
      ensures t.Completed? ==> state == Connected && fate != CancelledBeforeSend && cmd.Header().id == lastSentId
      ensures t.Completed? ==> outbox == old(outbox) + [CommandOut(cmd.Header().messageType, cmd.Header().id, cmd.Body())]
      ensures state == Connected && old(FreeId(Registers(cmd))) ==>
        t == ExpectedAnswer(cmd.Header().id, fate)
        && (fate != CancelledBeforeSend ==> AwaitersAfter(cmd.Header().id, fate, old(awaiters), awaiters))
    {
      if state != Connected {
        return Faulted(InvalidOperation);
      }
      t := SendConnected(cmd, fate);
    }

    /** `SendCommandAsync` past the connection check: the write, then the wait for the answer. */
    method SendConnected(cmd: Command, fate: CommandFate) returns (t: TaskState<ResultInfo>)
      requires Valid()
      modifies this`lastSentId, this`issued, this`outbox, this`callbacks, this`awaiters, this`tasks, this`nextTicket
      modifies cmd.Header()
      ensures Valid()
      ensures fate == CancelledBeforeSend ==>
        t == Faulted(OperationCanceled) && outbox == old(outbox) && cmd.Header().id == old(cmd.Header().id)
        && awaiters == (if cmd.Header().id > 0 then old(awaiters) - {cmd.Header().id} else old(awaiters))
        && callbacks == (if cmd.Header().id > 0 then old(callbacks) - {cmd.Header().id} else old(callbacks))
      ensures fate != CancelledBeforeSend ==>
        cmd.Header().id == Increment(old(lastSentId)) && lastSentId == cmd.Header().id
      ensures fate != CancelledBeforeSend && Registers(cmd) && cmd.Header().id in old(callbacks) ==>
        t == Faulted(Argument) && outbox == old(outbox) && callbacks == old(callbacks) && awaiters == old(awaiters)
      ensures fate != CancelledBeforeSend && !(Registers(cmd) && cmd.Header().id in old(callbacks)) ==>
        outbox == old(outbox) + [CommandOut(cmd.Header().messageType, cmd.Header().id, cmd.Body())]
      ensures t.Completed? ==> fate != CancelledBeforeSend && cmd.Header().id == lastSentId
      ensures t.Completed? ==> outbox == old(outbox) + [CommandOut(cmd.Header().messageType, cmd.Header().id, cmd.Body())]
      ensures old(FreeId(Registers(cmd))) ==>
        t == ExpectedAnswer(cmd.Header().id, fate)
        && (fate != CancelledBeforeSend ==> AwaitersAfter(cmd.Header().id, fate, old(awaiters), awaiters))
    {
      var ticket, r := Transmit(cmd, fate);
      if r.Fail? {
        return Faulted(r.error);
      }
      t := Await(cmd.Header().id, ticket, fate);
    }

    /**
     * The first half of `SendCommandAsync`: a new response task, then the
     * send; a cancelled send takes the id, if positive, out of both tables.
     */
    method Transmit(cmd: Command, fate: CommandFate) returns (ticket: nat, r: Outcome)
      requires Valid()
      modifies this`lastSentId, this`issued, this`outbox, this`callbacks, this`awaiters, this`tasks, this`nextTicket
      modifies cmd.Header()
      ensures Valid() && ticket in tasks && tasks[ticket].Running?
      ensures fate == CancelledBeforeSend ==>
        r == Fail(OperationCanceled) && outbox == old(outbox) && cmd.Header().id == old(cmd.Header().id)
        && awaiters == (if cmd.Header().id > 0 then old(awaiters) - {cmd.Header().id} else old(awaiters))
        && callbacks == (if cmd.Header().id > 0 then old(callbacks) - {cmd.Header().id} else old(callbacks))
      ensures fate != CancelledBeforeSend ==>
        cmd.Header().id == Increment(old(lastSentId)) && lastSentId == cmd.Header().id
      ensures fate != CancelledBeforeSend && Registers(cmd) && cmd.Header().id in old(callbacks) ==>
        r == Fail(Argument) && outbox == old(outbox) && callbacks == old(callbacks) && awaiters == old(awaiters)
      ensures fate != CancelledBeforeSend && !(Registers(cmd) && cmd.Header().id in old(callbacks)) ==>
        outbox == old(outbox) + [CommandOut(cmd.Header().messageType, cmd.Header().id, cmd.Body())]
        && r == (if fate.SendFails? then Fail(fate.failure) else Pass)
      ensures fate != CancelledBeforeSend && cmd.Header().id !in old(awaiters) && !(Registers(cmd) && cmd.Header().id in old(callbacks)) ==>
        (r.Pass? ==> awaiters == old(awaiters)[cmd.Header().id := ticket])
        && (r.Fail? && r.error == OperationCanceled && cmd.Header().id > 0 ==> awaiters == old(awaiters))
        && (r.Fail? && r.error != OperationCanceled ==> cmd.Header().id in awaiters)
    {
      ticket := NewTask();
      r := SendWithTicket(cmd, ticket, fate);
    }

    /** `Transmit` once the response task exists: the send, and the clean-up after a cancelled one. */
    method SendWithTicket(cmd: Command, ticket: nat, fate: CommandFate) returns (r: Outcome)
      requires Valid() && ticket in tasks
      modifies this`lastSentId, this`issued, this`outbox, this`callbacks, this`awaiters
      modifies cmd.Header()
      ensures Valid()
      ensures fate == CancelledBeforeSend ==>
        r == Fail(OperationCanceled) && outbox == old(outbox) && cmd.Header().id == old(cmd.Header().id)
        && awaiters == (if cmd.Header().id > 0 then old(awaiters) - {cmd.Header().id} else old(awaiters))
        && callbacks == (if cmd.Header().id > 0 then old(callbacks) - {cmd.Header().id} else old(callbacks))
      ensures fate != CancelledBeforeSend ==>
        cmd.Header().id == Increment(old(lastSentId)) && lastSentId == cmd.Header().id
      ensures fate != CancelledBeforeSend && Registers(cmd) && cmd.Header().id in old(callbacks) ==>
        r == Fail(Argument) && outbox == old(outbox) && callbacks == old(callbacks) && awaiters == old(awaiters)
      ensures fate != CancelledBeforeSend && !(Registers(cmd) && cmd.Header().id in old(callbacks)) ==>
        outbox == old(outbox) + [CommandOut(cmd.Header().messageType, cmd.Header().id, cmd.Body())]
        && r == (if fate.SendFails? then Fail(fate.failure) else Pass)
      ensures fate != CancelledBeforeSend && cmd.Header().id !in old(awaiters) && !(Registers(cmd) && cmd.Header().id in old(callbacks)) ==>
        (r.Pass? ==> awaiters == old(awaiters)[cmd.Header().id := ticket])
        && (r.Fail? && r.error == OperationCanceled && cmd.Header().id > 0 ==> awaiters == old(awaiters))
        && (r.Fail? && r.error != OperationCanceled ==> cmd.Header().id in awaiters)
    {
      r := SendMessage(cmd, Some(ticket), fate == CancelledBeforeSend, if fate.SendFails? then Some(fate.failure) else None);
      var id := cmd.Header().id;
      if r.Fail? && r.error == OperationCanceled && id > 0 {
        Forget(id);
      }
    }

    /**
     * `SendCommandWithResultAsync`: a disposed client throws
     * `ObjectDisposedException`; otherwise the command is sent and the error
     * code of its result checked.
     */
    method SendCommandWithResult(cmd: Command, fate: CommandFate) returns (t: TaskState<ResultInfo>)
      requires Valid()
      modifies this`lastSentId, this`issued, this`outbox, this`callbacks, this`awaiters, this`tasks, this`nextTicket
      modifies cmd.Header()
      ensures Valid()
      ensures disposed ==> t == Faulted(ObjectDisposed) && unchanged(this) && unchanged(cmd.Header())
      ensures !disposed && state != Connected ==> t == Faulted(InvalidOperation)
      ensures !disposed && state == Connected && fate != CancelledBeforeSend ==> cmd.Header().id == Increment(old(lastSentId))
      ensures t.Completed? ==>
        state == Connected && fate != CancelledBeforeSend && cmd.Header().id == lastSentId && CheckResultMessageError(t.result.error).Pass?
      ensures t.Completed? ==> outbox == old(outbox) + [CommandOut(cmd.Header().messageType, cmd.Header().id, cmd.Body())]
      ensures !disposed && state == Connected && old(FreeId(Registers(cmd))) ==>
        t == Checked(ExpectedAnswer(cmd.Header().id, fate))
        && (fate != CancelledBeforeSend ==> AwaitersAfter(cmd.Header().id, fate, old(awaiters), awaiters))
    {
      if disposed {
        return Faulted(ObjectDisposed);
      }
      var answer := SendCommand(cmd, fate);
      t := Checked(answer);
    }

    /** `SendCommandWithSuccessAsync`: whether the checked result reports success. */
    method SendCommandWithSuccess(cmd: Command, fate: CommandFate) returns (t: TaskState<bool>)
      requires Valid()
      modifies this`lastSentId, this`issued, this`outbox, this`callbacks, this`awaiters, this`tasks, this`nextTicket
      modifies cmd.Header()
      ensures Valid()
      ensures disposed ==> t == Faulted(ObjectDisposed) && unchanged(this) && unchanged(cmd.Header())
      ensures !disposed && state != Connected ==> t == Faulted(InvalidOperation)
      ensures !disposed && state == Connected && fate != CancelledBeforeSend ==> cmd.Header().id == Increment(old(lastSentId))
      ensures t.Completed? ==> state == Connected && fate != CancelledBeforeSend && cmd.Header().id == lastSentId
      ensures t.Completed? ==> outbox == old(outbox) + [CommandOut(cmd.Header().messageType, cmd.Header().id, cmd.Body())]
      ensures !disposed && state == Connected && old(FreeId(Registers(cmd))) ==>
        t == SuccessOf(Checked(ExpectedAnswer(cmd.Header().id, fate)))
    {
      var result := SendCommandWithResult(cmd, fate);
      t := SuccessOf(result);
    }

    /**
     * `AddEventHandlerSubscriptionAsync`: a blank event type throws
     * `ArgumentException`, a disposed client `ObjectDisposedException`. An
     * event type not subscribed to yet is first subscribed to on the
     * server; unless that is confirmed its answer is returned and the
     * registry stays as it was, and once it is, a new entry holds the id of
     * the subscribe message. The handler is then added to the entry.
     */
    method AddEventHandlerSubscription(h: Handler, eventType: Option<string>, fate: CommandFate) returns (t: TaskState<bool>)
      requires Valid()
      modifies this`lastSentId, this`issued, this`outbox, this`callbacks, this`awaiters, this`tasks, this`nextTicket
      modifies this`subscriptions, Entries()`handlers, Entries()`subscriptionCount
      ensures Valid()
      ensures IsNullOrWhiteSpace(eventType) ==> t == Faulted(Argument)
      ensures !IsNullOrWhiteSpace(eventType) && disposed ==> t == Faulted(ObjectDisposed)
      ensures t != Completed(true) ==> subscriptions == old(subscriptions)
      ensures old(subscriptions).Keys <= subscriptions.Keys
      ensures forall k :: k in old(subscriptions) && (eventType.None? || k != eventType.value) ==>
        subscriptions[k] == old(subscriptions[k]) && subscriptions[k].handlers == old(subscriptions[k].handlers)
        && subscriptions[k].subscriptionCount == old(subscriptions[k].subscriptionCount)
      ensures t == Completed(true) ==>
        eventType.Some? && eventType.value in subscriptions && subscriptions.Keys == old(subscriptions).Keys + {eventType.value}
      ensures !IsNullOrWhiteSpace(eventType) && !disposed && eventType.value in old(subscriptions) ==>
        t == Completed(true) && subscriptions == old(subscriptions)
        && subscriptions[eventType.value].handlers == old(subscriptions[eventType.value].handlers) + [h]
        && subscriptions[eventType.value].subscriptionCount == Increment(old(subscriptions[eventType.value].subscriptionCount))
      ensures !IsNullOrWhiteSpace(eventType) && !disposed && eventType.value !in old(subscriptions) && t == Completed(true) ==>
        subscriptions[eventType.value].handlers == [h] && subscriptions[eventType.value].subscriptionCount == 1
        && subscriptions[eventType.value].subscriptionId == lastSentId
        && outbox == old(outbox) + [CommandOut(SUBSCRIBE_EVENTS_TYPE, lastSentId, EventTypePayload(eventType))]
      ensures (!IsNullOrWhiteSpace(eventType) && !disposed && eventType.value !in old(subscriptions)
        && state == Connected && old(FreeId(true))) ==>
        t == SuccessOf(Checked(ExpectedAnswer(Increment(old(lastSentId)), fate)))
    {
      if IsNullOrWhiteSpace(eventType) {
        return Faulted(Argument);
      }
      if disposed {
        return Faulted(ObjectDisposed);
      }
      var key := eventType.value;
      if key !in subscriptions {
        t := Subscribe(key, fate);
        if t != Completed(true) {
          return;
        }
      }
      subscriptions[key].AddSubscription(h);
      t := Completed(true);
    }

    /**
     * The subscribe half of `AddEventHandlerSubscriptionAsync`: the server
     * is asked for the events of the type, and a confirmed answer enters a
     * new, empty entry under the type with the id the message was sent
     * with.
     */
    method Subscribe(key: string, fate: CommandFate) returns (t: TaskState<bool>)
      requires Valid() && !disposed && key !in subscriptions
      modifies this`lastSentId, this`issued, this`outbox, this`callbacks, this`awaiters, this`tasks, this`nextTicket
      modifies this`subscriptions
      ensures Valid()
      ensures t != Completed(true) ==> subscriptions == old(subscriptions)
      ensures t == Completed(true) ==> (key in subscriptions && fresh(subscriptions[key])
        && subscriptions == old(subscriptions)[key := subscriptions[key]]
        && subscriptions[key].handlers == [] && subscriptions[key].subscriptionCount == 0
        && subscriptions[key].subscriptionId == lastSentId
        && outbox == old(outbox) + [CommandOut(SUBSCRIBE_EVENTS_TYPE, lastSentId, EventTypePayload(Some(key)))])
      ensures state == Connected && old(FreeId(true)) ==> t == SuccessOf(Checked(ExpectedAnswer(Increment(old(lastSentId)), fate)))
    {
      var m := new SubscribeEventsMessage(Some(key));
      t := SendCommandWithSuccess(SubscribeCommand(m), fate);
      if state == Connected {
        assert ExpectedAnswer(m.message.id, fate) == ExpectedAnswer(Increment(old(lastSentId)), fate);
      }
      if t != Completed(true) {
        return;
      }
      var entry := new SocketEventSubscription(m.message.id);
      subscriptions := subscriptions[key := entry];
    }

    /**
     * `RemoveEventHandlerSubscriptionAsync`: a blank event type throws
     * `ArgumentException`, a disposed client `ObjectDisposedException`, and
     * an event type with no entry gives `false`. Otherwise the handler is
     * taken out of the entry; once the entry's count reaches 0 the server is
     * asked to end the subscription, and only a confirmed answer removes the
     * entry. An unconfirmed answer is returned as it is, and the entry stays
     * without the handler.
     */
    method RemoveEventHandlerSubscription(h: Handler, eventType: Option<string>, fate: CommandFate) returns (t: TaskState<bool>)
      requires Valid()
      modifies this`lastSentId, this`issued, this`outbox, this`callbacks, this`awaiters, this`tasks, this`nextTicket
      modifies this`subscriptions, Entries()`handlers, Entries()`subscriptionCount
      ensures Valid()
      ensures IsNullOrWhiteSpace(eventType) ==> t == Faulted(Argument) && subscriptions == old(subscriptions)
      ensures !IsNullOrWhiteSpace(eventType) && disposed ==> t == Faulted(ObjectDisposed) && subscriptions == old(subscriptions)
      ensures !IsNullOrWhiteSpace(eventType) && !disposed && eventType.value !in old(subscriptions) ==>
        t == Completed(false) && subscriptions == old(subscriptions)
      ensures subscriptions.Keys <= old(subscriptions).Keys
      ensures forall k :: k in subscriptions ==> subscriptions[k] == old(subscriptions[k])
      ensures forall k :: k in old(subscriptions) && (eventType.None? || k != eventType.value) ==>
        k in subscriptions && subscriptions[k].handlers == old(subscriptions[k].handlers)
        && subscriptions[k].subscriptionCount == old(subscriptions[k].subscriptionCount)
      ensures !IsNullOrWhiteSpace(eventType) && !disposed && eventType.value in old(subscriptions) ==>
        var entry := old(subscriptions)[eventType.value];
        entry.handlers == RemoveLast(old(entry.handlers), h) && entry.subscriptionCount == Decrement(old(entry.subscriptionCount))
        && (entry.subscriptionCount != 0 ==> t == Completed(true) && subscriptions == old(subscriptions))
        && (entry.subscriptionCount == 0 ==>
              subscriptions == (if t == Completed(true) then old(subscriptions) - {eventType.value} else old(subscriptions)))
        && (entry.subscriptionCount == 0 && state == Connected && old(FreeId(false)) ==>
              t == SuccessOf(Checked(ExpectedAnswer(Increment(old(lastSentId)), fate))))
        && (entry.subscriptionCount == 0 && t == Completed(true) ==>
              outbox == old(outbox) + [CommandOut(UNSUBSCRIBE_EVENTS_TYPE, lastSentId, SubscriptionIdPayload(entry.subscriptionId))])
    {
      if IsNullOrWhiteSpace(eventType) {
        return Faulted(Argument);
      }
      if disposed {
        return Faulted(ObjectDisposed);
      }
      var key := eventType.value;
      if key !in subscriptions {
        return Completed(false);
      }
      var entry := subscriptions[key];
      entry.RemoveSubscription(h);
      if entry.subscriptionCount == 0 {
        t := Unsubscribe(key, fate);
      } else {
        t := Completed(true);
      }
    }

    /**
     * The unsubscribe half of `RemoveEventHandlerSubscriptionAsync`: the
     * server is asked to end the entry's subscription, and a confirmed
     * answer removes the entry.
     */
    method Unsubscribe(key: string, fate: CommandFate) returns (t: TaskState<bool>)
      requires Valid() && !disposed && key in subscriptions
      modifies this`lastSentId, this`issued, this`outbox, this`callbacks, this`awaiters, this`tasks, this`nextTicket
      modifies this`subscriptions
      ensures Valid()
      ensures subscriptions == if t == Completed(true) then old(subscriptions) - {key} else old(subscriptions)
      ensures t == Completed(true) ==>
        outbox == old(outbox) + [CommandOut(UNSUBSCRIBE_EVENTS_TYPE, lastSentId, SubscriptionIdPayload(old(subscriptions[key].subscriptionId)))]
      ensures state == Connected && old(FreeId(false)) ==> t == SuccessOf(Checked(ExpectedAnswer(Increment(old(lastSentId)), fate)))
    {
      var m := new UnsubscribeEventsMessage(subscriptions[key].subscriptionId);
      t := SendCommandWithSuccess(UnsubscribeCommand(m), fate);
      if state == Connected {
        assert ExpectedAnswer(m.message.id, fate) == ExpectedAnswer(Increment(old(lastSentId)), fate);
      }
      if t != Completed(true) {
        return;
      }
      subscriptions := subscriptions - {key};
    }

    /** Writes an identifiable frame carrying the id just handed out. */
    method Write(frame: Outbound)
      requires frame.CommandOut? && frame.id == lastSentId && issued > 0
      requires issued < UINT_LIMIT ==> lastSentId == issued && AscendingUpTo(SentIds(outbox), issued - 1)
      modifies this`outbox
      ensures outbox == old(outbox) + [frame]
      ensures IdsValid()
    {
      SentIdsAppend(outbox, frame);
      if issued < UINT_LIMIT {
        AscendingGrows(SentIds(outbox), issued - 1);
      }
      outbox := outbox + [frame];
    }
  }

  /** The server's answer to the access token accepts it. */
  predicate Accepted(received: seq<Receive>) {
    Next(received, 1).Got? && Next(received, 1).frame.AuthOk?
  }

  /**
   * How the authentication exchange ends when there is nothing to restore:
   * the first frame must ask for authentication, the second must not reject
   * it, and an accepting frame must carry a version that parses.
   */
  function HandshakeOutcome(received: seq<Receive>): (r: Outcome)
    ensures r.Pass? ==> (Next(received, 0) == Got(AuthRequired) && Next(received, 1).Got?
      && !Next(received, 1).frame.AuthInvalid?)
    ensures Next(received, 0).Got? && Next(received, 0).frame != AuthRequired ==> r == Fail(Authentication)
    ensures Next(received, 0) == Got(AuthRequired) && Next(received, 1).Got? && Next(received, 1).frame.AuthInvalid? ==>
      r == Fail(Authentication)
    ensures r.Pass? && Accepted(received) ==> ParseVersion(Next(received, 1).frame.haVersion).Ok?
    ensures |received| < 2 ==> r.Fail?
  {
    match Next(received, 0)
    case ReceiveFails(e) => Fail(e)
    case Got(f) =>
      if f != AuthRequired then Fail(Authentication)
      else
        match Next(received, 1)
        case ReceiveFails(e) => Fail(e)
        case Got(g) =>
          if g.AuthInvalid? then Fail(Authentication)
          else if g.AuthOk? && ParseVersion(g.haVersion).Err? then Fail(ParseVersion(g.haVersion).error)
          else Pass
  }

  /** Every callback is the event-subscription one: no render template is waiting. */
  predicate OnlyEventCallbacks(callbacks: map<uint32, Callback>) {
    forall id :: id in callbacks ==> callbacks[id] == EventsCallback
  }

  /**
   * The answer `SendCommandAsync` gives a connected caller whose command's
   * id was new to both tables, by what happens to the command: the result
   * as is, a pong as a bare success, the exception of a failed write, a
   * cancellation, or a wait that never ends.
   */
  function ExpectedAnswer(id: uint32, fate: CommandFate): TaskState<ResultInfo> {
    match fate
    case Replied(success, error) => Completed(ResultInfo(id, success, error))
    case Ponged => Completed(ResultInfo(0, true, None))
    case SendFails(e) => Faulted(e)
    case CancelledBeforeSend => Faulted(OperationCanceled)
    case CancelledWhileWaiting => Faulted(OperationCanceled)
    case NoReply => Running
  }

  /**
   * The awaiter table after such a command: an answer leaves no awaiter
   * behind, nor does a cancellation for a positive id; a write that failed
   * otherwise leaves its awaiter in place, and so does a wait with no end.
   */
  ghost predicate AwaitersAfter(id: uint32, fate: CommandFate, before: map<uint32, nat>, after: map<uint32, nat>) {
    ((fate.Replied? || fate.Ponged?) ==> after == before)
    && (fate.SendFails? && fate.failure == OperationCanceled && id > 0 ==> after == before)
    && (fate.SendFails? && fate.failure != OperationCanceled ==> id in after)
    && (fate == CancelledWhileWaiting && id > 0 ==> after == before)
    && (fate == NoReply ==> after.Keys == before.Keys + {id})
  }

  /** `SendCommandWithResultAsync` after the answer: a result's error code is checked. */
  function Checked(t: TaskState<ResultInfo>): (c: TaskState<ResultInfo>)
    ensures !t.Completed? ==> c == t
    ensures t.Completed? && CheckResultMessageError(t.result.error).Pass? ==> c == t
    ensures t.Completed? && CheckResultMessageError(t.result.error).Fail? ==> c == Faulted(CheckResultMessageError(t.result.error).error)
    ensures c.Completed? ==> CheckResultMessageError(c.result.error).Pass?
  {
    if t.Completed? && CheckResultMessageError(t.result.error).Fail? then Faulted(CheckResultMessageError(t.result.error).error)
    else t
  }

  /** `SendCommandWithSuccessAsync`: the success flag of the result. */
  function SuccessOf(t: TaskState<ResultInfo>): (b: TaskState<bool>)
    ensures b.Completed? <==> t.Completed?
    ensures t.Completed? ==> b.result == t.result.success
    ensures !t.Completed? ==> (b.Running? <==> t.Running?) && (b.Faulted? ==> b.error == t.error)
  {
    match t
    case Completed(info) => Completed(info.success)
    case Running => Running
    case Faulted(e) => Faulted(e)
  }

  /**
   * A command is confirmed exactly when the server answers it with a
   * pong, or with a successful result whose error, if any, has a code the
   * client only logs.
   */
  lemma ConfirmedIff(id: uint32, fate: CommandFate)
    ensures SuccessOf(Checked(ExpectedAnswer(id, fate))) == Completed(true) <==>
      fate.Ponged? || (fate.Replied? && fate.success && (fate.error.None? || fate.error.value.code.OtherCode?))
  {
  }

  /** A subscribe or render-template message registers an event callback under its id. */
  predicate Registers(cmd: Command) {
    cmd.SubscribeCommand? || cmd.TemplateCommand?
  }

  /** The callback a subscribe or render-template message registers. */
  function CallbackFor(cmd: Command): Callback
    requires Registers(cmd)
  {
    if cmd.SubscribeCommand? then EventsCallback else TemplateCallback(cmd.render)
  }
}
