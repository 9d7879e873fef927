/**
 * `SocketEventSubscription`: the client's record of one event type it is
 * subscribed to: the id of the subscription on the server, the handlers to
 * call for each event, and a count of the handlers added and not removed.
 */
module SocketEventSubscriptions {
  import opened Outcomes
  import opened Delegates

  /** `EventResultInfo`, as far as the client reads it: the event type, and the rendered text of a template event. */
  datatype EventInfo = EventInfo(eventType: string, result: Option<string>)

  /** One handler call: the handler and the event it receives. */
  datatype Call = Call(handler: Handler, info: EventInfo)

  /** The calls a multicast delegate makes: each handler of the list, in order, with the same event. */
  function CallsOf(handlers: seq<Handler>, info: EventInfo): (calls: seq<Call>)
    ensures |calls| == |handlers|
    ensures forall i :: 0 <= i < |handlers| ==> calls[i].handler == handlers[i] && calls[i].info == info
  {
    seq(|handlers|, i requires 0 <= i < |handlers| => Call(handlers[i], info))
  }

  /** `uint` increment and decrement: both wrap around. */
  function Increment(x: uint32): (r: uint32)
    ensures x < UINT_LIMIT - 1 ==> r == x + 1
    ensures x == UINT_LIMIT - 1 ==> r == 0
  {
    (x + 1) % UINT_LIMIT
  }

  function Decrement(x: uint32): (r: uint32)
    ensures x > 0 ==> r == x - 1
    ensures x == 0 ==> r == UINT_LIMIT - 1
  {
    (x - 1) % UINT_LIMIT
  }

  /** Counting down after counting up gives the count back, wrap-around included. */
  lemma DecrementUndoesIncrement(x: uint32)
    ensures Decrement(Increment(x)) == x
  {
  }

  class SocketEventSubscription {
    /** `SubscriptionId`, which the client replaces when it subscribes again. */
    var subscriptionId: uint32
    /** `_internalEventHandler`: the invocation list; empty for null. */
    var handlers: seq<Handler>
    /** `SubscriptionCount`. */
    var subscriptionCount: uint32

    /** The count and the handler list agree. */
    predicate CountMatches()
      reads this
    {
      subscriptionCount == |handlers|
    }

    /** A new subscription: the given id, no handler, a count of 0. */
    constructor(subscriptionId: uint32)
      ensures this.subscriptionId == subscriptionId && handlers == [] && subscriptionCount == 0
      ensures CountMatches()
    {
      this.subscriptionId := subscriptionId;
      handlers := [];
      subscriptionCount := 0;
    }

    /**
     * `AddSubscription`: the handler is appended, even when already there,
     * and the count goes up by one. The count keeps matching the list
     * while it stays below the `uint` limit.
     */
    method AddSubscription(h: Handler)
      modifies this`handlers, this`subscriptionCount
      ensures handlers == old(handlers) + [h] && subscriptionCount == Increment(old(subscriptionCount))
      ensures subscriptionId == old(subscriptionId)
      ensures old(CountMatches()) && |old(handlers)| < UINT_LIMIT - 1 ==> CountMatches()
    {
      handlers := handlers + [h];
      subscriptionCount := Increment(subscriptionCount);
    }

    /**
     * `RemoveSubscription`: the last occurrence of the handler leaves the
     * list, and the count goes down by one whether or not the handler was
     * there. The count keeps matching only when the handler was registered;
     * removing an unknown handler leaves the list as it was and the count one
     * short (wrapping to the `uint` maximum from 0).
     */
    method RemoveSubscription(h: Handler)
      modifies this`handlers, this`subscriptionCount
      ensures handlers == RemoveLast(old(handlers), h) && subscriptionCount == Decrement(old(subscriptionCount))
      ensures subscriptionId == old(subscriptionId)
      ensures old(CountMatches()) && h in old(handlers) ==> CountMatches()
      ensures h !in old(handlers) ==> handlers == old(handlers)
      ensures old(CountMatches()) && h !in old(handlers) ==> !CountMatches()
    {
      handlers := RemoveLast(handlers, h);
      subscriptionCount := Decrement(subscriptionCount);
    }

    /** `Invoke`: every handler is called, in the order added; none when the list is empty. */
    function Invoke(info: EventInfo): (calls: seq<Call>)
      reads this
      ensures |calls| == |handlers| && (handlers == [] ==> calls == [])
      ensures forall i :: 0 <= i < |calls| ==> calls[i] == Call(handlers[i], info)
    {
      CallsOf(handlers, info)
    }

    /** `ClearAllSubscriptions`: no handler and a count of 0; the id stays. */
    method ClearAllSubscriptions()
      modifies this`handlers, this`subscriptionCount
      ensures handlers == [] && subscriptionCount == 0 && CountMatches()
      ensures subscriptionId == old(subscriptionId)
    {
      handlers := [];
      subscriptionCount := 0;
    }

    /** The `SubscriptionId` setter: handlers and count are untouched. */
    method SetSubscriptionId(id: uint32)
      modifies this`subscriptionId
      ensures subscriptionId == id && handlers == old(handlers) && subscriptionCount == old(subscriptionCount)
    {
      subscriptionId := id;
    }
  }
}
