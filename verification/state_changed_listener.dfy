/**
 * `StateChangedEventListener`: lets many consumers follow state changes of
 * single entities or of whole domains over one "state_changed"
 * subscription of the client.
 *
 * Handlers are kept per entity id and per domain. Whenever a register gains
 * its first key or loses its last one, a refresh is signalled. A refresh
 * subscribes the listener to state changes when some handler is registered
 * and the subscription is not active, and unsubscribes it in the opposite
 * case. The refresh loop runs in the background; here each of its
 * iterations is a call, and what the client answers is an input.
 */
module StateChangedListeners {
  import opened Outcomes
  import opened EntityIds
  import opened Delegates

  /** The two registers: handlers by entity id and handlers by domain. */
  datatype RegisterKind = ByEntityId | ByDomain

  /** The cancellation source of the refresh loop: none before `Initialize`, then live, then cancelled. */
  datatype CancellationState = NoSource | Live | Cancelled

  /** How the client answered a subscription toggle. */
  datatype ToggleAnswer = Succeeded | Declined | Threw(error: Exception)

  /** What one iteration of the refresh loop did. */
  datatype RefreshStep =
    /** No signal was pending: the loop waits. */
    | Waiting
    /** The loop's wait was cancelled: the loop ends. */
    | Stopped
    /** The subscription already matched the registers. */
    | Idle
    /** The subscription was toggled (`true`: now active). */
    | Toggled(active: bool)
    /** The client declined: the signal is released again to retry. */
    | Retrying
    /** The client threw: the loop ends with that exception. */
    | Crashed(error: Exception)

  class StateChangedEventListener {
    var byEntityId: map<string, seq<Handler>>
    var byDomain: map<string, seq<Handler>>
    /** `_isStateChangedSubscriptionActive`. */
    var active: bool
    /** The count of `_refreshSubscriptionsSemaphore`. */
    var signals: nat
    /** `_clientWebSocket` is set. */
    var initialized: bool
    var cancellation: CancellationState
    /** The refresh loop is running. */
    var refreshing: bool

    /** Every key holds at least one handler. */
    predicate Valid()
      reads this
    {
      (forall k :: k in byEntityId ==> byEntityId[k] != [])
      && (forall k :: k in byDomain ==> byDomain[k] != [])
    }

    function Register(kind: RegisterKind): map<string, seq<Handler>>
      reads this
    {
      if kind == ByEntityId then byEntityId else byDomain
    }

    /** Some handler is registered, so the state-changed subscription is needed. */
    predicate NeedsSubscription()
      reads this
    {
      |byEntityId| > 0 || |byDomain| > 0
    }

    constructor()
      ensures Valid() && byEntityId == map[] && byDomain == map[]
      ensures !active && signals == 0 && !initialized && cancellation == NoSource && !refreshing
    {
      byEntityId := map[];
      byDomain := map[];
      active := false;
      signals := 0;
      initialized := false;
      cancellation := NoSource;
      refreshing := false;
    }

    /**
     * `Initialize`: a second call throws `InvalidOperationException` and a
     * null client `ArgumentNullException`; otherwise the listener keeps the
     * client and starts its refresh loop.
     */
    method Initialize(clientGiven: bool) returns (r: Outcome)
      modifies this
      ensures old(initialized) ==> r == Fail(InvalidOperation)
      ensures !old(initialized) && !clientGiven ==> r == Fail(ArgumentNull)
      ensures r.Fail? ==> initialized == old(initialized) && cancellation == old(cancellation) && refreshing == old(refreshing)
      ensures r.Pass? <==> !old(initialized) && clientGiven
      ensures r.Pass? ==> initialized && cancellation == Live && refreshing
      ensures byEntityId == old(byEntityId) && byDomain == old(byDomain)
      ensures active == old(active) && signals == old(signals)
    {
      if initialized {
        return Fail(InvalidOperation);
      }
      if !clientGiven {
        return Fail(ArgumentNull);
      }
      initialized := true;
      cancellation := Live;
      refreshing := true;
      r := Pass;
    }

    /**
     * `Dispose`: cancels the refresh loop once; later calls do nothing.
     * Before `Initialize` there is no cancellation source to ask, and the
     * call throws `NullReferenceException`.
     */
    method Dispose() returns (r: Outcome)
      modifies this
      ensures old(cancellation) == NoSource ==> r == Fail(NullReference) && cancellation == NoSource
      ensures old(cancellation) != NoSource ==> r.Pass? && cancellation == Cancelled
      ensures byEntityId == old(byEntityId) && byDomain == old(byDomain) && active == old(active)
      ensures signals == old(signals) && initialized == old(initialized) && refreshing == old(refreshing)
    {
      if cancellation == NoSource {
        return Fail(NullReference);
      }
      cancellation := Cancelled;
      r := Pass;
    }

    /**
     * `InternalSubscribeStateChanged`, behind `SubscribeEntityStateChanged`
     * and `SubscribeDomainStateChanged`: the handler is appended under its
     * key. A new key that makes it the register's only key releases a
     * refresh signal. A null key throws `ArgumentNullException`.
     */
    method Subscribe(kind: RegisterKind, key: Option<string>, h: Handler) returns (r: Outcome)
      requires Valid()
      modifies this
      ensures Valid()
      ensures r.Fail? <==> key.None?
      ensures r.Fail? ==> r.error == ArgumentNull && Register(kind) == old(Register(kind)) && signals == old(signals)
      ensures r.Pass? ==> Register(kind) == old(Register(kind))[key.value :=
        (if key.value in old(Register(kind)) then old(Register(kind))[key.value] else []) + [h]]
      ensures r.Pass? ==> signals == if key.value !in old(Register(kind)) && |old(Register(kind))| == 0 then old(signals) + 1 else old(signals)
      ensures kind == ByEntityId ==> byDomain == old(byDomain)
      ensures kind == ByDomain ==> byEntityId == old(byEntityId)
      ensures active == old(active) && initialized == old(initialized)
      ensures cancellation == old(cancellation) && refreshing == old(refreshing)
    {
      if key.None? {
        return Fail(ArgumentNull);
      }
      var register := Register(kind);
      if key.value !in register {
        register := register[key.value := []];
        if |register| == 1 {
          signals := signals + 1;
        }
      }
      register := register[key.value := register[key.value] + [h]];
      if kind == ByEntityId {
        byEntityId := register;
      } else {
        byDomain := register;
      }
      r := Pass;
    }

    /**
     * `InternalUnsubscribeStateChanged`, behind `UnsubscribeEntityStateChanged`
     * and `UnsubscribeDomainStateChanged`. An unknown key changes nothing.
     * When the handler was the key's only one, the key goes, and a refresh
     * signal is released if the register is left empty. Otherwise the
     * shortened list is never stored: the key keeps every handler it had.
     */
    method Unsubscribe(kind: RegisterKind, key: Option<string>, h: Handler) returns (r: Outcome)
      requires Valid()
      modifies this
      ensures Valid()
      ensures r.Fail? <==> key.None?
      ensures r.Fail? ==> r.error == ArgumentNull
      ensures r.Pass? && key.value in old(Register(kind)) && old(Register(kind))[key.value] == [h] ==>
        Register(kind) == old(Register(kind)) - {key.value}
        && signals == if |old(Register(kind))| == 1 then old(signals) + 1 else old(signals)
      ensures !(r.Pass? && key.value in old(Register(kind)) && old(Register(kind))[key.value] == [h]) ==>
        Register(kind) == old(Register(kind)) && signals == old(signals)
      ensures kind == ByEntityId ==> byDomain == old(byDomain)
      ensures kind == ByDomain ==> byEntityId == old(byEntityId)
      ensures active == old(active) && initialized == old(initialized)
      ensures cancellation == old(cancellation) && refreshing == old(refreshing)
    {
      if key.None? {
        return Fail(ArgumentNull);
      }
      var register := Register(kind);
      if key.value in register {
        var subscriptions := RemoveLast(register[key.value], h);
        RemoveToEmpty(register[key.value], h);
        if subscriptions == [] {
          register := register - {key.value};
          if |register| == 0 {
            signals := signals + 1;
          }
          if kind == ByEntityId {
            byEntityId := register;
          } else {
            byDomain := register;
          }
        }
      }
      r := Pass;
    }

    /**
     * One iteration of the refresh loop (`UpdateStateChangeSockedSubscription`
     * after the semaphore wait). Without a signal the loop waits; once
     * cancelled it stops. Otherwise it takes the signal and acts only when
     * the subscription's state differs from whether any handler is
     * registered: success flips the state, a declined toggle releases the
     * signal again, an exception ends the loop.
     */
    method Refresh(answer: ToggleAnswer) returns (step: RefreshStep)
      requires Valid()
      modifies this
      ensures Valid()
      ensures byEntityId == old(byEntityId) && byDomain == old(byDomain)
      ensures initialized == old(initialized) && cancellation == old(cancellation)
      ensures !old(refreshing) ==> step == Waiting && active == old(active) && signals == old(signals) && !refreshing
      ensures old(refreshing) && old(cancellation) == Cancelled ==> step == Stopped && !refreshing && active == old(active)
      ensures old(refreshing) && old(cancellation) != Cancelled && old(signals) == 0 ==>
        step == Waiting && signals == 0 && active == old(active) && refreshing
      ensures old(refreshing) && old(cancellation) != Cancelled && old(signals) > 0 ==>
        (old(active) == NeedsSubscription() ==> step == Idle && signals == old(signals) - 1 && active == old(active) && refreshing)
        && (old(active) != NeedsSubscription() && answer == Succeeded ==>
              step == Toggled(NeedsSubscription()) && active == NeedsSubscription() && signals == old(signals) - 1 && refreshing)
        && (old(active) != NeedsSubscription() && answer == Declined ==>
              step == Retrying && active == old(active) && signals == old(signals) && refreshing)
        && (old(active) != NeedsSubscription() && answer.Threw? ==>
              step == Crashed(answer.error) && active == old(active) && signals == old(signals) - 1 && !refreshing)
    {
      if !refreshing {
        return Waiting;
      }
      if cancellation == Cancelled {
        refreshing := false;
        return Stopped;
      }
      if signals == 0 {
        return Waiting;
      }
      signals := signals - 1;
      var needsSubscription := NeedsSubscription();
      if active == needsSubscription {
        return Idle;
      }
      match answer
      case Succeeded =>
        active := !active;
        step := Toggled(active);
      case Declined =>
        signals := signals + 1;
        step := Retrying;
      case Threw(e) =>
        refreshing := false;
        step := Crashed(e);
    }

    /**
     * `OnStateChangeEvent`: the handlers for the event's entity id are called
     * first, then those for its domain. An event without an entity id
     * throws `ArgumentNullException`.
     */
    function OnStateChangeEvent(entityId: Option<string>): (r: Result<seq<Handler>>)
      reads this
      ensures r.Err? <==> entityId.None?
      ensures r.Err? ==> r.error == ArgumentNull
      ensures r.Ok? ==> r.value == HandlersFor(byEntityId, entityId.value) + HandlersFor(byDomain, EntityDomain(entityId.value))
      ensures r.Ok? && entityId.value !in byEntityId && EntityDomain(entityId.value) !in byDomain ==> r.value == []
    {
      if entityId.None? then Err(ArgumentNull)
      else Ok(HandlersFor(byEntityId, entityId.value) + HandlersFor(byDomain, EntityDomain(entityId.value)))
    }
  }

  /** The handlers a register holds under a key; none for an unknown key. */
  function HandlersFor(register: map<string, seq<Handler>>, key: string): (hs: seq<Handler>)
    ensures key in register ==> hs == register[key]
    ensures key !in register ==> hs == []
  {
    if key in register then register[key] else []
  }
}
