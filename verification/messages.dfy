/**
 * The messages of the Home Assistant WebSocket API whose rules the client
 * relies on.
 *
 * Every message has a type that is checked once, when it is constructed, and
 * never changes. An identifiable message also carries an id, which is 0 until
 * the client assigns one when sending it. The commands the client builds
 * itself are modelled with the fields they put on the wire: event
 * subscription, unsubscription and template rendering. A template rendering
 * also owns a one-shot completion source.
 *
 * A frame on the wire is a JSON object: a list of properties with distinct
 * names, kept in order.
 */
module Messages {
  import opened Outcomes
  import opened Text
  import opened Json

  /** Property names of a JSON object are distinct. */
  predicate UniqueKeys(o: seq<(string, Json)>) {
    forall i, j :: 0 <= i < j < |o| ==> o[i].0 != o[j].0
  }

  /** A JSON object (`JObject`): its properties in order, no name twice. */
  type JObject = o: seq<(string, Json)> | UniqueKeys(o) witness []

  predicate HasKey(o: seq<(string, Json)>, key: string) {
    exists i :: 0 <= i < |o| && o[i].0 == key
  }

  /** `obj[key]`: the value of the property with that name, if there is one. */
  function Lookup(o: JObject, key: string): (r: Option<Json>)
    ensures r.Some? <==> HasKey(o, key)
    ensures r.Some? ==> (key, r.value) in o
    decreases |o|
  {
    if o == [] then None
    else if o[0].0 == key then Some(o[0].1)
    else
      var rest: JObject := o[1..];
      var r := Lookup(rest, key);
      assert HasKey(o, key) <==> o[0].0 == key || HasKey(rest, key) by {
        if HasKey(rest, key) {
          var i :| 0 <= i < |rest| && rest[i].0 == key;
          assert o[i + 1].0 == key;
        }
      }
      r
  }

  /** In an object without repeated names, a name finds its own property. */
  lemma {:induction false} LookupAt(o: JObject, i: nat)
    requires i < |o|
    ensures Lookup(o, o[i].0) == Some(o[i].1)
    decreases |o|
  {
    if i > 0 {
      var rest: JObject := o[1..];
      assert o[0].0 != o[i].0;
      LookupAt(rest, i - 1);
    }
  }

  /** `obj.Remove(key)`: every other property stays, in order. */
  function RemoveKey(o: JObject, key: string): (r: JObject)
    ensures !HasKey(r, key)
    ensures forall p :: p in r <==> p in o && p.0 != key
    decreases |o|
  {
    if o == [] then []
    else
      var rest: JObject := o[1..];
      var tail := RemoveKey(rest, key);
      assert forall p :: p in o <==> p == o[0] || p in rest;
      if o[0].0 == key then tail
      else
        PrependUnique(o, tail);
        [o[0]] + tail
  }

  /** The first property of an object, put back in front of properties taken from the others. */
  lemma PrependUnique(o: JObject, tail: JObject)
    requires o != [] && forall p :: p in tail ==> p in o[1..]
    ensures UniqueKeys([o[0]] + tail)
  {
    var r := [o[0]] + tail;
    assert forall i :: 0 <= i < |tail| ==> tail[i] in o[1..];
    assert forall i, j :: 0 < i < j < |r| ==> r[i].0 != r[j].0;
    forall i | 0 < i < |r|
      ensures r[0].0 != r[i].0
    {
      assert r[i] in o[1..];
      var k :| 0 <= k < |o| - 1 && o[1..][k] == r[i];
      assert o[k + 1] == r[i];
    }
  }


  /**
   * Writes a property only when it has a value, as the serializer does with
   * `NullValueHandling.Ignore`: the new name finds the value, every other
   * name finds what it found before.
   */
  function AddOptional(o: JObject, key: string, v: Option<Json>): (r: JObject)
    requires !HasKey(o, key)
    ensures Lookup(r, key) == v
    ensures forall k :: k != key ==> Lookup(r, k) == Lookup(o, k)
  {
    if v.None? then o
    else
      assert forall i :: 0 <= i < |o| ==> o[i].0 != key;
      var r: JObject := o + [(key, v.value)];
      LookupAt(r, |o|);
      forall k | k != key
        ensures Lookup(r, k) == Lookup(o, k)
      {
        LookupAppend(o, r, key, v.value, k);
      }
      r
  }

  /** Appending a property does not change what the other names find. */
  lemma {:induction false} LookupAppend(o: JObject, r: JObject, key: string, v: Json, k: string)
    requires r == o + [(key, v)] && k != key
    ensures Lookup(r, k) == Lookup(o, k)
    decreases |o|
  {
    if o != [] && o[0].0 != k {
      var rest: JObject := o[1..];
      var tail: JObject := r[1..];
      assert tail == rest + [(key, v)];
      LookupAppend(rest, tail, key, v, k);
    }
  }

  /** A render-template frame: the header of an identifiable message, the template, then the lists that are set. */
  function TemplateFrame(messageType: string, id: uint32, template: string, entitiesIds: Option<seq<string>>, variables: Option<seq<string>>): (o: JObject)
    ensures Lookup(o, "type") == Some(JString(messageType)) && Lookup(o, "id") == Some(JNumber(id))
    ensures Lookup(o, "template") == Some(JString(template))
    ensures Lookup(o, "entities_ids") == if entitiesIds.Some? then Some(Strings(entitiesIds.value)) else None
    ensures Lookup(o, "variables") == if variables.Some? then Some(Strings(variables.value)) else None
  {
    var header: JObject := [("type", JString(messageType)), ("id", JNumber(id)), ("template", JString(template))];
    LookupAt(header, 0);
    LookupAt(header, 1);
    LookupAt(header, 2);
    assert !HasKey(header, "entities_ids") && !HasKey(header, "variables");
    var withEntities := AddOptional(header, "entities_ids", if entitiesIds.Some? then Some(Strings(entitiesIds.value)) else None);
    assert !HasKey(withEntities, "variables") by {
      assert Lookup(withEntities, "variables") == Lookup(header, "variables");
    }
    AddOptional(withEntities, "variables", if variables.Some? then Some(Strings(variables.value)) else None)
  }

  /** `BaseMessage`: a message identified by its type, which has no public setter. */
  datatype BaseMessage = BaseMessage(messageType: string)

  /** The `BaseMessage(type)` constructor: a null, empty or white-space type throws. */
  function NewBaseMessage(messageType: Option<string>): (r: Result<BaseMessage>)
    ensures r.Err? <==> IsNullOrWhiteSpace(messageType)
    ensures r.Err? ==> r.error == Argument
    ensures r.Ok? ==> r.value.messageType == messageType.value
  {
    if IsNullOrWhiteSpace(messageType) then Err(Argument) else Ok(BaseMessage(messageType.value))
  }

  /** `BaseMessage.ToString`: the type. */
  function BaseMessageText(m: BaseMessage): string {
    m.messageType
  }

  /** The text of a constructed message builds the same message again. */
  lemma BaseMessageTextRebuilds(messageType: Option<string>)
    requires NewBaseMessage(messageType).Ok?
    ensures NewBaseMessage(Some(BaseMessageText(NewBaseMessage(messageType).value))) == NewBaseMessage(messageType)
  {
  }

  /** `BaseIdentifiableMessage`: a message with a type and an id the sender assigns. */
  class IdentifiableMessage {
    const messageType: string
    /** `Id`, serialised as the required field "id"; 0 until the message is sent. */
    var id: uint32

    /** The constructor, for a type that passes the base check. */
    constructor(messageType: string)
      requires !IsNullOrWhiteSpace(Some(messageType))
      ensures this.messageType == messageType && id == 0 && !WasSent()
    {
      this.messageType := messageType;
      id := 0;
    }

    /** The constructor with the base type check: a blank type throws. */
    static method Create(messageType: Option<string>) returns (r: Result<IdentifiableMessage>)
      ensures r.Err? <==> IsNullOrWhiteSpace(messageType)
      ensures r.Err? ==> r.error == Argument
      ensures r.Ok? ==> fresh(r.value) && Some(r.value.messageType) == messageType && r.value.id == 0
    {
      var checked := NewBaseMessage(messageType);
      if checked.Err? {
        return Err(checked.error);
      }
      var m := new IdentifiableMessage(messageType.value);
      r := Ok(m);
    }

    /** The client's "already sent" test when rolling back a cancelled command. */
    predicate WasSent()
      reads this
    {
      id > 0
    }

    /** `ToString`: "<Type> Id:<Id>"; the id reads back from the digits after the marker. */
    function ToString(): (s: string)
      reads this
      ensures |s| > |messageType| + 4 && s[..|messageType|] == messageType && s[|messageType|..|messageType| + 4] == " Id:"
      ensures AllDigits(s[|messageType| + 4..]) && DigitsValue(s[|messageType| + 4..]) == id
    {
      var s := messageType + " Id:" + NatToString(id);
      assert s[|messageType| + 4..] == NatToString(id);
      s
    }

    /** The properties every identifiable message writes: its type and its id. */
    function WireHeader(): (o: JObject)
      reads this
      ensures Lookup(o, "type") == Some(JString(messageType)) && Lookup(o, "id") == Some(JNumber(id))
    {
      [("type", JString(messageType)), ("id", JNumber(id))]
    }
  }

  /** `Event.AnyEventFilter`: the event type that stands for every event. */
  const ANY_EVENT_FILTER: string := "*"

  const SUBSCRIBE_EVENTS_TYPE: string := "subscribe_events"
  const UNSUBSCRIBE_EVENTS_TYPE: string := "unsubscribe_events"
  const RENDER_TEMPLATE_TYPE: string := "render_template"

  lemma CommandTypesValid()
    ensures !IsNullOrWhiteSpace(Some(SUBSCRIBE_EVENTS_TYPE))
    ensures !IsNullOrWhiteSpace(Some(UNSUBSCRIBE_EVENTS_TYPE))
    ensures !IsNullOrWhiteSpace(Some(RENDER_TEMPLATE_TYPE))
  {
    assert !IsWhiteSpace(SUBSCRIBE_EVENTS_TYPE[0]);
    assert !IsWhiteSpace(UNSUBSCRIBE_EVENTS_TYPE[0]);
    assert !IsWhiteSpace(RENDER_TEMPLATE_TYPE[0]);
  }

  /** `SubscribeEventsMessage`: subscribes to one event type, or to every event. */
  class SubscribeEventsMessage {
    const message: IdentifiableMessage
    var eventType: Option<string>

    /** `SubscribeEventsMessage(eventType)`; the parameterless constructor leaves the event type null. */
    constructor(eventType: Option<string>)
      ensures fresh(message) && message.messageType == SUBSCRIBE_EVENTS_TYPE && message.id == 0
      ensures this.eventType == eventType
    {
      CommandTypesValid();
      message := new IdentifiableMessage(SUBSCRIBE_EVENTS_TYPE);
      this.eventType := eventType;
    }

    /** `ShouldSerializeEventType`. */
    predicate ShouldSerializeEventType()
      reads this
    {
      eventType != Some(ANY_EVENT_FILTER) && eventType != None
    }

    /** The frame sent: "event_type" is left off for every event ("*") and for null. */
    function Serialize(): (o: JObject)
      reads this, message
      ensures Lookup(o, "type") == Some(JString(message.messageType))
      ensures Lookup(o, "id") == Some(JNumber(message.id))
      ensures HasKey(o, "event_type") <==> eventType.Some? && eventType.value != ANY_EVENT_FILTER
      ensures HasKey(o, "event_type") ==> Lookup(o, "event_type") == Some(JString(eventType.value))
    {
      var header := message.WireHeader();
      if ShouldSerializeEventType() then
        var o: JObject := header + [("event_type", JString(eventType.value))];
        LookupAt(o, 0);
        LookupAt(o, 1);
        LookupAt(o, 2);
        o
      else header
    }
  }

  /** `UnsubscribeEventsMessage`: ends the subscription with the given id. */
  class UnsubscribeEventsMessage {
    const message: IdentifiableMessage
    /** `SubscriptionId`, a required field. */
    var subscriptionId: uint32

    constructor(subscriptionId: uint32)
      ensures fresh(message) && message.messageType == UNSUBSCRIBE_EVENTS_TYPE && message.id == 0
      ensures this.subscriptionId == subscriptionId
    {
      CommandTypesValid();
      message := new IdentifiableMessage(UNSUBSCRIBE_EVENTS_TYPE);
      this.subscriptionId := subscriptionId;
    }
  }

  /** A JSON array of strings. */
  function Strings(xs: seq<string>): (r: Json)
    ensures r.JArray? && |r.items| == |xs| && forall i :: 0 <= i < |xs| ==> r.items[i] == JString(xs[i])
  {
    JArray(seq(|xs|, i requires 0 <= i < |xs| => JString(xs[i])))
  }

  /**
   * `RenderTemplateMessage`: asks the server to render a template; the
   * rendered text arrives as an event and completes the response task.
   */
  class RenderTemplateMessage {
    const message: IdentifiableMessage
    /** `Template`, a required field. */
    var template: Option<string>
    /** `EntitiesIds` and `Variables`, left off the wire when null. */
    var entitiesIds: Option<seq<string>>
    var variables: Option<seq<string>>
    /** `WaitResponseTask`: the task of the one-shot completion source. */
    var response: TaskState<Option<string>>

    constructor()
      ensures fresh(message) && message.messageType == RENDER_TEMPLATE_TYPE && message.id == 0
      ensures template.None? && entitiesIds.None? && variables.None? && response.Running?
    {
      CommandTypesValid();
      message := new IdentifiableMessage(RENDER_TEMPLATE_TYPE);
      template := None;
      entitiesIds := None;
      variables := None;
      response := Running;
    }

    /**
     * `ProcessEventReceivedMessage`: the first event completes the response
     * with the rendered result; a second one throws, as a completion source
     * completes only once, and leaves the first result in place.
     */
    method ProcessEventReceivedMessage(result: Option<string>) returns (r: Outcome)
      modifies this`response
      ensures old(response).Running? ==> r.Pass? && response == Completed(result)
      ensures !old(response).Running? ==> r == Fail(InvalidOperation) && response == old(response)
      ensures template == old(template) && entitiesIds == old(entitiesIds) && variables == old(variables)
    {
      if !response.Running? {
        return Fail(InvalidOperation);
      }
      response := Completed(result);
      r := Pass;
    }

    /** The frame sent: a null template cannot be written; null lists are omitted. */
    function Serialize(): (r: Result<JObject>)
      reads this, message
      ensures r.Err? <==> template.None?
      ensures r.Err? ==> r.error == JsonSerialization
      ensures r.Ok? ==> Lookup(r.value, "type") == Some(JString(message.messageType))
      ensures r.Ok? ==> Lookup(r.value, "id") == Some(JNumber(message.id))
      ensures r.Ok? ==> Lookup(r.value, "template") == Some(JString(template.value))
      ensures r.Ok? ==> (HasKey(r.value, "entities_ids") <==> entitiesIds.Some?)
      ensures r.Ok? ==> (HasKey(r.value, "variables") <==> variables.Some?)
      ensures r.Ok? && entitiesIds.Some? ==> Lookup(r.value, "entities_ids") == Some(Strings(entitiesIds.value))
      ensures r.Ok? && variables.Some? ==> Lookup(r.value, "variables") == Some(Strings(variables.value))
    {
      if template.None? then Err(JsonSerialization)
      else Ok(TemplateFrame(message.messageType, message.id, template.value, entitiesIds, variables))
    }
  }
}
