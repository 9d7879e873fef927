/**
 * `MessagesConverter`: the JSON converter that turns an incoming frame into a
 * message, choosing the message class by the frame's "type" property.
 *
 * The converter keeps a table from type string to message class, one entry
 * per concrete message class that has a parameterless constructor. A frame
 * whose type is in the table becomes an instance of that class; any other
 * frame becomes a raw command carrying its type, its id and the rest of the
 * frame.
 */
module MessagesConverter {
  import opened Outcomes
  import opened Text
  import opened Json
  import opened Messages

  /** The concrete message classes with a parameterless constructor. */
  datatype MessageClass =
    | AuthenticationOk
    | AuthenticationRequired
    | AuthenticationRequest
    | AuthenticationInvalid
    | GetStates
    | GetManifest
    | GetServices
    | SearchRelated
    | CallService
    | GetMediaPlayerThumbnail
    | EntitySource
    | RenderTemplate
    | ListManifests
    | SubscribeEvents
    | UnsubscribeEvents
    | EventResult
    | ResultReply
    | Ping
    | Pong

  /** The `Type` a fresh instance of the class reports. */
  function ClassType(c: MessageClass): string {
    match c
    case AuthenticationOk => "auth_ok"
    case AuthenticationRequired => "auth_required"
    case AuthenticationRequest => "auth"
    case AuthenticationInvalid => "auth_invalid"
    case GetStates => "get_states"
    case GetManifest => "manifest/get"
    case GetServices => "get_services"
    case SearchRelated => "search/related"
    case CallService => "call_service"
    case GetMediaPlayerThumbnail => "media_player_thumbnail"
    case EntitySource => "entity/source"
    case RenderTemplate => RENDER_TEMPLATE_TYPE
    case ListManifests => "manifest/list"
    case SubscribeEvents => SUBSCRIBE_EVENTS_TYPE
    case UnsubscribeEvents => UNSUBSCRIBE_EVENTS_TYPE
    case EventResult => "event"
    case ResultReply => "result"
    case Ping => "ping"
    case Pong => "pong"
  }

  /**
   * The class whose type has the length and the first two characters of
   * `t`, if there is one: these are enough to tell apart the types the
   * classes report.
   */
  function ClassOfPrefix(t: string): Option<MessageClass> {
    if |t| < 2 then None else ClassOfTag(|t|, t[0], t[1])
  }

  /** The class whose type has the given length and first two characters, if there is one. */
  function ClassOfTag(n: int, c0: char, c1: char): Option<MessageClass> {
    if n == 7 && c0 == 'a' && c1 == 'u' then Some(AuthenticationOk)
    else if n == 13 && c0 == 'a' && c1 == 'u' then Some(AuthenticationRequired)
    else if n == 4 && c0 == 'a' && c1 == 'u' then Some(AuthenticationRequest)
    else if n == 12 && c0 == 'a' && c1 == 'u' then Some(AuthenticationInvalid)
    else if n == 10 && c0 == 'g' && c1 == 'e' then Some(GetStates)
    else if n == 12 && c0 == 'm' && c1 == 'a' then Some(GetManifest)
    else if n == 12 && c0 == 'g' && c1 == 'e' then Some(GetServices)
    else if n == 14 && c0 == 's' && c1 == 'e' then Some(SearchRelated)
    else if n == 12 && c0 == 'c' && c1 == 'a' then Some(CallService)
    else if n == 22 && c0 == 'm' && c1 == 'e' then Some(GetMediaPlayerThumbnail)
    else if n == 13 && c0 == 'e' && c1 == 'n' then Some(EntitySource)
    else if n == 15 && c0 == 'r' && c1 == 'e' then Some(RenderTemplate)
    else if n == 13 && c0 == 'm' && c1 == 'a' then Some(ListManifests)
    else if n == 16 && c0 == 's' && c1 == 'u' then Some(SubscribeEvents)
    else if n == 18 && c0 == 'u' && c1 == 'n' then Some(UnsubscribeEvents)
    else if n == 5 && c0 == 'e' && c1 == 'v' then Some(EventResult)
    else if n == 6 && c0 == 'r' && c1 == 'e' then Some(ResultReply)
    else if n == 4 && c0 == 'p' && c1 == 'i' then Some(Ping)
    else if n == 4 && c0 == 'p' && c1 == 'o' then Some(Pong)
    else None
  }

  /** Every class is found again from its type, so no two classes share a type. */
  lemma ClassOfClassType(c: MessageClass)
    ensures ClassOfPrefix(ClassType(c)) == Some(c)
  {
    if c.AuthenticationOk? || c.AuthenticationRequired? || c.AuthenticationRequest? || c.AuthenticationInvalid?
      || c.GetStates? || c.GetManifest? || c.GetServices? || c.SearchRelated? || c.CallService?
    {
      ClassOfClassTypeQueries(c);
    } else if c.GetMediaPlayerThumbnail? || c.EntitySource? || c.RenderTemplate? || c.ListManifests? || c.SubscribeEvents? {
      ClassOfClassTypeCommands(c);
    } else {
      ClassOfClassTypeReplies(c);
    }
  }

  /** The authentication messages and the queries. */
  lemma ClassOfClassTypeQueries(c: MessageClass)
    requires c.AuthenticationOk? || c.AuthenticationRequired? || c.AuthenticationRequest? || c.AuthenticationInvalid?
      || c.GetStates? || c.GetManifest? || c.GetServices? || c.SearchRelated? || c.CallService?
    ensures ClassOfPrefix(ClassType(c)) == Some(c)
  {
    match c
    case AuthenticationOk =>
    case AuthenticationRequired =>
    case AuthenticationRequest =>
    case AuthenticationInvalid =>
    case GetStates =>
    case GetManifest =>
    case GetServices =>
    case SearchRelated =>
    case CallService =>
  }

  /** The other commands and the subscriptions. */
  lemma ClassOfClassTypeCommands(c: MessageClass)
    requires c.GetMediaPlayerThumbnail? || c.EntitySource? || c.RenderTemplate? || c.ListManifests? || c.SubscribeEvents?
    ensures ClassOfPrefix(ClassType(c)) == Some(c)
  {
    match c
    case GetMediaPlayerThumbnail =>
    case EntitySource =>
    case RenderTemplate =>
    case ListManifests =>
    case SubscribeEvents =>
  }

  /** The end of a subscription, events, results, pings and pongs. */
  lemma ClassOfClassTypeReplies(c: MessageClass)
    requires c.UnsubscribeEvents? || c.EventResult? || c.ResultReply? || c.Ping? || c.Pong?
    ensures ClassOfPrefix(ClassType(c)) == Some(c)
  {
    match c
    case UnsubscribeEvents =>
    case EventResult =>
    case ResultReply =>
    case Ping =>
    case Pong =>
  }

  /** The classes the assembly scan finds, in the order it finds them. */
  const MESSAGE_CLASSES: seq<MessageClass> := [
    AuthenticationOk, AuthenticationRequired, AuthenticationRequest, AuthenticationInvalid,
    GetStates, GetManifest, GetServices, SearchRelated, CallService, GetMediaPlayerThumbnail,
    EntitySource, RenderTemplate, ListManifests, SubscribeEvents, UnsubscribeEvents,
    EventResult, ResultReply, Ping, Pong]

  /** No two classes of the list report the same type. */
  predicate DistinctTypes(classes: seq<MessageClass>) {
    forall i, j :: 0 <= i < j < |classes| ==> ClassType(classes[i]) != ClassType(classes[j])
  }

  /**
   * `ToDictionary(x => x().Type)`: each class is added under its type in
   * turn, and adding a type that is already there throws.
   */
  function BuildFactories(classes: seq<MessageClass>): (r: Result<map<string, MessageClass>>)
    ensures r.Ok? <==> DistinctTypes(classes)
    ensures r.Err? ==> r.error == Argument
    ensures r.Ok? ==> forall c :: c in classes ==> ClassType(c) in r.value && r.value[ClassType(c)] == c
    ensures r.Ok? ==> forall t :: t in r.value ==> r.value[t] in classes && ClassType(r.value[t]) == t
    decreases |classes|
  {
    if classes == [] then Ok(map[])
    else
      var init := classes[..|classes| - 1];
      var last := classes[|classes| - 1];
      assert classes == init + [last];
      var built := BuildFactories(init);
      if built.Err? then
        DuplicateStays(init, last);
        Err(built.error)
      else if ClassType(last) in built.value then
        DuplicateOfLast(init, last, built.value[ClassType(last)]);
        Err(Argument)
      else
        DistinctExtends(init, last);
        Ok(built.value[ClassType(last) := last])
  }

  /** A type reported twice stays so when a class is added. */
  lemma DuplicateStays(init: seq<MessageClass>, last: MessageClass)
    requires !DistinctTypes(init)
    ensures !DistinctTypes(init + [last])
  {
    var i, j :| 0 <= i < j < |init| && ClassType(init[i]) == ClassType(init[j]);
    assert (init + [last])[i] == init[i] && (init + [last])[j] == init[j];
  }

  /** A class added after one with the same type makes a type reported twice. */
  lemma DuplicateOfLast(init: seq<MessageClass>, last: MessageClass, c: MessageClass)
    requires c in init && ClassType(c) == ClassType(last)
    ensures !DistinctTypes(init + [last])
  {
    var i :| 0 <= i < |init| && init[i] == c;
    assert (init + [last])[i] == c && (init + [last])[|init|] == last;
  }

  /** A class whose type no earlier class reports keeps the types distinct. */
  lemma DistinctExtends(init: seq<MessageClass>, last: MessageClass)
    requires DistinctTypes(init) && forall c :: c in init ==> ClassType(c) != ClassType(last)
    ensures DistinctTypes(init + [last])
  {
    var classes := init + [last];
    forall i, j | 0 <= i < j < |classes|
      ensures ClassType(classes[i]) != ClassType(classes[j])
    {
      if j < |init| {
        assert classes[i] == init[i] && classes[j] == init[j];
      } else {
        assert classes[i] in init;
      }
    }
  }

  /** The position of a class in the assembly's list. */
  function ClassIndex(c: MessageClass): (i: nat)
    ensures i < |MESSAGE_CLASSES| && MESSAGE_CLASSES[i] == c
  {
    match c
    case AuthenticationOk => 0
    case AuthenticationRequired => 1
    case AuthenticationRequest => 2
    case AuthenticationInvalid => 3
    case GetStates => 4
    case GetManifest => 5
    case GetServices => 6
    case SearchRelated => 7
    case CallService => 8
    case GetMediaPlayerThumbnail => 9
    case EntitySource => 10
    case RenderTemplate => 11
    case ListManifests => 12
    case SubscribeEvents => 13
    case UnsubscribeEvents => 14
    case EventResult => 15
    case ResultReply => 16
    case Ping => 17
    case Pong => 18
  }

  /** No class appears twice in the assembly's list. */
  lemma ListedOnce(i: nat)
    requires i < |MESSAGE_CLASSES|
    ensures ClassIndex(MESSAGE_CLASSES[i]) == i
  {
    if i < 10 {
      if i == 0 {} else if i == 1 {} else if i == 2 {} else if i == 3 {} else if i == 4 {}
      else if i == 5 {} else if i == 6 {} else if i == 7 {} else if i == 8 {} else {}
    } else {
      if i == 10 {} else if i == 11 {} else if i == 12 {} else if i == 13 {} else if i == 14 {}
      else if i == 15 {} else if i == 16 {} else if i == 17 {} else {}
    }
  }

  /** The assembly's classes have distinct types, so building the table succeeds. */
  lemma FactoryTableBuilds()
    ensures BuildFactories(MESSAGE_CLASSES).Ok?
  {
    forall i, j | 0 <= i < j < |MESSAGE_CLASSES|
      ensures ClassType(MESSAGE_CLASSES[i]) != ClassType(MESSAGE_CLASSES[j])
    {
      ListedOnce(i);
      ListedOnce(j);
      ClassOfClassType(MESSAGE_CLASSES[i]);
      ClassOfClassType(MESSAGE_CLASSES[j]);
    }
  }

  /** The table the converter holds: every class under its own type, and nothing else. */
  function FactoriesByType(): (m: map<string, MessageClass>)
    ensures forall c :: ClassType(c) in m && m[ClassType(c)] == c
    ensures forall t :: t in m ==> ClassType(m[t]) == t
  {
    FactoryTableBuilds();
    var m := BuildFactories(MESSAGE_CLASSES).value;
    assert forall c :: ClassType(c) in m && m[ClassType(c)] == c by {
      forall c
        ensures ClassType(c) in m && m[ClassType(c)] == c
      {
        assert c in MESSAGE_CLASSES by {
          var i := ClassIndex(c);
        }
      }
    }
    m
  }

  /** The types a converter can be asked about. */
  datatype ObjectType =
    | Concrete(cls: MessageClass)
    | RawCommandType
    | BaseMessageType
    | IdentifiableMessageType
    | OutgoingMessageType
    | IncomingMessageType
    | Unrelated(name: string)

  /** The message types: `BaseMessage` itself and everything derived from it. */
  predicate IsMessageType(t: ObjectType) {
    match t
    case Unrelated(_) => false
    case _ => true
  }

  /** The value a frame decodes to. */
  datatype Decoded =
    /** A fresh instance of a registered class, to be populated from the frame. */
    | Populated(cls: MessageClass, source: JObject)
    /** `RawCommandMessage`: a type with no class, the frame's id and the rest of the frame. */
    | RawCommand(messageType: string, id: uint32, payload: JObject)

  /**
   * `(string)token`: a missing token or a JSON null reads as null; booleans
   * and numbers read as their invariant text; an array cannot be read.
   */
  function TokenText(token: Option<Json>): (r: Result<Option<string>>)
    ensures r.Err? <==> token.Some? && token.value.JArray?
    ensures r.Err? ==> r.error == Argument
    ensures r == Ok(None) <==> token == None || token == Some(JNull)
    ensures token.Some? && token.value.JString? ==> r == Ok(Some(token.value.s))
  {
    match token
    case None => Ok(None)
    case Some(JNull) => Ok(None)
    case Some(JBool(b)) => Ok(Some(if b then "True" else "False"))
    case Some(JNumber(n)) => Ok(Some(IntToString(n)))
    case Some(JString(s)) => Ok(Some(s))
    case Some(JArray(_)) => Err(Argument)
  }

  /** A value within `uint`'s range, or an overflow. */
  function ToUint(v: int): (r: Result<uint32>)
    ensures r.Ok? <==> 0 <= v < UINT_LIMIT
    ensures r.Ok? ==> r.value as int == v
    ensures r.Err? ==> r.error == Overflow
  {
    if 0 <= v < UINT_LIMIT then Ok(v as uint32) else Err(Overflow)
  }

  /**
   * `token.Value<uint>()`: a missing token throws `ArgumentNullException`;
   * numbers convert when in range; booleans convert to 1 and 0; strings
   * parse as invariant integer text; null and arrays cannot be cast.
   */
  function TokenUint(token: Option<Json>): (r: Result<uint32>)
    ensures token.None? ==> r == Err(ArgumentNull)
    ensures token.Some? && token.value.JNumber? ==> r == ToUint(token.value.n)
    ensures token.Some? && (token.value.JNull? || token.value.JArray?) ==> r == Err(InvalidCast)
    ensures r.Ok? ==> token.Some? && !token.value.JNull? && !token.value.JArray?
  {
    match token
    case None => Err(ArgumentNull)
    case Some(JNull) => Err(InvalidCast)
    case Some(JBool(b)) => Ok(if b then 1 else 0)
    case Some(JNumber(n)) => ToUint(n)
    case Some(JString(s)) =>
      var v := ParseInteger(s);
      if v.None? then Err(Format) else ToUint(v.value)
    case Some(JArray(_)) => Err(InvalidCast)
  }

  /** `WriteJson`: the converter only reads. */
  function WriteJson(): (r: Outcome)
    ensures r.Fail? && r.error == NotImplemented
  {
    Fail(NotImplemented)
  }

  class MessagesConverter {
    /** `factoriesByType`, built once by the constructor. */
    const factories: map<string, MessageClass>

    /** `CanRead` and `CanWrite`. */
    static const CAN_READ: bool := true
    static const CAN_WRITE: bool := false

    predicate Valid() {
      factories == FactoriesByType()
    }

    /** The constructor: the table of every class with a parameterless constructor. */
    constructor()
      ensures Valid()
    {
      factories := FactoriesByType();
    }

    /** `CanConvert`: exactly the types assignable to `BaseMessage`. */
    predicate CanConvert(objectType: ObjectType)
      ensures CanConvert(objectType) <==> !objectType.Unrelated?
    {
      IsMessageType(objectType)
    }

    /**
     * `ReadJson`. The type is read first: without one the table lookup
     * throws. A registered type gives a fresh instance of its class. Any
     * other type needs an id, and gives a raw command whose payload is the
     * frame without "id" and "type", in the original order.
     */
    function ReadJson(frame: JObject): (r: Result<Decoded>)
      requires Valid()
      ensures Lookup(frame, "type") in {None, Some(JNull)} ==> r == Err(ArgumentNull)
      ensures (exists items :: Lookup(frame, "type") == Some(JArray(items))) ==> r == Err(Argument)
      ensures r.Ok? && r.value.Populated? ==>
        r.value.source == frame && TokenText(Lookup(frame, "type")) == Ok(Some(ClassType(r.value.cls)))
      ensures r.Ok? && r.value.RawCommand? ==>
        TokenText(Lookup(frame, "type")) == Ok(Some(r.value.messageType))
        && (forall c :: ClassType(c) != r.value.messageType)
        && !IsNullOrWhiteSpace(Some(r.value.messageType))
        && TokenUint(Lookup(frame, "id")) == Ok(r.value.id)
        && !HasKey(r.value.payload, "id") && !HasKey(r.value.payload, "type")
        && forall p :: p in r.value.payload <==> p in frame && p.0 != "id" && p.0 != "type"
      ensures forall c :: Lookup(frame, "type") == Some(JString(ClassType(c))) ==> r == Ok(Populated(c, frame))
      ensures forall t :: (Lookup(frame, "type") == Some(JString(t)) && t !in factories && Lookup(frame, "id").None?
        ==> r == Err(ArgumentNull))
    {
      var messageType :- TokenText(Lookup(frame, "type"));
      if messageType.None? then Err(ArgumentNull)
      else if messageType.value in factories then
        Ok(Populated(factories[messageType.value], frame))
      else
        ReadRawCommand(frame, messageType.value)
    }
  }

  /**
   * `ReadJson` for a type no class reports: the id is required, and the
   * payload is the frame without "id" and "type".
   */
  function ReadRawCommand(frame: JObject, messageType: string): (r: Result<Decoded>)
    ensures Lookup(frame, "id").None? ==> r == Err(ArgumentNull)
    ensures r.Ok? ==>
      r.value.RawCommand? && r.value.messageType == messageType
      && !IsNullOrWhiteSpace(Some(messageType))
      && TokenUint(Lookup(frame, "id")) == Ok(r.value.id)
      && !HasKey(r.value.payload, "id") && !HasKey(r.value.payload, "type")
      && forall p :: p in r.value.payload <==> p in frame && p.0 != "id" && p.0 != "type"
  {
    var id :- TokenUint(Lookup(frame, "id"));
    var payload := RemoveKey(RemoveKey(frame, "id"), "type");
    var checked :- NewBaseMessage(Some(messageType));
    Ok(RawCommand(checked.messageType, id, payload))
  }

  /** Removing a name the object does not have changes nothing. */
  lemma {:induction false} RemoveAbsentKey(o: JObject, key: string)
    requires !HasKey(o, key)
    ensures RemoveKey(o, key) == o
    decreases |o|
  {
    if o != [] {
      var rest: JObject := o[1..];
      forall i | 0 <= i < |rest|
        ensures rest[i].0 != key
      {
        assert rest[i] == o[i + 1];
      }
      RemoveAbsentKey(rest, key);
    }
  }

  /** The frame of a raw command: its type, its id, then its own properties. */
  function RawFrame(messageType: string, id: uint32, payload: JObject): (o: JObject)
    requires !HasKey(payload, "id") && !HasKey(payload, "type")
    ensures Lookup(o, "type") == Some(JString(messageType)) && Lookup(o, "id") == Some(JNumber(id as int))
  {
    var o: JObject := [("type", JString(messageType)), ("id", JNumber(id as int))] + payload;
    LookupAt(o, 0);
    LookupAt(o, 1);
    o
  }

  /** Taking "id" and then "type" off a raw command's frame leaves its payload. */
  lemma StripHeader(messageType: string, id: uint32, payload: JObject)
    requires !HasKey(payload, "id") && !HasKey(payload, "type")
    ensures RemoveKey(RemoveKey(RawFrame(messageType, id, payload), "id"), "type") == payload
  {
    StripTwo(("type", JString(messageType)), ("id", JNumber(id as int)), payload, RawFrame(messageType, id, payload));
  }

  /** Removing the two leading properties of an object, second one first, leaves the rest. */
  lemma StripTwo(a: (string, Json), b: (string, Json), payload: JObject, o: JObject)
    requires o == [a, b] + payload && a.0 != b.0
    requires !HasKey(payload, a.0) && !HasKey(payload, b.0)
    ensures RemoveKey(RemoveKey(o, b.0), a.0) == payload
  {
    var rest: JObject := o[1..];
    assert rest[0] == b && rest[1..] == payload;
    RemoveAbsentKey(payload, b.0);
    assert RemoveKey(o, b.0) == [a] + payload;
    var w: JObject := [a] + payload;
    assert w[1..] == payload;
    RemoveAbsentKey(payload, a.0);
  }


  /**
   * A raw command of an unregistered type decodes back from its frame:
   * same type, same id, same payload in the same order.
   */
  lemma ReadJsonRawFrame(converter: MessagesConverter, messageType: string, id: uint32, payload: JObject)
    requires converter.Valid()
    requires (forall c :: ClassType(c) != messageType) && !IsNullOrWhiteSpace(Some(messageType))
    requires !HasKey(payload, "id") && !HasKey(payload, "type")
    ensures converter.ReadJson(RawFrame(messageType, id, payload)) == Ok(RawCommand(messageType, id, payload))
  {
    var frame := RawFrame(messageType, id, payload);
    assert messageType !in converter.factories;
    assert TokenText(Lookup(frame, "type")) == Ok(Some(messageType));
    assert TokenUint(Lookup(frame, "id")) == Ok(id);
    StripHeader(messageType, id, payload);
  }

  /**
   * A frame whose type is a class's type decodes to that class; the frames
   * the client writes carry their message's type, so an event subscription
   * and a template rendering decode to their own classes.
   */
  lemma ReadJsonOfType(converter: MessagesConverter, frame: JObject, c: MessageClass, t: string)
    requires converter.Valid() && Lookup(frame, "type") == Some(JString(t)) && ClassType(c) == t
    ensures converter.ReadJson(frame) == Ok(Populated(c, frame))
  {
  }
}
