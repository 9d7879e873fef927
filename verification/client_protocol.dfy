/**
 * The values the WebSocket client exchanges with Home Assistant and the
 * inputs that stand for what the network and the caller do.
 *
 * Frames arrive already decoded. The socket is a sequence of receive
 * results, one per frame read. Cancellations are flags that say at which
 * await a cancellation token fired.
 */
module ClientProtocol {
  import opened Outcomes
  import opened Messages
  import opened SocketEventSubscriptions

  /** `ConnectionState`. */
  datatype ConnectionState = Disconnected | Connecting | Authenticating | Restoring | Connected

  /** `ConnectionParameters`: where to connect and the access token to authenticate with. */
  datatype ConnectionParameters = ConnectionParameters(endpoint: string, accessToken: string)

  /** The error codes the client tells apart; every other code is `OtherCode`. */
  datatype ErrorCode =
    | Undefined
    | InvalidFormat
    | IdReuse
    | HomeAssistantError
    | NotSupportedCode
    | Unauthorized
    | TimeoutCode
    | OtherCode(name: string)

  /** `ErrorInfo`: the code and the server's message. */
  datatype ErrorInfo = ErrorInfo(code: ErrorCode, message: Option<string>)

  /** A decoded incoming frame. */
  datatype Inbound =
    | AuthRequired
    | AuthOk(haVersion: Option<string>)
    | AuthInvalid(message: Option<string>)
    | ResultFrame(id: uint32, success: bool, error: Option<ErrorInfo>)
    | PongFrame(id: uint32)
    | EventFrame(id: uint32, info: EventInfo)
    /** Any other message, such as a command. */
    | CommandFrame(messageType: string, id: uint32)

  /** The incoming messages (`BaseIncomingMessage`): results, pongs and events. */
  predicate IsIncoming(frame: Inbound) {
    frame.ResultFrame? || frame.PongFrame? || frame.EventFrame?
  }

  /** The outcome of one read from the socket: a frame, or the exception the read threw. */
  datatype Receive = Got(frame: Inbound) | ReceiveFails(error: Exception)

  /**
   * The k-th read of a socket whose frames are `received`: past the last
   * frame the connection is gone, and the read throws `WebSocketException`.
   */
  function Next(received: seq<Receive>, k: nat): (r: Receive)
    ensures k < |received| ==> r == received[k]
    ensures k >= |received| ==> r == ReceiveFails(WebSocket)
  {
    if k < |received| then received[k] else ReceiveFails(WebSocket)
  }

  /**
   * One connection attempt, as the environment plays it: whether the token
   * fired at the semaphore wait or at the check after it, whether the
   * socket's connect threw, what the socket then delivers, and whether the
   * token fired during the delay before a retry.
   */
  datatype Attempt = Attempt(
    waitCancelled: bool,
    checkCancelled: bool,
    connectError: Option<Exception>,
    received: seq<Receive>,
    delayCancelled: bool)

  /** An attempt whose connect throws a `WebSocketException`, with no token firing around it. */
  predicate FailsWithWebSocket(a: Attempt) {
    !a.waitCancelled && !a.checkCancelled && a.connectError == Some(WebSocket) && !a.delayCancelled
  }

  /** What a command frame carries besides its type and id. */
  datatype Payload =
    /** `subscribe_events`: the event type, null for every type. */
    | EventTypePayload(eventType: Option<string>)
    /** `unsubscribe_events`: the id of the subscription to end. */
    | SubscriptionIdPayload(subscriptionId: uint32)
    /** `render_template`: the template and its optional lists. */
    | TemplatePayload(template: Option<string>, entitiesIds: Option<seq<string>>, variables: Option<seq<string>>)
    /** Any other command: its fields are not part of this model. */
    | NoPayload

  /** A frame written to the socket: the authentication frame with its token, or an identifiable message. */
  datatype Outbound = AuthFrame(accessToken: string) | CommandOut(messageType: string, id: uint32, payload: Payload)

  /** `ResultMessage` as the caller receives it. */
  datatype ResultInfo = ResultInfo(id: uint32, success: bool, error: Option<ErrorInfo>)

  /** The answer handed to the caller of a command: a result as is, a pong as a bare success. */
  function AnswerOf(frame: Inbound): (r: Option<ResultInfo>)
    ensures frame.ResultFrame? ==> r == Some(ResultInfo(frame.id, frame.success, frame.error))
    ensures frame.PongFrame? ==> r == Some(ResultInfo(0, true, None))
    ensures r.Some? <==> frame.ResultFrame? || frame.PongFrame?
  {
    match frame
    case ResultFrame(id, success, error) => Some(ResultInfo(id, success, error))
    case PongFrame(_) => Some(ResultInfo(0, true, None))
    case _ => None
  }

  /**
   * `CheckResultMessageError`: no error passes; the five general codes throw
   * `InvalidOperationException`, `Unauthorized` throws
   * `UnauthorizedAccessException`, `Timeout` throws `TimeoutException`; any
   * other code is only logged.
   */
  function CheckResultMessageError(error: Option<ErrorInfo>): (r: Outcome)
    ensures error.None? ==> r.Pass?
    ensures error.Some? && error.value.code in {Undefined, InvalidFormat, IdReuse, HomeAssistantError, NotSupportedCode}
      ==> r == Fail(InvalidOperation)
    ensures error.Some? && error.value.code == Unauthorized ==> r == Fail(UnauthorizedAccess)
    ensures error.Some? && error.value.code == TimeoutCode ==> r == Fail(Timeout)
    ensures r.Pass? <==> error.None? || error.value.code.OtherCode?
  {
    if error.None? then Pass
    else
      match error.value.code
      case Undefined => Fail(InvalidOperation)
      case InvalidFormat => Fail(InvalidOperation)
      case IdReuse => Fail(InvalidOperation)
      case HomeAssistantError => Fail(InvalidOperation)
      case NotSupportedCode => Fail(InvalidOperation)
      case Unauthorized => Fail(UnauthorizedAccess)
      case TimeoutCode => Fail(Timeout)
      case OtherCode(_) => Pass
  }

  /**
   * The retry rule of the connect loop, `(retries < 0 || retries-- > 0) &&
   * ex is WebSocketException`: only a `WebSocketException` is retried, and
   * only while retries remain; a negative count never runs out.
   */
  function RetryDecision(retries: int, error: Exception): (r: (bool, int))
    ensures r.0 <==> error == WebSocket && (retries < 0 || retries > 0)
    ensures retries < 0 ==> r.1 == retries
    ensures retries >= 0 ==> r.1 == retries - 1
  {
    if retries < 0 then (error == WebSocket, retries)
    else (retries > 0 && error == WebSocket, retries - 1)
  }
}
