/// Data types of the MCP client: errors, JSON-RPC messages, authentication
/// configuration, connection status and server-sent events.
module McpTypes {
  import opened Common
  import opened Strings
  import opened Json

  /** The protocol revision the client announces. */
  const MCP_PROTOCOL_VERSION: string := "2025-11-25"

  /** Every failure an MCP operation reports. */
  datatype McpError =
    | ConnectionFailed(reason: string)
    | ConnectionTimeout(afterMs: nat)
    | NotConnected
    | TransportError(reason: string)
    | ProtocolVersionMismatch(expected: string, actual: string)
    | InvalidResponse(reason: string)
    | JsonRpcError(code: int, message: string)
    | InitializationFailed(reason: string)
    | AuthenticationFailed(reason: string)
    | TokenExpired
    | InvalidCredentials
    | ToolNotFound(name: string)
    | ToolExecutionFailed(reason: string)
    | ResourceNotFound(uri: string)
    | PromptNotFound(name: string)
    | HealthCheckFailed(reason: string)
    | ServerUnhealthy(reason: string)
    | SerializationError(reason: string)
    | DeserializationError(reason: string)
    | InvalidConfig(reason: string)
    | ServerNotFound(id: string)
    | Internal(reason: string)
    | Cancelled

  /** The text an error carries last in its message, if any. */
  function Detail(e: McpError): Option<string>
  {
    match e
    case ConnectionFailed(reason) => Some(reason)
    case TransportError(reason) => Some(reason)
    case ProtocolVersionMismatch(_, actual) => Some(actual)
    case InvalidResponse(reason) => Some(reason)
    case JsonRpcError(_, message) => Some(message)
    case InitializationFailed(reason) => Some(reason)
    case AuthenticationFailed(reason) => Some(reason)
    case ToolNotFound(name) => Some(name)
    case ToolExecutionFailed(reason) => Some(reason)
    case ResourceNotFound(uri) => Some(uri)
    case PromptNotFound(name) => Some(name)
    case HealthCheckFailed(reason) => Some(reason)
    case ServerUnhealthy(reason) => Some(reason)
    case SerializationError(reason) => Some(reason)
    case DeserializationError(reason) => Some(reason)
    case InvalidConfig(reason) => Some(reason)
    case ServerNotFound(id) => Some(id)
    case Internal(reason) => Some(reason)
    case _ => None
  }

  /** The text of an error's message before its detail; the whole message
      when it carries none. */
  function Label(e: McpError): (l: string)
    ensures |l| > 0
  {
    match e
    case ConnectionFailed(_) => "Connection failed: "
    case ConnectionTimeout(ms) => "Connection timeout after " + NatToString(ms) + "ms"
    case NotConnected => "Transport not connected"
    case TransportError(_) => "Transport error: "
    case ProtocolVersionMismatch(expected, _) => "Protocol version mismatch: expected " + expected + ", got "
    case InvalidResponse(_) => "Invalid JSON-RPC response: "
    case JsonRpcError(code, _) => "JSON-RPC error " + IntToString(code) + ": "
    case InitializationFailed(_) => "Initialization failed: "
    case AuthenticationFailed(_) => "Authentication failed: "
    case TokenExpired => "Token expired"
    case InvalidCredentials => "Invalid credentials"
    case ToolNotFound(_) => "Tool not found: "
    case ToolExecutionFailed(_) => "Tool execution failed: "
    case ResourceNotFound(_) => "Resource not found: "
    case PromptNotFound(_) => "Prompt not found: "
    case HealthCheckFailed(_) => "Health check failed: "
    case ServerUnhealthy(_) => "Server unhealthy: "
    case SerializationError(_) => "Serialization error: "
    case DeserializationError(_) => "Deserialization error: "
    case InvalidConfig(_) => "Invalid configuration: "
    case ServerNotFound(_) => "Server not found: "
    case Internal(_) => "Internal error: "
    case Cancelled => "Operation cancelled"
  }

  /** The message an error displays (its `#[error]` text): never empty,
      and ending with the text the error carries. */
  function ErrorMessage(e: McpError): (m: string)
    ensures |m| > 0
    ensures Detail(e).Some? ==>
      |Detail(e).value| < |m| && m[|m| - |Detail(e).value|..] == Detail(e).value
  {
    match Detail(e)
    case Some(d) => Label(e) + d
    case None => Label(e)
  }

  /** What the HTTP client reports about a failed request. */
  datatype HttpError = HttpError(isTimeout: bool, isConnect: bool, message: string)

  /** The conversion of an HTTP client error: a timeout becomes a 30-second
      connection timeout, a connect failure a connection failure, anything
      else a transport error, the last two carrying the client's message. */
  function FromHttpError(e: HttpError): (r: McpError)
    ensures r.ConnectionTimeout? <==> e.isTimeout
    ensures r.ConnectionTimeout? ==> r.afterMs == 30000
    ensures r.ConnectionFailed? <==> !e.isTimeout && e.isConnect
    ensures r.ConnectionFailed? ==> r.reason == e.message
    ensures !r.ConnectionTimeout? && !r.ConnectionFailed? ==> r == TransportError(e.message)
  {
    if e.isTimeout then ConnectionTimeout(30000)
    else if e.isConnect then ConnectionFailed(e.message)
    else TransportError(e.message)
  }

  /** A JSON-RPC 2.0 request; notifications are sent without one. */
  datatype JsonRpcRequest = JsonRpcRequest(
    jsonrpc: string,
    methodName: string,
    params: Option<JsonValue>,
    id: JsonValue)

  /** `JsonRpcRequest::new` with a numeric id. */
  function NewRequest(methodName: string, params: Option<JsonValue>, id: nat): (r: JsonRpcRequest)
    ensures r.jsonrpc == "2.0" && r.methodName == methodName && r.params == params && r.id == JNumber(id)
  {
    JsonRpcRequest("2.0", methodName, params, JNumber(id))
  }

  /** The error object of a JSON-RPC response. */
  datatype RpcError = RpcError(code: int, message: string, data: Option<JsonValue>)

  /** A JSON-RPC 2.0 response. */
  datatype JsonRpcResponse = JsonRpcResponse(
    jsonrpc: string,
    result: Option<JsonValue>,
    error: Option<RpcError>,
    id: JsonValue)

  /** What the server tells about itself during initialisation. */
  datatype ServerInfo = ServerInfo(name: string, version: Option<string>)

  /** The part of the initialize result the client keeps; capabilities stay
      an uninterpreted JSON value. */
  datatype InitializeResult = InitializeResult(
    protocolVersion: string,
    capabilities: JsonValue,
    serverInfo: ServerInfo)

  /** A header map given as its entries in iteration order. */
  type HeaderMap = entries: seq<(string, string)> | DistinctKeys(entries)

  /** How a remote server wants requests authenticated. */
  datatype McpAuthConfig =
    | NoAuthConfig
    | BearerConfig(token: string)
    | ApiKeyConfig(header: string, value: string)
    | CustomHeaderConfig(headers: HeaderMap)

  /** Health-check settings of a remote server. */
  datatype HealthCheckConfig = HealthCheckConfig(enabled: bool, intervalSecs: nat, timeoutSecs: nat)

  datatype ConnectionStatus = Connected | Disconnected | Connecting | Error | Unknown

  /** One event of a server-sent-events stream. */
  datatype SseEvent = SseEvent(event: Option<string>, data: string, id: Option<string>)
}
