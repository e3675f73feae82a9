/// Authentication strategies for remote MCP servers: the headers each adds
/// to an outgoing request, token expiry, validity and refresh, and the
/// mapping from a stored configuration to a strategy.
module McpAuth {
  import opened Common
  import opened Strings
  import opened McpTypes

  /** The headers of a request being built, in the order they were added. */
  datatype Request = Request(headers: seq<(string, string)>)

  datatype AuthStrategy =
    | Bearer(token: string, expiresAt: Option<Instant>)
    | ApiKey(headerName: string, apiKey: string, prefix: Option<string>)
    | CustomHeaders(headers: HeaderMap)
    | NoAuth

  /** A bearer token that never expires. */
  function NewBearer(token: string): (a: AuthStrategy)
    ensures a.Bearer? && a.token == token
    ensures forall now: Instant :: IsValid(a, now)
  {
    Bearer(token, None)
  }

  /** A bearer token that is valid strictly before `expiresAt`. */
  function BearerWithExpiry(token: string, expiresAt: Instant): (a: AuthStrategy)
    ensures a.Bearer? && a.token == token
    ensures forall now: Instant :: IsValid(a, now) <==> now < expiresAt
  {
    Bearer(token, Some(expiresAt))
  }

  /** An API key sent verbatim under `headerName`. */
  function NewApiKey(headerName: string, apiKey: string): (a: AuthStrategy)
    ensures a.ApiKey? && a.headerName == headerName && ApiKeyValue(a) == apiKey
    ensures forall now: Instant :: IsValid(a, now)
  {
    ApiKey(headerName, apiKey, None)
  }

  /** An API key under the standard header name. */
  function XApiKey(apiKey: string): (a: AuthStrategy)
    ensures a.ApiKey? && a.headerName == "X-API-Key" && a.apiKey == apiKey && a.prefix.None?
  {
    NewApiKey("X-API-Key", apiKey)
  }

  /** The prefix is set, so the key is sent after it; nothing else changes. */
  function WithPrefix(a: AuthStrategy, prefix: string): (r: AuthStrategy)
    requires a.ApiKey?
    ensures r.ApiKey? && r.headerName == a.headerName && r.apiKey == a.apiKey
    ensures ApiKeyValue(r) == prefix + a.apiKey
  {
    a.(prefix := Some(prefix))
  }

  /** `add_header` of custom-header authentication: the named header now
      carries the value, replacing any earlier one, and every other header is
      kept. */
  function AddHeader(a: AuthStrategy, name: string, value: string): (r: AuthStrategy)
    requires a.CustomHeaders?
    ensures r.CustomHeaders? && LookupKey(r.headers, name) == Some(value)
    ensures forall k :: k != name ==> LookupKey(r.headers, k) == LookupKey(a.headers, k)
  {
    PutKeepsDistinct(a.headers, name, value);
    CustomHeaders(Put(a.headers, name, value))
  }

  /** The value an API-key strategy sends: the prefix, if any, then the key. */
  function ApiKeyValue(a: AuthStrategy): string
    requires a.ApiKey?
  {
    match a.prefix
    case Some(p) => p + a.apiKey
    case None => a.apiKey
  }

  /** The headers a strategy appends, in the order it appends them. */
  function AuthHeaders(a: AuthStrategy): seq<(string, string)>
  {
    match a
    case Bearer(token, _) => [("Authorization", "Bearer " + token)]
    case ApiKey(name, _, _) => [(name, ApiKeyValue(a))]
    case CustomHeaders(headers) => headers
    case NoAuth => []
  }

  /** `apply`: the request with the strategy's headers appended. */
  function Apply(a: AuthStrategy, req: Request): (r: Request)
    ensures |req.headers| <= |r.headers| && r.headers[..|req.headers|] == req.headers
  {
    Request(req.headers + AuthHeaders(a))
  }

  /** A bearer token has expired once the clock reaches its expiry; a token
      without expiry never does. */
  predicate IsExpired(a: AuthStrategy, now: Instant)
    requires a.Bearer?
  {
    match a.expiresAt
    case Some(at) => now >= at
    case None => false
  }

  /** `is_valid`: only an expired bearer token is invalid. */
  predicate IsValid(a: AuthStrategy, now: Instant)
  {
    !(a.Bearer? && IsExpired(a, now))
  }

  /** `refresh`: no strategy can renew itself; an expired bearer token is an
      error, every other case reports that nothing was refreshed. */
  function Refresh(a: AuthStrategy, now: Instant): Result<bool, McpError>
  {
    if a.Bearer? && IsExpired(a, now) then Err(TokenExpired) else Ok(false)
  }

  /** `create_auth_from_config`. */
  function CreateAuthFromConfig(c: McpAuthConfig): AuthStrategy
  {
    match c
    case NoAuthConfig => NoAuth
    case BearerConfig(token) => NewBearer(token)
    case ApiKeyConfig(header, value) => NewApiKey(header, value)
    case CustomHeaderConfig(headers) => CustomHeaders(headers)
  }

  /** The configuration a strategy could have come from, if any: a bearer
      token with an expiry or an API key with a prefix has none. */
  function ConfigOf(a: AuthStrategy): Option<McpAuthConfig>
  {
    match a
    case NoAuth => Some(NoAuthConfig)
    case Bearer(token, expiresAt) => if expiresAt.None? then Some(BearerConfig(token)) else None
    case ApiKey(name, key, prefix) => if prefix.None? then Some(ApiKeyConfig(name, key)) else None
    case CustomHeaders(headers) => Some(CustomHeaderConfig(headers))
  }

  /** Every configuration maps to a strategy that carries its fields
      unchanged, and the strategies built from configurations are exactly
      those that have a configuration. */
  lemma ConfigRoundTrip(c: McpAuthConfig, a: AuthStrategy)
    ensures ConfigOf(CreateAuthFromConfig(c)) == Some(c)
    ensures ConfigOf(a) == Some(c) ==> CreateAuthFromConfig(c) == a
  {
  }

  /** A bearer strategy adds one Authorization header whose value, after the
      "Bearer " scheme, is the token itself. */
  lemma BearerHeader(token: string, expiresAt: Option<Instant>, req: Request)
    ensures var r := Apply(Bearer(token, expiresAt), req);
      |r.headers| == |req.headers| + 1
      && r.headers[|req.headers|].0 == "Authorization"
      && StartsWith(r.headers[|req.headers|].1, "Bearer ")
      && r.headers[|req.headers|].1[7..] == token
  {
  }

  /** An API-key strategy adds one header under its header name, carrying the
      prefix followed by the key when a prefix is set and the key alone
      otherwise. */
  lemma ApiKeyHeader(a: AuthStrategy, req: Request)
    requires a.ApiKey?
    ensures var r := Apply(a, req);
      |r.headers| == |req.headers| + 1
      && r.headers[|req.headers|].0 == a.headerName
      && (a.prefix.Some? ==> r.headers[|req.headers|].1 == a.prefix.value + a.apiKey)
      && (a.prefix.None? ==> r.headers[|req.headers|].1 == a.apiKey)
  {
  }

  /** Custom headers are all added, each once, and nothing else is; the
      no-auth strategy leaves the request as it was. */
  lemma CustomAndNoAuthHeaders(headers: HeaderMap, req: Request)
    ensures var r := Apply(CustomHeaders(headers), req);
      |r.headers| == |req.headers| + |headers|
      && (forall h :: h in headers ==> h in r.headers[|req.headers|..])
      && (forall h :: h in r.headers[|req.headers|..] ==> h in headers)
    ensures Apply(NoAuth, req) == req
  {
    assert Apply(NoAuth, req).headers == req.headers + [];
  }

  /** Expiry is permanent: once expired, a token stays expired. */
  lemma ExpiryIsPermanent(a: AuthStrategy, t: Instant, later: Instant)
    requires a.Bearer? && t <= later && IsExpired(a, t)
    ensures IsExpired(a, later)
  {
  }

  /** A bearer token is valid exactly when it has not expired, and refreshing
      fails with TokenExpired exactly then; every other strategy is always
      valid and refreshing it reports false. */
  lemma ValidityAndRefresh(a: AuthStrategy, now: Instant)
    ensures a.Bearer? ==> (IsValid(a, now) <==> !IsExpired(a, now))
    ensures a.Bearer? ==> (Refresh(a, now) == Err(TokenExpired) <==> IsExpired(a, now))
    ensures a.Bearer? && !IsExpired(a, now) ==> Refresh(a, now) == Ok(false)
    ensures !a.Bearer? ==> IsValid(a, now) && Refresh(a, now) == Ok(false)
    ensures a.Bearer? && a.expiresAt.None? ==> IsValid(a, now)
  {
  }
}
