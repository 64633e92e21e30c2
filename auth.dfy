/**
 * The OAuth facade: exchanging an authorization code for a token and
 * refreshing a token. Its session has no token and no merchant id, and its
 * error checks are narrower than the client's.
 */
module Auth {
  import opened Wrappers
  import opened Dicts
  import opened Php
  import opened Sessions
  import opened Requests
  import opened Responses
  import opened Exceptions
  import opened Execution

  /** The app credentials and the session every token request goes out with. */
  datatype WishAuth = WishAuth(clientId: Value, clientSecret: Value, session: WishSession)

  /** The constructor; the session type defaults to production. */
  function NewAuth(clientId: Value, clientSecret: Value, sessionType: SessionType := Prod): (a: WishAuth)
    ensures a.clientId == clientId && a.clientSecret == clientSecret
    ensures a.session == WishSession(Str(""), sessionType, Null)
  {
    WishAuth(clientId, clientSecret, WishSession(Str(""), sessionType, Null))
  }

  /** The parameter array of `getToken`, in its literal order. */
  function TokenParams(auth: WishAuth, code: Value, redirectUri: Value): (p: Dict<Value>)
    ensures p.WellFormed()
    ensures p.keys == ["client_id", "client_secret", "code", "grant_type", "redirect_uri"]
    ensures Get(p, "client_id") == Some(auth.clientId) && Get(p, "client_secret") == Some(auth.clientSecret)
    ensures Get(p, "code") == Some(code) && Get(p, "redirect_uri") == Some(redirectUri)
    ensures Get(p, "grant_type") == Some(Str("authorization_code"))
  {
    Dict(["client_id", "client_secret", "code", "grant_type", "redirect_uri"],
         map["client_id" := auth.clientId, "client_secret" := auth.clientSecret, "code" := code,
             "grant_type" := Str("authorization_code"), "redirect_uri" := redirectUri])
  }

  /** The parameter array of `refreshToken`, in its literal order. */
  function RefreshParams(auth: WishAuth, refreshToken: Value): (p: Dict<Value>)
    ensures p.WellFormed()
    ensures p.keys == ["client_id", "client_secret", "refresh_token", "grant_type"]
    ensures Get(p, "client_id") == Some(auth.clientId) && Get(p, "client_secret") == Some(auth.clientSecret)
    ensures Get(p, "refresh_token") == Some(refreshToken)
    ensures Get(p, "grant_type") == Some(Str("refresh_token"))
  {
    Dict(["client_id", "client_secret", "refresh_token", "grant_type"],
         map["client_id" := auth.clientId, "client_secret" := auth.clientSecret,
             "refresh_token" := refreshToken, "grant_type" := Str("refresh_token")])
  }

  function Unauthorized(message: string, request: WishRequest, response: WishResponse): Result<WishResponse, Exception> {
    Failure(Service(ServiceError(UnauthorizedRequest, message, request, response)))
  }

  /**
   * The checks of `getToken`: 4000 and 1016 raise, every other code (an
   * absent one included) hands the response back.
   */
  function TokenGuard(request: WishRequest, response: WishResponse): (r: Result<WishResponse, Exception>)
    ensures var code := GetStatusCode(response);
      && (r.Success? <==> !LooseEqualsInt(code, 4000) && !LooseEqualsInt(code, 1016))
      && (r.Success? ==> r.value == response)
      && (LooseEqualsInt(code, 4000) ==> r == Unauthorized("Unauthorized access", request, response))
      && (!LooseEqualsInt(code, 4000) && LooseEqualsInt(code, 1016) ==> r == Unauthorized("Access code expired", request, response))
  {
    var code := GetStatusCode(response);
    if LooseEqualsInt(code, 4000) then Unauthorized("Unauthorized access", request, response)
    else if LooseEqualsInt(code, 1016) then Unauthorized("Access code expired", request, response)
    else Success(response)
  }

  /** The check of `refreshToken`: only 4000 raises. */
  function RefreshGuard(request: WishRequest, response: WishResponse): (r: Result<WishResponse, Exception>)
    ensures r.Success? <==> !LooseEqualsInt(GetStatusCode(response), 4000)
    ensures r.Success? ==> r.value == response
    ensures r.Failure? ==> r == Unauthorized("Unauthorized access", request, response)
  {
    if LooseEqualsInt(GetStatusCode(response), 4000) then Unauthorized("Unauthorized access", request, response)
    else Success(response)
  }

  /** The request `getToken` sends. */
  function TokenRequest(auth: WishAuth, code: Value, redirectUri: Value): WishRequest {
    NewRequest(auth.session, "POST", "oauth/access_token", TokenParams(auth, code, redirectUri))
  }

  /** The request `refreshToken` sends. */
  function RefreshRequest(auth: WishAuth, refreshToken: Value): WishRequest {
    NewRequest(auth.session, "POST", "oauth/refresh_token", RefreshParams(auth, refreshToken))
  }

  /** `getToken`: send the code exchange and apply its checks; a failed send propagates. */
  function GetToken(auth: WishAuth, oracle: Oracle, code: Value, redirectUri: Value): (r: Result<WishResponse, Exception>)
    ensures var sent := Execute(TokenRequest(auth, code, redirectUri), oracle);
      && (sent.Failure? ==> r == Failure(sent.error))
      && (sent.Success? ==> r == TokenGuard(TokenRequest(auth, code, redirectUri), sent.value))
    ensures r.Success? ==> r.value.request == TokenRequest(auth, code, redirectUri)
  {
    var request := TokenRequest(auth, code, redirectUri);
    match Execute(request, oracle)
    case Failure(e) => Failure(e)
    case Success(response) => TokenGuard(request, response)
  }

  /** `refreshToken`: send the refresh and apply its check; a failed send propagates. */
  function RefreshToken(auth: WishAuth, oracle: Oracle, refreshToken: Value): (r: Result<WishResponse, Exception>)
    ensures var sent := Execute(RefreshRequest(auth, refreshToken), oracle);
      && (sent.Failure? ==> r == Failure(sent.error))
      && (sent.Success? ==> r == RefreshGuard(RefreshRequest(auth, refreshToken), sent.value))
    ensures r.Success? ==> r.value.request == RefreshRequest(auth, refreshToken)
  {
    var request := RefreshRequest(auth, refreshToken);
    match Execute(request, oracle)
    case Failure(e) => Failure(e)
    case Success(response) => RefreshGuard(request, response)
  }

  /**
   * For integer codes: `getToken` raises for 4000 and 1016 only, and
   * `refreshToken` for 4000 only; 1015, 1000 and every other code come back
   * as the response itself.
   */
  lemma TokenGuardIntegerCodes(request: WishRequest, response: WishResponse, c: int)
    requires GetStatusCode(response) == Int(c)
    ensures TokenGuard(request, response) ==
      if c == 4000 then Unauthorized("Unauthorized access", request, response)
      else if c == 1016 then Unauthorized("Access code expired", request, response)
      else Success(response)
    ensures RefreshGuard(request, response) ==
      if c == 4000 then Unauthorized("Unauthorized access", request, response) else Success(response)
  {
  }

  /**
   * A code exchange goes out with the facade's empty token as
   * `access_token`, appended after the literal parameters, and with no
   * `merchant_id`.
   */
  lemma TokenRequestCredentials(clientId: Value, clientSecret: Value, sessionType: SessionType, code: Value, redirectUri: Value)
    ensures var q := TokenRequest(NewAuth(clientId, clientSecret, sessionType), code, redirectUri).params;
      && q.keys == ["client_id", "client_secret", "code", "grant_type", "redirect_uri", AccessTokenKey]
      && Get(q, AccessTokenKey) == Some(Str("")) && Get(q, MerchantIdKey) == None
  {
    var a := NewAuth(clientId, clientSecret, sessionType);
    var p := TokenParams(a, code, redirectUri);
    assert AccessTokenKey !in p.vals && MerchantIdKey !in p.vals;
    var q := Put(p, AccessTokenKey, Str(""));
    assert TokenRequest(a, code, redirectUri).params == q;
    assert q.keys == p.keys + [AccessTokenKey];
  }

  /** The same for a refresh: an empty `access_token` after the literal parameters, no `merchant_id`. */
  lemma RefreshRequestCredentials(clientId: Value, clientSecret: Value, sessionType: SessionType, refreshToken: Value)
    ensures var q := RefreshRequest(NewAuth(clientId, clientSecret, sessionType), refreshToken).params;
      && q.keys == ["client_id", "client_secret", "refresh_token", "grant_type", AccessTokenKey]
      && Get(q, AccessTokenKey) == Some(Str("")) && Get(q, MerchantIdKey) == None
  {
    var a := NewAuth(clientId, clientSecret, sessionType);
    var p := RefreshParams(a, refreshToken);
    assert AccessTokenKey !in p.vals && MerchantIdKey !in p.vals;
    var q := Put(p, AccessTokenKey, Str(""));
    assert RefreshRequest(a, refreshToken).params == q;
    assert q.keys == p.keys + [AccessTokenKey];
  }
}
