/**
 * Sending a request and decoding what comes back (`execute` of the request
 * class). The network and PHP's parsers are not modelled; they are the
 * functions of an `Oracle`.
 */
module Execution {
  import opened Wrappers
  import opened Dicts
  import opened Php
  import opened Requests
  import opened Responses
  import opened Exceptions

  /**
   * What is handed to curl. `postFields` is None for a GET; for every other
   * method the parameters are the body, which curl sends as a POST.
   */
  datatype HttpCall = HttpCall(url: string, postFields: Option<Dict<Value>>)

  /** What curl reports: the returned string, or a nonzero error number with its message. */
  datatype Reply = Delivered(result: string) | TransportError(message: string)

  datatype Oracle = Oracle(
    transport: HttpCall -> Reply,       // curl_exec, curl_errno, curl_error
    jsonDecode: string -> Value,        // json_decode; Null when the text does not decode
    parseStr: string -> Dict<Value>,    // parse_str
    buildQuery: Dict<Value> -> string,  // http_build_query
    hasNext: Value -> bool)             // the pager's hasNext() for a `paging` value

  /** `getRequestURL`: the host for the session type, or the exception for an unrecognised one. */
  function RequestUrl(request: WishRequest): (r: Result<string, Exception>)
    ensures r.Success? <==> BaseUrl(request.session.sessionType).Some?
    ensures r.Success? ==> r.value == BaseUrl(request.session.sessionType).value
    ensures r.Failure? ==> r.error == InvalidArgument("Invalid session type")
  {
    match BaseUrl(request.session.sessionType)
    case Some(base) => Success(base)
    case None => Failure(InvalidArgument("Invalid session type"))
  }

  /**
   * The URL and options built around the transport call: host, version and
   * path; then for a GET (compared strictly) the query, for any other method
   * the parameters as the body.
   */
  function Compose(request: WishRequest, base: string, buildQuery: Dict<Value> -> string): (c: HttpCall)
    ensures var prefix := base + Version + request.path;
      && |prefix| <= |c.url| && c.url[..|prefix|] == prefix
      && (request.httpMethod == "GET" ==> c.url == prefix + "?" + buildQuery(request.params) && c.postFields == None)
      && (request.httpMethod != "GET" ==> c.url == prefix && c.postFields == Some(request.params))
  {
    var url := base + Version + request.path;
    if request.httpMethod == "GET" then HttpCall(url + "?" + buildQuery(request.params), None)
    else HttpCall(url, Some(request.params))
  }

  /**
   * The decode step: the JSON value of the body, or when that is null the
   * key/value parse of the body as an array. The raw body is kept either way.
   */
  function DecodeBody(request: WishRequest, body: string, oracle: Oracle): (r: WishResponse)
    ensures r.request == request && r.rawResponse == body
    ensures oracle.jsonDecode(body) != Null ==> r.responseData == oracle.jsonDecode(body)
    ensures oracle.jsonDecode(body) == Null ==> r.responseData == Assoc(oracle.parseStr(body))
  {
    var decoded := oracle.jsonDecode(body);
    if decoded == Null then NewResponse(request, Assoc(oracle.parseStr(body)), body, oracle.hasNext)
    else NewResponse(request, decoded, body, oracle.hasNext)
  }

  function Execute(request: WishRequest, oracle: Oracle): (r: Result<WishResponse, Exception>)
    ensures BaseUrl(request.session.sessionType).None? ==> r == Failure(InvalidArgument("Invalid session type"))
    ensures r.Failure? ==> r.error.InvalidArgument? || r.error.Connection?
    ensures r.Success? ==> r.value.request == request
  {
    match RequestUrl(request)
    case Failure(e) => Failure(e)
    case Success(base) =>
      match oracle.transport(Compose(request, base, oracle.buildQuery))
      case TransportError(message) => Failure(Connection(message))
      case Delivered(body) => Success(DecodeBody(request, body, oracle))
  }

  /**
   * An unrecognised session type fails before anything is sent: the outcome
   * is the same whatever the transport would have answered.
   */
  lemma InvalidSessionSendsNothing(request: WishRequest, o1: Oracle, o2: Oracle)
    requires BaseUrl(request.session.sessionType).None?
    ensures Execute(request, o1) == Execute(request, o2) == Failure(InvalidArgument("Invalid session type"))
  {
  }

  /**
   * A transport error becomes a connection exception carrying the
   * transport's message, and a delivered body becomes a response; in both
   * cases the call handed to the transport is the composed one.
   */
  lemma ExecuteOutcome(request: WishRequest, oracle: Oracle)
    requires BaseUrl(request.session.sessionType).Some?
    ensures var call := Compose(request, BaseUrl(request.session.sessionType).value, oracle.buildQuery);
      && (oracle.transport(call).TransportError? ==>
            Execute(request, oracle) == Failure(Connection(oracle.transport(call).message)))
      && (oracle.transport(call).Delivered? ==>
            Execute(request, oracle) == Success(DecodeBody(request, oracle.transport(call).result, oracle)))
  {
  }
}
