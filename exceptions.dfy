/**
 * The exceptions the request pipeline throws, and the service exception
 * object callers inspect.
 */
module Exceptions {
  import opened Wrappers
  import opened Php
  import opened Requests
  import opened Responses

  /** Which class a service exception is: the base class or one of its two subclasses used here. */
  datatype Kind = ServiceResponse | UnauthorizedRequest | OrderAlreadyFulfilled

  /** A service exception as thrown: its class, message, request and response. */
  datatype ServiceError = ServiceError(kind: Kind, message: string, request: WishRequest, response: WishResponse)

  /** Everything the pipeline throws. */
  datatype Exception =
    | Service(error: ServiceError)
    | Connection(message: string)       // a transport error, with the transport's message
    | InvalidArgument(message: string)  // an unrecognised session type

  /** The error message a service exception reports for a response, if it has one. */
  function ErrorMessageOf(response: Option<WishResponse>): Value {
    match response
    case Some(r) => GetMessage(r)
    case None => Null
  }

  /** The status code a service exception reports for a response, if it has one. */
  function StatusCodeOf(response: Option<WishResponse>): Value {
    match response
    case Some(r) => GetStatusCode(r)
    case None => Null
  }

  /**
   * The exception object. Only `setResponse` changes it; `exceptionType`
   * and `exceptionCode` are declared but never assigned, so they stay null.
   */
  class ServiceResponseException {
    const kind: Kind
    const message: string
    const request: WishRequest
    var response: Option<WishResponse>
    var exceptionType: Value
    var exceptionCode: Value

    ghost predicate Valid()
      reads this
    {
      exceptionType == Null && exceptionCode == Null
    }

    constructor (kind: Kind, message: string, request: WishRequest, response: Option<WishResponse>)
      ensures Valid()
      ensures this.kind == kind && this.message == message
      ensures this.request == request && this.response == response
    {
      this.kind := kind;
      this.message := message;
      this.request := request;
      this.response := response;
      this.exceptionType := Null;
      this.exceptionCode := Null;
    }

    function GetRequest(): WishRequest
      reads this
    {
      request
    }

    function GetResponse(): Option<WishResponse>
      reads this
    {
      response
    }

    function GetErrorMessage(): (m: Value)
      reads this
      ensures response.None? ==> m == Null
      ensures response.Some? ==> m == GetMessage(response.value)
    {
      ErrorMessageOf(response)
    }

    function GetStatusCode(): (c: Value)
      reads this
      ensures response.None? ==> c == Null
      ensures response.Some? ==> c == Responses.GetStatusCode(response.value)
    {
      StatusCodeOf(response)
    }

    function GetExceptionType(): (t: Value)
      reads this
      requires Valid()
      ensures t == Null
    {
      exceptionType
    }

    function GetExceptionCode(): (c: Value)
      reads this
      requires Valid()
      ensures c == Null
    {
      exceptionCode
    }

    /** Replaces the response; the request, message and class stay as they were. */
    method SetResponse(r: Option<WishResponse>)
      requires Valid()
      modifies this
      ensures Valid()
      ensures response == r
      ensures GetResponse() == r && GetStatusCode() == StatusCodeOf(r) && GetErrorMessage() == ErrorMessageOf(r)
      ensures GetRequest() == old(GetRequest())
      ensures exceptionType == old(exceptionType) && exceptionCode == old(exceptionCode)
    {
      response := r;
    }
  }

  /** The exception object built from a thrown service error keeps its request and response. */
  method FromError(e: ServiceError) returns (x: ServiceResponseException)
    ensures fresh(x) && x.Valid()
    ensures x.kind == e.kind && x.message == e.message
    ensures x.GetRequest() == e.request && x.GetResponse() == Some(e.response)
    ensures x.GetStatusCode() == GetStatusCode(e.response) && x.GetErrorMessage() == GetMessage(e.response)
  {
    x := new ServiceResponseException(e.kind, e.message, e.request, Some(e.response));
  }
}
