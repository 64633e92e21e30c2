/**
 * The response envelope: the decoded body, the raw body, the request that
 * produced it and, when the body carries `paging`, a pager. Nothing changes
 * a response after it is built.
 */
module Responses {
  import opened Wrappers
  import opened Dicts
  import opened Php
  import opened Requests

  /** The pager class is not part of this model: it is its `paging` value and what its `hasNext()` says. */
  datatype WishPager = WishPager(paging: Value, hasNext: bool)

  datatype WishResponse = WishResponse(request: WishRequest, responseData: Value, rawResponse: string, pager: Option<WishPager>)

  /**
   * The constructor. `hasNext` stands for the pager's `hasNext()` on a given
   * `paging` value; a pager is attached exactly when `paging` is set.
   */
  function NewResponse(request: WishRequest, responseData: Value, rawResponse: string, hasNext: Value -> bool): (r: WishResponse)
    ensures r.request == request && r.responseData == responseData && r.rawResponse == rawResponse
    ensures r.pager.Some? <==> IssetProperty(responseData, "paging")
    ensures r.pager.Some? ==> r.pager.value.paging == Property(responseData, "paging")
  {
    var pager := if IssetProperty(responseData, "paging")
      then var p := Property(responseData, "paging"); Some(WishPager(p, hasNext(p)))
      else None;
    WishResponse(request, responseData, rawResponse, pager)
  }

  function GetStatusCode(r: WishResponse): Value {
    Property(r.responseData, "code")
  }

  function GetData(r: WishResponse): Value {
    Property(r.responseData, "data")
  }

  function GetMessage(r: WishResponse): Value {
    Property(r.responseData, "message")
  }

  function HasMore(r: WishResponse): bool {
    match r.pager
    case Some(p) => p.hasNext
    case None => false
  }

  /**
   * For a body decoded to an object, the accessors read its `code`, `data`
   * and `message` fields, and the request and raw body are the constructor's.
   */
  lemma EnvelopeAccessors(request: WishRequest, props: Dict<Value>, raw: string, hasNext: Value -> bool)
    ensures var r := NewResponse(request, Object(props), raw, hasNext);
      && GetStatusCode(r) == (if "code" in props.vals then props.vals["code"] else Null)
      && GetData(r) == (if "data" in props.vals then props.vals["data"] else Null)
      && GetMessage(r) == (if "message" in props.vals then props.vals["message"] else Null)
      && r.request == request && r.rawResponse == raw
  {
  }

  /** `hasMore` is false without `paging` and is the pager's answer with it. */
  lemma HasMorePaging(request: WishRequest, data: Value, raw: string, hasNext: Value -> bool)
    ensures var r := NewResponse(request, data, raw, hasNext);
      && (!IssetProperty(data, "paging") ==> !HasMore(r))
      && (IssetProperty(data, "paging") ==> HasMore(r) == hasNext(Property(data, "paging")))
  {
  }

  /** A body that is not an object (an array from the key/value fallback, a scalar) has no code, data, message or pager. */
  lemma NonObjectEnvelope(request: WishRequest, data: Value, raw: string, hasNext: Value -> bool)
    requires !data.Object?
    ensures var r := NewResponse(request, data, raw, hasNext);
      && GetStatusCode(r) == Null && GetData(r) == Null && GetMessage(r) == Null && !HasMore(r)
  {
  }
}
