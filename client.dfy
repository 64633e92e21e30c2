/**
 * The merchant client: one call classified by its status code, and the
 * paginating loop that collects a multi-record endpoint page by page.
 */
module Client {
  import opened Wrappers
  import opened Dicts
  import opened Php
  import opened Sessions
  import opened Requests
  import opened Responses
  import opened Exceptions
  import opened Execution

  /** The page size, and the step of `start` from one page to the next. */
  const Limit := 50

  datatype WishClient = WishClient(session: WishSession)

  /** The constructor; the session type defaults to production and the merchant id to null. */
  function NewClient(accessToken: Value, sessionType: SessionType := Prod, merchantId: Value := Null): WishClient {
    WishClient(WishSession(accessToken, sessionType, merchantId))
  }

  function Raise(kind: Kind, message: string, request: WishRequest, response: WishResponse): Result<WishResponse, Exception> {
    Failure(Service(ServiceError(kind, message, request, response)))
  }

  /**
   * The guard chain of `getResponse`, in its order. The response passes
   * exactly when its code loosely equals 0, which includes an absent code;
   * every exception carries this request and this response.
   */
  function Classify(request: WishRequest, response: WishResponse): (r: Result<WishResponse, Exception>)
    ensures r.Success? <==> LooseEqualsInt(GetStatusCode(response), 0)
    ensures r.Success? ==> r.value == response
    ensures r.Failure? ==> r.error.Service? && r.error.error.request == request && r.error.error.response == response
  {
    var code := GetStatusCode(response);
    if LooseEqualsInt(code, 4000) then Raise(UnauthorizedRequest, "Unauthorized access", request, response)
    else if LooseEqualsInt(code, 1015) then Raise(UnauthorizedRequest, "Access Token expired", request, response)
    else if LooseEqualsInt(code, 1016) then Raise(UnauthorizedRequest, "Access Token revoked", request, response)
    else if LooseEqualsInt(code, 1000) then Raise(ServiceResponse, "Invalid parameter", request, response)
    else if LooseEqualsInt(code, 1002) then Raise(OrderAlreadyFulfilled, "Order has been fulfilled", request, response)
    else if !LooseEqualsInt(code, 0) then Raise(ServiceResponse, "Unknown error", request, response)
    else Success(response)
  }

  /** The documented error table of this client, keyed by status code. */
  const ErrorTable: map<int, (Kind, string)> := map[
    4000 := (UnauthorizedRequest, "Unauthorized access"),
    1015 := (UnauthorizedRequest, "Access Token expired"),
    1016 := (UnauthorizedRequest, "Access Token revoked"),
    1000 := (ServiceResponse, "Invalid parameter"),
    1002 := (OrderAlreadyFulfilled, "Order has been fulfilled")]

  /** For an integer code the guard chain is the table lookup, with "Unknown error" for every other nonzero code. */
  lemma ClassifyIntegerCode(request: WishRequest, response: WishResponse, c: int)
    requires GetStatusCode(response) == Int(c)
    ensures Classify(request, response) ==
      if c == 0 then Success(response)
      else if c in ErrorTable then Raise(ErrorTable[c].0, ErrorTable[c].1, request, response)
      else Raise(ServiceResponse, "Unknown error", request, response)
  {
  }

  /** A body that did not decode as JSON falls back to an array, which has no code, so the classifier lets it through. */
  lemma FallbackBodyPasses(request: WishRequest, body: string, oracle: Oracle)
    requires oracle.jsonDecode(body) == Null
    ensures Classify(request, DecodeBody(request, body, oracle)) == Success(DecodeBody(request, body, oracle))
  {
  }

  /** `getResponse`: build the request, send it, classify what comes back. */
  function GetResponse(client: WishClient, oracle: Oracle, httpMethod: string, path: string, params: Dict<Value> := Empty()): (r: Result<WishResponse, Exception>)
    ensures r.Success? ==> r.value.request == NewRequest(client.session, httpMethod, path, params)
    ensures r.Success? ==> LooseEqualsInt(GetStatusCode(r.value), 0)
    ensures r.Failure? && r.error.Service? ==> r.error.error.request == NewRequest(client.session, httpMethod, path, params)
    ensures var sent := Execute(NewRequest(client.session, httpMethod, path, params), oracle);
      && (sent.Failure? ==> r == Failure(sent.error))
      && (sent.Success? ==> (r.Success? <==> LooseEqualsInt(GetStatusCode(sent.value), 0)))
      && (r.Success? ==> sent.Success? && r.value == sent.value)
      && (sent.Success? ==> r == Classify(NewRequest(client.session, httpMethod, path, params), sent.value))
  {
    var request := NewRequest(client.session, httpMethod, path, params);
    match Execute(request, oracle)
    case Failure(e) => Failure(e)
    case Success(response) => Classify(request, response)
  }

  // ---- pagination ----

  /**
   * The pages a paginated call sees: `getResponse` (method and path fixed)
   * and the caller's parameters; `At(k)` is the answer to the k-th page
   * request (counting from 0).
   */
  datatype Pages = Served(getResponse: Dict<Value> -> Result<WishResponse, Exception>, params: Dict<Value>)
  {
    function At(k: nat): Result<WishResponse, Exception> {
      getResponse(PageParams(params, k))
    }
  }

  /**
   * The parameters of the k-th page request: `limit` is written once before
   * the loop, then `start` is written over the previous request's
   * parameters on every round.
   */
  function PageParams(params: Dict<Value>, k: nat): Dict<Value> {
    if k == 0 then Put(Put(params, "limit", Int(Limit)), "start", Int(0))
    else Put(PageParams(params, k - 1), "start", Int(Limit * k))
  }

  /** Rewriting `start` leaves one `start` entry: the k-th parameters are the caller's with `limit` = 50 and `start` = 50k. */
  lemma {:induction false} PageParamsClosed(params: Dict<Value>, k: nat)
    ensures PageParams(params, k) == Put(Put(params, "limit", Int(Limit)), "start", Int(Limit * k))
  {
    if k > 0 {
      PageParamsClosed(params, k - 1);
      PutPut(Put(params, "limit", Int(Limit)), "start", Int(Limit * (k - 1)), Int(Limit * k));
    }
  }

  /** The loop's write of `start` turns the previous request's parameters into the k-th page's. */
  lemma PageParamsStep(params: Dict<Value>, p: Dict<Value>, k: nat, start: int)
    requires start == Limit * k
    requires k == 0 ==> p == Put(params, "limit", Int(Limit))
    requires k > 0 ==> p == PageParams(params, k - 1)
    ensures Put(p, "start", Int(start)) == PageParams(params, k)
  {
  }

  /**
   * The k-th page request carries start = 50k and limit = 50 whatever the
   * caller passed, the session's credentials, and every other caller
   * parameter unchanged.
   */
  lemma PageRequestParams(session: WishSession, httpMethod: string, uri: string, params: Dict<Value>, k: nat)
    ensures var q := NewRequest(session, httpMethod, uri, PageParams(params, k)).params;
      && Get(q, "start") == Some(Int(50 * k))
      && Get(q, "limit") == Some(Int(50))
      && Get(q, AccessTokenKey) == Some(session.accessToken)
      && forall key :: key !in {"start", "limit", AccessTokenKey, MerchantIdKey} ==> Get(q, key) == Get(params, key)
  {
    PageParamsClosed(params, k);
  }

  /** The pages the client itself sees for a method and path. */
  function ClientPages(client: WishClient, oracle: Oracle, httpMethod: string, uri: string, params: Dict<Value>): Pages {
    Served(p => GetResponse(client, oracle, httpMethod, uri, p), params)
  }

  /** For the client, the k-th page is `getResponse` on the k-th page parameters, and a page that passed answers the request built from them. */
  lemma ClientPage(client: WishClient, oracle: Oracle, httpMethod: string, uri: string, params: Dict<Value>, k: nat)
    ensures var page := ClientPages(client, oracle, httpMethod, uri, params).At(k);
      && page == GetResponse(client, oracle, httpMethod, uri, PageParams(params, k))
      && (page.Success? ==> page.value.request == NewRequest(client.session, httpMethod, uri, PageParams(params, k)))
  {
  }

  /** After this page no further request is issued: it failed, or it reports no more pages. */
  predicate IsLastPage(page: Result<WishResponse, Exception>) {
    page.Failure? || !HasMore(page.value)
  }

  /** The raw items of a page's data, in the order `foreach` visits them. */
  function PageItems(page: Result<WishResponse, Exception>): seq<Value>
    requires page.Success?
  {
    ForeachValues(GetData(page.value))
  }

  /** Pages 0 .. n-1 all passed the classifier. */
  predicate Passed(pages: Pages, n: nat) {
    n == 0 || (Passed(pages, n - 1) && pages.At(n - 1).Success?)
  }

  /** Pages 0 .. n-1 all passed and each reported more pages, so the loop went on after each. */
  predicate Continues(pages: Pages, n: nat) {
    n == 0 || (Continues(pages, n - 1) && !IsLastPage(pages.At(n - 1)))
  }

  /** The raw items of pages 0 .. n-1, one sequence per page. */
  function ItemsOf(pages: Pages, n: nat): (items: seq<seq<Value>>)
    requires Passed(pages, n)
    ensures |items| == n
  {
    if n == 0 then [] else ItemsOf(pages, n - 1) + [PageItems(pages.At(n - 1))]
  }

  lemma {:induction false} PassedAt(pages: Pages, n: nat)
    ensures Passed(pages, n) <==> forall j :: 0 <= j < n ==> pages.At(j).Success?
  {
    if n > 0 {
      PassedAt(pages, n - 1);
    }
  }

  /** The loop went on after pages 0 .. n-1 exactly when none of them is a last page. */
  lemma {:induction false} ContinuesAt(pages: Pages, n: nat)
    ensures Continues(pages, n) <==> forall j :: 0 <= j < n ==> !IsLastPage(pages.At(j))
  {
    if n > 0 {
      ContinuesAt(pages, n - 1);
    }
  }

  /** The j-th entry of ItemsOf is the j-th page's items. */
  lemma {:induction false} ItemsOfAt(pages: Pages, n: nat)
    requires Passed(pages, n)
    ensures forall j :: 0 <= j < n ==> pages.At(j).Success? && ItemsOf(pages, n)[j] == PageItems(pages.At(j))
  {
    PassedAt(pages, n);
    if n > 0 {
      ItemsOfAt(pages, n - 1);
    }
  }

  /** A run that went on after pages 0 .. n-1 has not reached a last page yet. */
  lemma {:induction false} ContinuesBelowLast(pages: Pages, n: nat, last: nat)
    requires Continues(pages, n) && IsLastPage(pages.At(last))
    ensures n <= last
  {
    if n > 0 {
      ContinuesBelowLast(pages, n - 1, last);
    }
  }

  /** One factory-built object per raw item, in item order. */
  function Materialize<T>(factory: Value -> T, items: seq<Value>): (objs: seq<T>)
    ensures |objs| == |items|
    ensures forall i :: 0 <= i < |items| ==> objs[i] == factory(items[i])
  {
    seq(|items|, i requires 0 <= i < |items| => factory(items[i]))
  }

  /** The objects of a run of pages, page after page. */
  function Gathered<T>(factory: Value -> T, pages: seq<seq<Value>>): seq<T>
  {
    if pages == [] then [] else Gathered(factory, pages[..|pages| - 1]) + Materialize(factory, pages[|pages| - 1])
  }

  /** The number of items on the first `n` pages. */
  function Offset(pages: seq<seq<Value>>, n: nat): nat
    requires n <= |pages|
  {
    if n == 0 then 0 else Offset(pages, n - 1) + |pages[n - 1]|
  }

  lemma {:induction false} OffsetPrefix(pages: seq<seq<Value>>, n: nat, m: nat)
    requires n <= m <= |pages|
    ensures Offset(pages[..m], n) == Offset(pages, n)
  {
    if n > 0 {
      OffsetPrefix(pages, n - 1, m);
      assert pages[..m][n - 1] == pages[n - 1];
    }
  }

  lemma {:induction false} OffsetMonotone(pages: seq<seq<Value>>, a: nat, b: nat)
    requires a <= b <= |pages|
    ensures Offset(pages, a) <= Offset(pages, b)
  {
    if a < b {
      OffsetMonotone(pages, a, b - 1);
    }
  }

  lemma {:induction false} GatheredLength<T>(factory: Value -> T, pages: seq<seq<Value>>)
    ensures |Gathered(factory, pages)| == Offset(pages, |pages|)
  {
    if pages != [] {
      var n := |pages|;
      GatheredLength(factory, pages[..n - 1]);
      OffsetPrefix(pages, n - 1, n - 1);
    }
  }

  /**
   * The i-th item of page j is the object at position Offset(j) + i of
   * the collected sequence: nothing is dropped, duplicated or reordered.
   */
  lemma {:induction false} GatheredAt<T>(factory: Value -> T, pages: seq<seq<Value>>, j: nat, i: nat)
    requires j < |pages| && i < |pages[j]|
    ensures |Gathered(factory, pages)| == Offset(pages, |pages|)
    ensures Offset(pages, j) + i < Offset(pages, |pages|)
    ensures Gathered(factory, pages)[Offset(pages, j) + i] == factory(pages[j][i])
  {
    var n := |pages|;
    var init := pages[..n - 1];
    GatheredLength(factory, pages);
    GatheredLength(factory, init);
    OffsetPrefix(pages, n - 1, n - 1);
    if j < n - 1 {
      GatheredAt(factory, init, j, i);
      OffsetPrefix(pages, j, n - 1);
      OffsetMonotone(pages, j + 1, n - 1);
    }
  }

  /** The objects built from pages 0 .. n-1, page after page. */
  function Collected<T>(factory: Value -> T, pages: Pages, n: nat): seq<T>
    requires Passed(pages, n)
  {
    if n == 0 then [] else Collected(factory, pages, n - 1) + Materialize(factory, PageItems(pages.At(n - 1)))
  }

  /** Collecting page by page is gathering the pages' item sequences in order. */
  lemma {:induction false} CollectedGathered<T>(factory: Value -> T, pages: Pages, n: nat)
    requires Passed(pages, n)
    ensures Collected(factory, pages, n) == Gathered(factory, ItemsOf(pages, n))
  {
    if n > 0 {
      CollectedGathered(factory, pages, n - 1);
      assert ItemsOf(pages, n)[..n - 1] == ItemsOf(pages, n - 1);
    }
  }

  /**
   * The inner `foreach` of `getResponseIter`: one factory-built object per
   * raw item is appended, in item order.
   */
  method AppendObjects<T>(classArr: seq<T>, factory: Value -> T, items: seq<Value>) returns (out: seq<T>)
    ensures out == classArr + Materialize(factory, items)
  {
    out := classArr;
    var i := 0;
    while i < |items|
      invariant 0 <= i <= |items|
      invariant |out| == |classArr| + i
      invariant out[..|classArr|] == classArr
      invariant forall m :: 0 <= m < i ==> out[|classArr| + m] == factory(items[m])
    {
      out := out + [factory(items[i])];
      i := i + 1;
    }
  }

  /**
   * The do-while loop of `getResponseIter`. It issues at least one request,
   * the k-th with PageParams(params, k), and stops right after the first
   * last page; `n` is the number of requests issued. If that page failed,
   * its exception is the outcome and nothing collected is returned;
   * otherwise the outcome is every page's objects in page order. `last` is
   * any index at which the server's pages end.
   */
  method FetchPages<T>(getResponse: Dict<Value> -> Result<WishResponse, Exception>,
                            factory: Value -> T, params: Dict<Value>, ghost last: nat)
    returns (r: Result<seq<T>, Exception>, ghost n: nat)
    requires IsLastPage(Served(getResponse, params).At(last))
    ensures 1 <= n
    ensures var pages := Served(getResponse, params);
      && Continues(pages, n - 1) && IsLastPage(pages.At(n - 1))
      && (pages.At(n - 1).Failure? ==> r == Failure(pages.At(n - 1).error))
      && (pages.At(n - 1).Success? ==> Passed(pages, n) && r == Success(Collected(factory, pages, n)))
  {
    ghost var pages := Served(getResponse, params);
    var start := 0;
    var p := Put(params, "limit", Int(Limit));
    var classArr: seq<T> := [];
    n := 0;
    while true
      invariant start == Limit * n
      invariant n == 0 ==> p == Put(params, "limit", Int(Limit))
      invariant n > 0 ==> p == PageParams(params, n - 1)
      invariant Passed(pages, n) && Continues(pages, n)
      invariant classArr == Collected(factory, pages, n)
      decreases last - n
    {
      ContinuesBelowLast(pages, n, last);
      PageParamsStep(params, p, n, start);
      p := Put(p, "start", Int(start));
      var response := getResponse(p);
      n := n + 1;
      assert response == pages.At(n - 1);
      if response.Failure? {
        r := Failure(response.error);
        return;
      }
      var items := ForeachValues(GetData(response.value));
      classArr := AppendObjects(classArr, factory, items);
      assert classArr == Collected(factory, pages, n);
      start := start + Limit;
      if !HasMore(response.value) {
        r := Success(classArr);
        return;
      }
    }
  }

  /**
   * The first last page at or after `k`: the loop, started at page `k`,
   * issues its final request for this page.
   */
  function FirstLastFrom(pages: Pages, k: nat, last: nat): (m: nat)
    requires k <= last && IsLastPage(pages.At(last))
    ensures k <= m <= last && IsLastPage(pages.At(m))
    ensures forall j :: k <= j < m ==> !IsLastPage(pages.At(j))
    decreases last - k
  {
    if IsLastPage(pages.At(k)) then k else FirstLastFrom(pages, k + 1, last)
  }

  /** The index of the first last page. */
  function FirstLast(pages: Pages, last: nat): (m: nat)
    requires IsLastPage(pages.At(last))
    ensures m <= last && IsLastPage(pages.At(m))
    ensures forall j :: 0 <= j < m ==> !IsLastPage(pages.At(j))
  {
    FirstLastFrom(pages, 0, last)
  }

  lemma {:induction false} FirstLastFromIs(pages: Pages, k: nat, m: nat, last: nat)
    requires k <= m && k <= last && IsLastPage(pages.At(m)) && IsLastPage(pages.At(last))
    requires forall j :: k <= j < m ==> !IsLastPage(pages.At(j))
    ensures FirstLastFrom(pages, k, last) == m
    decreases m - k
  {
    if k < m {
      FirstLastFromIs(pages, k + 1, m, last);
    }
  }

  /**
   * A last page reached after the loop went on past every earlier page is
   * the first last page; no page before it is one.
   */
  lemma FirstLastIs(pages: Pages, m: nat, last: nat)
    requires Continues(pages, m) && IsLastPage(pages.At(m)) && IsLastPage(pages.At(last))
    ensures FirstLast(pages, last) == m
    ensures forall j :: 0 <= j < m ==> !IsLastPage(pages.At(j))
  {
    ContinuesAt(pages, m);
    FirstLastFromIs(pages, 0, m, last);
  }

  /**
   * `getResponseIter`: the outcome is decided by the first last page. If it
   * failed, its exception propagates and no array is returned; otherwise the
   * array holds the objects of that page and of every page before it, in
   * page order. `getResponse` is the client's call with the method and path
   * fixed (ClientPages).
   */
  method GetResponseIter<T>(getResponse: Dict<Value> -> Result<WishResponse, Exception>,
                            factory: Value -> T, params: Dict<Value>, ghost last: nat)
    returns (r: Result<seq<T>, Exception>)
    requires IsLastPage(Served(getResponse, params).At(last))
    ensures var pages := Served(getResponse, params); var m := FirstLast(pages, last);
      && (pages.At(m).Failure? ==> r == Failure(pages.At(m).error))
      && (pages.At(m).Success? ==> Passed(pages, m + 1) && r == Success(Collected(factory, pages, m + 1)))
  {
    ghost var n;
    r, n := FetchPages(getResponse, factory, params, last);
    FirstLastIs(Served(getResponse, params), n - 1, last);
  }

  // ---- two by-id calls ----

  /** The parameters of `fulfillOrderById`: the tracker's, with `id` set to the argument. */
  function FulfillParams(trackerParams: Dict<Value>, id: Value): (p: Dict<Value>)
    ensures Get(p, "id") == Some(id)
    ensures forall k :: k != "id" ==> Get(p, k) == Get(trackerParams, k)
  {
    Put(trackerParams, "id", id)
  }

  /** The parameters of `refundOrderById`: `reason_note` only for a truthy note. */
  function RefundParams(id: Value, reason: Value, note: Value): (p: Dict<Value>)
    ensures p.keys == ["id", "reason_code"] + (if Truthy(note) then ["reason_note"] else [])
    ensures Get(p, "id") == Some(id) && Get(p, "reason_code") == Some(reason)
    ensures Get(p, "reason_note") == if Truthy(note) then Some(note) else None
  {
    var p := Put(Put(Empty(), "id", id), "reason_code", reason);
    if Truthy(note) then Put(p, "reason_note", note) else p
  }

  /** The request `fulfillOrderById` sends. */
  function FulfillRequest(client: WishClient, id: Value, trackerParams: Dict<Value>): WishRequest {
    NewRequest(client.session, "POST", "order/fulfill-one", FulfillParams(trackerParams, id))
  }

  /** The request `refundOrderById` sends. */
  function RefundRequest(client: WishClient, id: Value, reason: Value, note: Value): WishRequest {
    NewRequest(client.session, "POST", "order/refund", RefundParams(id, reason, note))
  }

  /**
   * `fulfillOrderById`: the data of a delivered response whose code is
   * loosely 0; a send failure propagates, and every other code raises with
   * the fulfilment request. The tracker's parameters are passed as given,
   * since the tracker class is not part of this model.
   */
  function FulfillOrderById(client: WishClient, oracle: Oracle, id: Value, trackerParams: Dict<Value>): (r: Result<Value, Exception>)
    ensures var sent := Execute(FulfillRequest(client, id, trackerParams), oracle);
      && (sent.Failure? ==> r == Failure(sent.error))
      && (sent.Success? ==> (r.Success? <==> LooseEqualsInt(GetStatusCode(sent.value), 0)))
      && (r.Success? ==> sent.Success? && r.value == GetData(sent.value))
      && (sent.Success? && r.Failure? ==> r.error == Classify(FulfillRequest(client, id, trackerParams), sent.value).error)
    ensures r.Failure? && r.error.Service? ==>
      var q := r.error.error.request;
      && q == FulfillRequest(client, id, trackerParams)
      && q.httpMethod == "POST" && q.path == "order/fulfill-one" && Get(q.params, "id") == Some(id)
  {
    match GetResponse(client, oracle, "POST", "order/fulfill-one", FulfillParams(trackerParams, id))
    case Failure(e) => Failure(e)
    case Success(response) => Success(GetData(response))
  }

  /**
   * `refundOrderById`: the same outcome rules, for the refund request; the
   * note defaults to null.
   */
  function RefundOrderById(client: WishClient, oracle: Oracle, id: Value, reason: Value, note: Value := Null): (r: Result<Value, Exception>)
    ensures var sent := Execute(RefundRequest(client, id, reason, note), oracle);
      && (sent.Failure? ==> r == Failure(sent.error))
      && (sent.Success? ==> (r.Success? <==> LooseEqualsInt(GetStatusCode(sent.value), 0)))
      && (r.Success? ==> sent.Success? && r.value == GetData(sent.value))
      && (sent.Success? && r.Failure? ==> r.error == Classify(RefundRequest(client, id, reason, note), sent.value).error)
    ensures r.Failure? && r.error.Service? ==>
      var q := r.error.error.request;
      && q == RefundRequest(client, id, reason, note)
      && q.httpMethod == "POST" && q.path == "order/refund"
      && Get(q.params, "id") == Some(id) && Get(q.params, "reason_code") == Some(reason)
      && Get(q.params, "reason_note") == if Truthy(note) then Some(note) else None
  {
    match GetResponse(client, oracle, "POST", "order/refund", RefundParams(id, reason, note))
    case Failure(e) => Failure(e)
    case Success(response) => Success(GetData(response))
  }

  /**
   * A fulfilment whose reply carries code 1002 raises the
   * order-already-fulfilled exception, with the fulfilment request and
   * that reply.
   */
  lemma FulfillAlreadyFulfilled(client: WishClient, oracle: Oracle, id: Value, trackerParams: Dict<Value>)
    requires var sent := Execute(FulfillRequest(client, id, trackerParams), oracle);
      sent.Success? && GetStatusCode(sent.value) == Int(1002)
    ensures var sent := Execute(FulfillRequest(client, id, trackerParams), oracle);
      FulfillOrderById(client, oracle, id, trackerParams) ==
        Failure(Service(ServiceError(OrderAlreadyFulfilled, "Order has been fulfilled", FulfillRequest(client, id, trackerParams), sent.value)))
  {
  }

  /**
   * The fulfilment request carries `id` = the argument over any tracker
   * value, the session's token, and every other tracker parameter unchanged.
   */
  lemma FulfillRequestParams(client: WishClient, id: Value, trackerParams: Dict<Value>)
    ensures var q := FulfillRequest(client, id, trackerParams).params;
      && Get(q, "id") == Some(id)
      && Get(q, AccessTokenKey) == Some(client.session.accessToken)
      && forall k :: k !in {"id", AccessTokenKey, MerchantIdKey} ==> Get(q, k) == Get(trackerParams, k)
  {
  }

  /**
   * The refund request's keys, in order: `id`, `reason_code`, `reason_note`
   * for a truthy note only, then the injected `access_token` and, for a
   * truthy merchant id, `merchant_id`.
   */
  lemma RefundRequestParams(client: WishClient, id: Value, reason: Value, note: Value)
    ensures var q := RefundRequest(client, id, reason, note).params;
      && q.keys == ["id", "reason_code"] + (if Truthy(note) then ["reason_note"] else [])
                   + [AccessTokenKey] + (if Truthy(client.session.merchantId) then [MerchantIdKey] else [])
      && Get(q, "id") == Some(id) && Get(q, "reason_code") == Some(reason)
      && Get(q, "reason_note") == (if Truthy(note) then Some(note) else None)
      && Get(q, AccessTokenKey) == Some(client.session.accessToken)
  {
    var p := RefundParams(id, reason, note);
    assert AccessTokenKey !in p.vals && MerchantIdKey !in p.vals;
  }
}
