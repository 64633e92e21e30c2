# Wish merchant API client — request pipeline model

This project models the request pipeline of the Wish merchant PHP SDK. It covers six parts:

- **Building a request.** The session's credentials are written into the caller's parameters. The session type selects one of three hosts.
- **Sending and decoding.** The request is sent. The body is decoded as JSON, with a fallback to a key/value parse.
- **Classifying the status code.** `WishClient::getResponse` maps the response's `code` to a typed exception, or passes the response through.
- **Pagination.** `WishClient::getResponseIter` fetches a listing page by page.
- **Token exchange.** `WishAuth` runs narrower checks on token requests.
- **Response envelope, exception object and two parameter projections.** These are the accessors of `WishResponse`, the `ServiceResponseException` object, and the `getParams` of `WishAddress` and `WishProductVariation`.

## What is abstract

The network and PHP's parsers are abstract. They are the functions of an `Execution.Oracle`:

- the transport, i.e. curl;
- `json_decode`;
- `parse_str`;
- `http_build_query`;
- the pager's `hasNext()`.

Each is pure and deterministic.

## Value and data modelling

- **PHP values.** A value is `Php.Value`. An ordered PHP array or property table is `Dicts.Dict`: a key list in insertion order plus a map. `Dicts.Put` is `$a[$k] = $v`: an existing key keeps its place and a new key goes last.
- **Immutable objects are datatypes with functions.** Requests, responses, the client, the auth facade and addresses never change after construction.
- **Objects the source updates in place are classes.** These are `ServiceResponseException` (through `setResponse`) and `WishProductVariation` (whose constructor loops writing properties).
- **Loops are methods with invariants.** The pagination loop and the two loops of `WishProductVariation` are each proved against a specification function:
  - for pagination, `Client.Collected` over `Client.Pages`;
  - for `WishProductVariation`, `Dicts.Prefix` and `Variation.Selected`.

## Model

| member | source | states |
|---|---|---|
| Requests.NewRequest | src/Wish/WishRequest.php:47-60 | The outgoing `access_token` is always the session's token, whatever the caller passed. `merchant_id` is overwritten only when the session's merchant id is truthy; otherwise the caller's value (or its absence) survives. Every other caller key keeps its value. The key order is the caller's keys, then `access_token` if it was new, then `merchant_id` if it was written and new. |
| Requests.NewRequestWellFormed | src/Wish/WishRequest.php:53-57 | Writing the credentials into a well-formed parameter table keeps it well-formed: each key once, and the key list agreeing with the values. |
| Requests.BaseUrlSelection | src/Wish/WishRequest.php:29-32 | Prod, sandbox and stage select the three fixed hosts, which are distinct. Every other session type selects none. |
| Execution.RequestUrl | src/Wish/WishRequest.php:73-85 | `getRequestURL` gives the host of a recognised session type. For any other type it is the `InvalidArgumentException` "Invalid session type". |
| Execution.Compose | src/Wish/WishRequest.php:94-110 | The URL starts with host + "v2/" + path. For method "GET" (strict comparison), the URL is followed by "?" and the encoded parameters, and there is no body. For every other method, the URL has no query and the parameters are the body. |
| Execution.DecodeBody | src/Wish/WishRequest.php:126-135 | If JSON decoding gives null, the response data is the key/value parse of the body; otherwise it is the decoded value. Either way the raw body and the request are kept. |
| Execution.Execute | src/Wish/WishRequest.php:92-136 | An unrecognised session type fails with "Invalid session type". The only failures are that one and a connection error. A response always carries the request that produced it. |
| Execution.InvalidSessionSendsNothing | src/Wish/WishRequest.php:94-95 | With an unrecognised session type, the outcome does not depend on the transport: the URL is resolved before any connection is opened. |
| Execution.ExecuteOutcome | src/Wish/WishRequest.php:115-135 | A transport error becomes a `ConnectionException` with the transport's message, and no response is built. A delivered body becomes the decoded response. In both cases the transport saw the composed call. |
| Responses.NewResponse | src/Wish/WishResponse.php:37-45 | The request, data and raw body are stored as given. A pager is attached exactly when the data's `paging` is set, and it wraps that value. |
| Responses.EnvelopeAccessors | src/Wish/WishResponse.php:50-105 | For an object body, `getStatusCode`, `getData` and `getMessage` read its `code`, `data` and `message` fields, or give null when a field is missing. `getRequest` and `getRawResponse` give the constructor's arguments. |
| Responses.HasMorePaging | src/Wish/WishResponse.php:42-73 | `hasMore` is false without `paging`. With `paging`, it is the pager's `hasNext()`. |
| Responses.NonObjectEnvelope | src/Wish/WishResponse.php:50-81 | A body that is not an object (such as the key/value fallback array) has no code, data or message, and no more pages. |
| Exceptions.ServiceResponseException.constructor | src/Wish/Exception/ServiceResponseException.php:41-46 | The message, request and response are stored unchanged. The type and code fields are null. |
| Exceptions.ServiceResponseException.GetErrorMessage | src/Wish/Exception/ServiceResponseException.php:91-94 | Null without a response; otherwise the response's message. |
| Exceptions.ServiceResponseException.GetStatusCode | src/Wish/Exception/ServiceResponseException.php:99-102 | Null without a response; otherwise the response's status code. |
| Exceptions.ServiceResponseException.GetExceptionType | src/Wish/Exception/ServiceResponseException.php:59-62 | Always null, since the field (declared at lines 31-32) is never assigned. |
| Exceptions.ServiceResponseException.GetExceptionCode | src/Wish/Exception/ServiceResponseException.php:51-54 | Always null, since the field (declared at lines 31-32) is never assigned. |
| Exceptions.ServiceResponseException.SetResponse | src/Wish/Exception/ServiceResponseException.php:75-86 | Afterwards, `getResponse`, `getStatusCode` and `getErrorMessage` all reflect the new response. The request and the unassigned fields are unchanged. |
| Exceptions.FromError | src/Wish/Exception/ServiceResponseException.php:41-70 | An exception thrown with a request and a response keeps both: `getRequest` is that request, and its status code and message are the response's. |
| Client.Classify | src/Wish/WishClient.php:67-91 | The response is returned unchanged exactly when its code loosely equals 0, which includes an absent code. Every exception carries the same request and response. |
| Client.ClassifyIntegerCode | src/Wish/WishClient.php:67-88 | For an integer code, the guard chain follows the error table: 4000 "Unauthorized access", 1015 "Access Token expired" and 1016 "Access Token revoked" are unauthorized-request errors; 1000 is "Invalid parameter"; 1002 is order-already-fulfilled; any other nonzero code is "Unknown error"; 0 passes. |
| Client.FallbackBodyPasses | src/Wish/WishClient.php:86-91 | A body that did not decode as JSON has no code, so the classifier passes it through. |
| Client.GetResponse | src/Wish/WishClient.php:61-91 | A failure of `execute` propagates unchanged. A delivered response is classified: the outcome is `Client.Classify` of the request built from the session, method, path and parameters and that response. So the response comes back unchanged exactly when its code loosely equals 0, and otherwise the guard chain's exception is raised. The parameters default to an empty array. |
| Client.PageParamsClosed | src/Wish/WishClient.php:105-116 | The k-th page's parameters are the caller's with `limit` = 50 and `start` = 50k. Repeated writes of `start` leave one entry. |
| Client.PageRequestParams | src/Wish/WishClient.php:104-116 | The k-th page request carries `start` = 50k and `limit` = 50 over any caller value, along with the session's token. Every other caller parameter is unchanged. |
| Client.ClientPage | src/Wish/WishClient.php:108-110 | For the client, page k is `getResponse` on the k-th page parameters. A page that passed answers the request built from them. |
| Client.PassedAt | src/Wish/WishClient.php:108-118 | "Pages 0..n-1 passed" means each of those pages succeeded. |
| Client.ContinuesAt | src/Wish/WishClient.php:108-118 | The loop continued past pages 0..n-1 exactly when none of them is a last page. |
| Client.ItemsOfAt | src/Wish/WishClient.php:112-114 | The j-th entry of the item sequences is page j's data items. |
| Client.ContinuesBelowLast | src/Wish/WishClient.php:118 | A run that continued past n pages has not reached a last page, so the loop ends. |
| Client.Materialize | src/Wish/WishClient.php:112-114 | One factory-built object per raw item, in item order. |
| Client.GatheredAt | src/Wish/WishClient.php:112-114 | Item i of page j is at position offset(j) + i of the result, and the length is the total item count. Nothing is dropped, duplicated or reordered across pages. |
| Client.CollectedGathered | src/Wish/WishClient.php:107-118 | Collecting page by page equals gathering all pages' items in page order. |
| Client.AppendObjects | src/Wish/WishClient.php:112-114 | The inner `foreach` appends one factory-built object per item, in order, after what was already collected. |
| Client.FetchPages | src/Wish/WishClient.php:104-120 | The do-while loop issues at least one request, the k-th with the k-th page parameters. It stops right after a last page (one that failed or has no more pages), having gone on past every page before it, so `n`, the number of requests, is that page's index + 1. If that page threw, its exception is the outcome and no array is returned; otherwise the result is every page's objects in page order. |
| Client.FirstLast | src/Wish/WishClient.php:118 | The index of the first last page, a page that failed or reports no more pages: that page is a last page, and no earlier page is one. |
| Client.FirstLastIs | src/Wish/WishClient.php:107-118 | A last page reached after the loop went on past every earlier page is the first last page. |
| Client.GetResponseIter | src/Wish/WishClient.php:102-121 | The outcome is decided by the first last page. If its `getResponse` threw, that exception propagates and no array, partial or otherwise, is returned. Otherwise the array holds one factory-built object per item of that page and of every earlier page, in page order. |
| Client.FulfillParams | src/Wish/WishClient.php:487-488 | The outgoing `id` is the argument even when the tracker's parameters hold one. Every other tracker parameter is unchanged. |
| Client.RefundParams | src/Wish/WishClient.php:514-521 | The parameters are `id` and `reason_code`, plus `reason_note` only for a truthy note, in that order. |
| Client.FulfillOrderById | src/Wish/WishClient.php:485-492 | A send failure propagates. The data of the delivered response is returned exactly when its code loosely equals 0. Otherwise the exception is the one `Client.Classify` raises for the fulfilment request and that response: a POST to `order/fulfill-one` whose `id` is the argument. |
| Client.FulfillAlreadyFulfilled | src/Wish/WishClient.php:83-85 | A fulfilment whose reply carries code 1002 raises the order-already-fulfilled exception "Order has been fulfilled", carrying the fulfilment request and that reply. |
| Client.FulfillRequestParams | src/Wish/WishClient.php:487-488 | The fulfilment request carries `id` = the argument over any tracker value, the session's token, and every other tracker parameter unchanged. |
| Client.RefundOrderById | src/Wish/WishClient.php:512-527 | A send failure propagates. The data of the delivered response is returned exactly when its code loosely equals 0. Otherwise the exception is the one `Client.Classify` raises for the refund request and that response: a POST to `order/refund` with `id`, `reason_code`, and `reason_note` exactly when the note is truthy. The note defaults to null. |
| Client.RefundRequestParams | src/Wish/WishClient.php:514-524 | The refund request's keys, in order: `id`, `reason_code`, `reason_note` for a truthy note only, then `access_token`, then `merchant_id` for a truthy merchant id. |
| Auth.NewAuth | src/Wish/WishAuth.php:39-44 | The facade's session has an empty token, no merchant id and the given session type, which defaults to production. |
| Auth.TokenParams | src/Wish/WishAuth.php:54-62 | The code exchange sends exactly `client_id`, `client_secret`, `code`, `grant_type` = "authorization_code" and `redirect_uri`. |
| Auth.RefreshParams | src/Wish/WishAuth.php:85-92 | The refresh sends exactly `client_id`, `client_secret`, `refresh_token` and `grant_type` = "refresh_token". |
| Auth.TokenGuard | src/Wish/WishAuth.php:67-75 | `getToken` raises "Unauthorized access" on 4000 and "Access code expired" on 1016. Every other code, including 1015 and 1000, returns the response unchanged. |
| Auth.RefreshGuard | src/Wish/WishAuth.php:97-101 | `refreshToken` raises only on 4000. Every other code returns the response unchanged. |
| Auth.GetToken | src/Wish/WishAuth.php:52-76 | POSTs the code exchange to `oauth/access_token` with the facade's session and applies its checks. A failed send propagates. |
| Auth.RefreshToken | src/Wish/WishAuth.php:83-102 | POSTs the refresh to `oauth/refresh_token` and applies its check. A failed send propagates. |
| Auth.TokenGuardIntegerCodes | src/Wish/WishAuth.php:67-101 | For integer codes: `getToken` raises for 4000 and 1016 only, and `refreshToken` for 4000 only. |
| Auth.TokenRequestCredentials | src/Wish/WishAuth.php:43-64 | A code exchange carries `access_token` = "" after the literal keys, and no `merchant_id`. |
| Auth.RefreshRequestCredentials | src/Wish/WishAuth.php:85-94 | A refresh carries `access_token` = "" after the literal keys, and no `merchant_id`, since the facade's session (line 43) has an empty token and no merchant id. |
| Address.GetParams | src/Wish/Model/WishAddress.php:52-63 | Exactly the seven keys, in the written order. |
| Address.GetParamsFields | src/Wish/Model/WishAddress.php:38-60 | Each key holds its constructor argument, with no filtering: a null argument still has its key. |
| Address.GetParamsOnlyFields | src/Wish/Model/WishAddress.php:54-62 | No key outside the seven is present. |
| Variation.WishProductVariation.constructor | src/Wish/Model/WishProductVariation.php:33-42 | Every property of `$variant->Variant` is copied onto the object with the same name and value, in order. |
| Variation.WishProductVariation.GetParams | src/Wish/Model/WishProductVariation.php:49-60 | A requested key is output exactly when the object has it set (isset: present and not null), with the object's value. Output keys follow their first request. The object is unchanged, since the method modifies nothing. |
| Variation.SelectedSpec | src/Wish/Model/WishProductVariation.php:53-57 | The selected keys are a duplicate-free subset of the requested keys. They are exactly the requested keys that are set, ordered by first request. |
| Variation.FirstIndex | src/Wish/Model/WishProductVariation.php:53 | The position of a key's first occurrence in the request list. |
| Dicts.Put | src/Wish/WishRequest.php:53 | An array write sets the key. No other key changes. An existing key keeps its position and a new key is appended. |
| Dicts.PutWellFormed | src/Wish/Model/WishProductVariation.php:55 | An array write keeps keys unique and in agreement with the stored values. |
| Dicts.PrefixStep | src/Wish/Model/WishProductVariation.php:39-41 | Writing the next entry of a table onto a copy of its first n entries gives its first n+1 entries. |
| Php.Property | src/Wish/WishResponse.php:50-53 | `$v->name` is the object's property, or null for a missing property or a non-object. |
| Php.EntryValues | src/Wish/WishClient.php:112 | `foreach` visits one value per key, in key order. |

## Left out

- The curl transport is an oracle function. Timeouts, the user agent, `curl_init` and `curl_close` are not modelled.
- `CURLOPT_HEADER` (src/Wish/WishRequest.php:103) is not modelled either. The oracle's string is taken to be the body handed to the decoder. With that option set, curl returns the status line and headers before the body, so `json_decode` would give null for every reply and the `parse_str` fallback would always run. The model states what follows from such a reply, given `jsonDecode` null:
  - `Client.FallbackBodyPasses`: the classifier lets it through whatever the service's code was;
  - `Responses.NonObjectEnvelope`: it has no data and no more pages, so `getResponseIter` stops after one page with no objects.
- `json_decode`, `parse_str`, `http_build_query` and the pager's `hasNext()` are oracle functions, not interpreted. JSON values are the `Php.Value` datatype, and floats are not among them.
- `ServiceResponseException::__toString` is left out. It formats the runtime stack trace.
- `refundOrder` is left out. It calls `refundOrderById` as a free function, which is not defined.
- `new $getClass($class_raw)` is a factory function parameter of `Client.GetResponseIter`.
- `WishSession`, `WishPager`, `WishTracker` and the exception subclasses are not part of this model:
  - a session is its token, session type and merchant id. The request constructor tests `$session->getMerchantId()` but writes `$session->merchant_id` (src/Wish/WishRequest.php:55-56); the model reads the one merchant id for both, so it assumes the getter returns that property;
  - a pager is its `paging` value and what `hasNext()` said;
  - a subclass is a `Kind`;
  - the tracker's parameters are passed as given.
- The other resource methods of `WishClient` are one-line calls of `getResponse` or `getResponseIter`, and are left out.
- The `WishClient` constructor only builds a session; it is `Client.NewClient`, with no contract.
- `Php.LooseEqualsInt` approximates loose comparison against an integer literal. A string equals `n` only when it is `n`'s canonical decimal text. Leading whitespace, signs, exponents and float strings are not modelled.
- Client.GetResponseIter and Client.FetchPages take a ghost `last`, the index of a page after which the server sends no more. It makes termination provable. The number of requests issued is the ghost result `n` of Client.FetchPages.
- Client.GetResponseIter: the client's own `getResponse` with the method and path fixed is passed in as a function (`Client.ClientPages` builds it). Its page-by-page properties are stated for any such function.
- Variation.WishProductVariation.constructor: the loop writes the properties one by one into a local table, which is assigned to the object's properties after the loop. The object is not reachable from anywhere else before the constructor returns, so only the per-write intermediate states of the object are not modelled.
- Variation.WishProductVariation.constructor: equality with the source table is stated for a well-formed property table (unique keys agreeing with the values), which is what `get_object_vars` returns.
- When `$variant->Variant` is not an object, `get_object_vars` is taken as giving no properties, so the constructor writes nothing. PHP's warning or type error there is not modelled.
- Address.GetParams: `getParams` is modelled as the array literal that its seven writes to a fresh array build. The seven names are distinct, so each write appends.
- `getRequest`, `getResponse` and `getRawResponse` of `WishResponse`, and `getRequest` and `getResponse` of the exception, are field reads. Their properties are stated by the constructors and `SetResponse`.
