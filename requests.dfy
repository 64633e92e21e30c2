/** A request to the merchant API: its session, method, path and outgoing parameters. */
module Requests {
  import opened Wrappers
  import opened Dicts
  import opened Php
  import opened Sessions

  const Version := "v2/"
  const BaseProdPath := "https://merchant.wish.com/api/"
  const BaseSandboxPath := "https://sandbox.merchant.wish.com/api/"
  const BaseStagePath := "https://merch.corp.contextlogic.com/api/"

  const AccessTokenKey := "access_token"
  const MerchantIdKey := "merchant_id"

  datatype WishRequest = WishRequest(session: WishSession, httpMethod: string, path: string, params: Dict<Value>)

  /**
   * The constructor: the session's token is written over any caller value
   * of `access_token`, and its merchant id over `merchant_id` only when that
   * id is truthy.
   */
  function NewRequest(session: WishSession, httpMethod: string, path: string, params: Dict<Value> := Empty()): (r: WishRequest)
    ensures r.session == session && r.httpMethod == httpMethod && r.path == path
    ensures Get(r.params, AccessTokenKey) == Some(session.accessToken)
    ensures Get(r.params, MerchantIdKey) ==
              if Truthy(session.merchantId) then Some(session.merchantId) else Get(params, MerchantIdKey)
    ensures forall k :: k != AccessTokenKey && k != MerchantIdKey ==> Get(r.params, k) == Get(params, k)
    ensures |params.keys| <= |r.params.keys| && r.params.keys[..|params.keys|] == params.keys
    ensures r.params.keys == params.keys
              + (if AccessTokenKey in params.vals then [] else [AccessTokenKey])
              + (if Truthy(session.merchantId) && MerchantIdKey !in params.vals then [MerchantIdKey] else [])
  {
    var withToken := Put(params, AccessTokenKey, session.accessToken);
    var all := if Truthy(session.merchantId) then Put(withToken, MerchantIdKey, session.merchantId) else withToken;
    WishRequest(session, httpMethod, path, all)
  }

  /** Injecting the credentials keeps a well-formed parameter table well-formed. */
  lemma NewRequestWellFormed(session: WishSession, httpMethod: string, path: string, params: Dict<Value>)
    requires params.WellFormed()
    ensures NewRequest(session, httpMethod, path, params).params.WellFormed()
  {
    var withToken := Put(params, AccessTokenKey, session.accessToken);
    PutWellFormed(params, AccessTokenKey, session.accessToken);
    PutWellFormed(withToken, MerchantIdKey, session.merchantId);
  }

  /** The host part of `getRequestURL`; None where it throws. */
  function BaseUrl(t: SessionType): Option<string> {
    match t
    case Prod => Some(BaseProdPath)
    case Sandbox => Some(BaseSandboxPath)
    case Stage => Some(BaseStagePath)
    case Other(_) => None
  }

  /** The three recognised session types select three different hosts; every other type none. */
  lemma BaseUrlSelection(t: SessionType)
    ensures BaseUrl(t).Some? <==> (t == Prod || t == Sandbox || t == Stage)
    ensures t == Prod ==> BaseUrl(t) == Some("https://merchant.wish.com/api/")
    ensures t == Sandbox ==> BaseUrl(t) == Some("https://sandbox.merchant.wish.com/api/")
    ensures t == Stage ==> BaseUrl(t) == Some("https://merch.corp.contextlogic.com/api/")
    ensures forall u :: BaseUrl(u).Some? && BaseUrl(u) == BaseUrl(t) ==> u == t
  {
  }
}
