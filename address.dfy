/** A shipping address as the order endpoints send it. */
module Address {
  import opened Wrappers
  import opened Dicts
  import opened Php

  /** The seven fields the constructor assigns, each exactly as passed. */
  datatype WishAddress = WishAddress(
    streetAddress1: Value, streetAddress2: Value, city: Value, state: Value,
    zipcode: Value, country: Value, phoneNumber: Value)

  /** The parameter names, in the order `getParams` writes them. */
  const AddressKeys: seq<string> :=
    ["street_address1", "street_address2", "city", "state", "zipcode", "country", "phone_number"]

  /**
   * `getParams`: the seven fields under their parameter names, written one
   * after the other into a fresh array. The names are distinct, so each
   * write appends a new key and the array is this literal.
   */
  function GetParams(a: WishAddress): (p: Dict<Value>)
    ensures p.WellFormed() && p.keys == AddressKeys
  {
    Dict(AddressKeys,
         map["street_address1" := a.streetAddress1, "street_address2" := a.streetAddress2,
             "city" := a.city, "state" := a.state, "zipcode" := a.zipcode,
             "country" := a.country, "phone_number" := a.phoneNumber])
  }

  /**
   * Each parameter is the constructor argument it was assigned from, null
   * ones included: every key is present whatever the arguments are.
   */
  lemma GetParamsFields(addr1: Value, addr2: Value, city: Value, state: Value, zip: Value, country: Value, phone: Value)
    ensures var p := GetParams(WishAddress(addr1, addr2, city, state, zip, country, phone));
      && p.keys == ["street_address1", "street_address2", "city", "state", "zipcode", "country", "phone_number"]
      && Get(p, "street_address1") == Some(addr1) && Get(p, "street_address2") == Some(addr2)
      && Get(p, "city") == Some(city) && Get(p, "state") == Some(state)
      && Get(p, "zipcode") == Some(zip) && Get(p, "country") == Some(country)
      && Get(p, "phone_number") == Some(phone)
  {
  }

  /** No other key is ever present. */
  lemma GetParamsOnlyFields(a: WishAddress, k: string)
    requires k !in AddressKeys
    ensures Get(GetParams(a), k) == None
  {
  }
}
