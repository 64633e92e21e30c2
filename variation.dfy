/**
 * A product variation: an object whose properties are copied from the
 * `Variant` field of an API record, and projected back onto a list of
 * parameter names.
 */
module Variation {
  import opened Wrappers
  import opened Dicts
  import opened Php

  /**
   * The requested names that are set on an object, each once, in the order
   * of their first occurrence in `keys`.
   */
  function Selected(props: Dict<Value>, keys: seq<string>): seq<string>
  {
    if keys == [] then []
    else
      var s := Selected(props, keys[..|keys| - 1]);
      var k := keys[|keys| - 1];
      if IsSet(props, k) && k !in s then s + [k] else s
  }

  /** The position of the first occurrence of `x` in `keys`. */
  function FirstIndex(keys: seq<string>, x: string): (i: nat)
    requires x in keys
    ensures i < |keys| && keys[i] == x
    ensures forall j :: 0 <= j < i ==> keys[j] != x
  {
    var init := keys[..|keys| - 1];
    if x in init then FirstIndex(init, x) else |keys| - 1
  }

  /**
   * A name is selected exactly when it is requested and set; no name is
   * selected twice; and the selected names keep the order of their first
   * requests.
   */
  lemma {:induction false} SelectedSpec(props: Dict<Value>, keys: seq<string>)
    ensures forall k :: k in Selected(props, keys) <==> k in keys && IsSet(props, k)
    ensures forall i, j :: 0 <= i < j < |Selected(props, keys)| ==> Selected(props, keys)[i] != Selected(props, keys)[j]
    ensures forall i, j :: 0 <= i < j < |Selected(props, keys)| ==>
      FirstIndex(keys, Selected(props, keys)[i]) < FirstIndex(keys, Selected(props, keys)[j])
  {
    if keys != [] {
      var init := keys[..|keys| - 1];
      var k := keys[|keys| - 1];
      var s := Selected(props, init);
      SelectedSpec(props, init);
      forall x | x in s ensures x in init && FirstIndex(keys, x) == FirstIndex(init, x) {
      }
      if IsSet(props, k) && k !in s {
        assert k !in init;
        assert FirstIndex(keys, k) == |keys| - 1;
      }
    }
  }

  class WishProductVariation {
    /** The object's dynamic properties, in the order they were written. */
    var props: Dict<Value>

    /**
     * The constructor: every property of `$variant->Variant` is written
     * onto the new object under the same name, in order (into a local table
     * that becomes the object's properties once the loop is done). A record
     * without an object there gives an object with no properties.
     */
    constructor (variant: Value)
      ensures props.WellFormed()
      ensures ObjectVars(Property(variant, "Variant")).WellFormed() ==> props == ObjectVars(Property(variant, "Variant"))
    {
      var vars := ObjectVars(Property(variant, "Variant"));
      var vals := EntryValues(vars);
      var copied := Empty();
      var i := 0;
      while i < |vars.keys|
        invariant 0 <= i <= |vars.keys|
        invariant copied.WellFormed()
        invariant vars.WellFormed() ==> copied == Prefix(vars, i)
      {
        var key, val := vars.keys[i], vals[i];
        PutWellFormed(copied, key, val);
        if vars.WellFormed() {
          PrefixStep(vars, i);
        }
        copied := Put(copied, key, val);
        i := i + 1;
      }
      if vars.WellFormed() {
        PrefixAll(vars);
      }
      props := copied;
    }

    /**
     * `getParams($keys)`: the requested properties that are set (present
     * and not null), with their values, in the order of their first
     * request. The object is not changed.
     */
    method GetParams(keys: seq<string>) returns (params: Dict<Value>)
      ensures params.WellFormed()
      ensures forall k :: k in params.vals <==> k in keys && IsSet(props, k)
      ensures forall k :: k in params.vals ==> k in props.vals && params.vals[k] == props.vals[k]
      ensures params.keys == Selected(props, keys)
    {
      params := Empty();
      var i := 0;
      while i < |keys|
        invariant 0 <= i <= |keys|
        invariant params.WellFormed()
        invariant params.keys == Selected(props, keys[..i])
        invariant forall k :: k in params.vals ==> IsSet(props, k) && params.vals[k] == props.vals[k]
      {
        var key := keys[i];
        assert keys[..i + 1][..i] == keys[..i];
        if IsSet(props, key) {
          PutWellFormed(params, key, props.vals[key]);
          params := Put(params, key, props.vals[key]);
        }
        i := i + 1;
      }
      assert keys[..i] == keys;
      SelectedSpec(props, keys);
    }
  }
}
