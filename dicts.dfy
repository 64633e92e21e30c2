/**
 * Ordered dictionaries with string keys: the shape of a PHP array used as a
 * map (request parameters, parse_str output) and of a PHP object's property
 * table. Iteration follows `keys`, the insertion order.
 */
module Dicts {
  import opened Wrappers

  datatype Dict<V> = Dict(keys: seq<string>, vals: map<string, V>)
  {
    /** Every key occurs once, and the key list and the map agree. */
    predicate WellFormed() {
      && (forall i, j :: 0 <= i < j < |keys| ==> keys[i] != keys[j])
      && (forall k :: k in vals ==> k in keys)
      && (forall k :: k in keys ==> k in vals)
    }
  }

  function Empty<V>(): (r: Dict<V>)
    ensures r.WellFormed() && r.keys == []
  {
    Dict([], map[])
  }

  /** `$d[$k] ?? null`, with the absence made explicit. */
  function Get<V>(d: Dict<V>, k: string): Option<V> {
    if k in d.vals then Some(d.vals[k]) else None
  }

  /** `$d[$k] = $v`: an existing key keeps its position, a new key goes last. */
  function Put<V>(d: Dict<V>, k: string, v: V): (r: Dict<V>)
    ensures Get(r, k) == Some(v)
    ensures forall k' :: k' != k ==> Get(r, k') == Get(d, k')
    ensures r.keys == if k in d.vals then d.keys else d.keys + [k]
  {
    var keys := if k in d.vals then d.keys else d.keys + [k];
    Dict(keys, d.vals[k := v])
  }

  /** A write keeps a dictionary well-formed. */
  lemma PutWellFormed<V>(d: Dict<V>, k: string, v: V)
    requires d.WellFormed()
    ensures Put(d, k, v).WellFormed()
  {
    var keys := Put(d, k, v).keys;
    forall i, j | 0 <= i < j < |keys| ensures keys[i] != keys[j] {
      if k !in d.vals && j == |d.keys| {
        assert keys[i] == d.keys[i];
      }
    }
  }

  /** A second write to the same key replaces the value and leaves the key order alone. */
  lemma PutPut<V>(d: Dict<V>, k: string, a: V, b: V)
    ensures Put(Put(d, k, a), k, b) == Put(d, k, b)
  {
  }

  /** The first `n` entries of `d`, in order. */
  function Prefix<V>(d: Dict<V>, n: nat): (r: Dict<V>)
    requires d.WellFormed() && n <= |d.keys|
    ensures r.WellFormed() && r.keys == d.keys[..n]
    ensures forall k :: k in r.vals ==> k in d.vals && r.vals[k] == d.vals[k]
  {
    var ks := d.keys[..n];
    var r := Dict(ks, map k | k in ks :: d.vals[k]);
    assert r.WellFormed() by {
      forall i, j | 0 <= i < j < |ks| ensures ks[i] != ks[j] {
        assert ks[i] == d.keys[i] && ks[j] == d.keys[j];
      }
    }
    r
  }

  /**
   * Writing the entries of `d` one by one, in order, into an empty
   * dictionary rebuilds `d`: what `foreach ($d as $k => $v) $o[$k] = $v`
   * computes.
   */
  lemma {:induction false} PrefixStep<V>(d: Dict<V>, n: nat)
    requires d.WellFormed() && n < |d.keys|
    ensures Put(Prefix(d, n), d.keys[n], d.vals[d.keys[n]]) == Prefix(d, n + 1)
  {
    var p, q := Prefix(d, n), Prefix(d, n + 1);
    var k := d.keys[n];
    assert k !in p.vals;
    assert d.keys[..n + 1] == d.keys[..n] + [k];
    var r := Put(p, k, d.vals[k]);
    assert r.keys == q.keys;
    assert r.vals == q.vals;
  }

  lemma PrefixAll<V>(d: Dict<V>)
    requires d.WellFormed()
    ensures Prefix(d, |d.keys|) == d
  {
    assert d.keys[..|d.keys|] == d.keys;
  }
}
