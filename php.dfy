/**
 * The PHP values the SDK handles and the parts of PHP's semantics its code
 * relies on: truthiness, loose `==` against an integer literal, property
 * access `$v->name`, `isset`, and what `foreach` visits.
 */
module Php {
  import opened Dicts

  /**
   * `List` is a JSON array as json_decode returns it, `Assoc` a PHP array
   * with string keys (what parse_str fills in), `Object` a stdClass from
   * json_decode with its property table. Floats are not modelled.
   */
  datatype Value =
    | Null
    | Bool(b: bool)
    | Int(i: int)
    | Str(s: string)
    | List(items: seq<Value>)
    | Assoc(entries: Dict<Value>)
    | Object(props: Dict<Value>)

  /** PHP's conversion to bool: `if ($v)`. */
  predicate Truthy(v: Value) {
    match v
    case Null => false
    case Bool(b) => b
    case Int(i) => i != 0
    case Str(s) => s != "" && s != "0"
    case List(items) => items != []
    case Assoc(d) => d.keys != []
    case Object(_) => true
  }

  function DigitChar(d: nat): char
    requires d < 10
  {
    "0123456789"[d]
  }

  function Digits(n: nat): string {
    if n < 10 then [DigitChar(n)] else Digits(n / 10) + [DigitChar(n % 10)]
  }

  /** The canonical decimal text of an integer, as PHP prints it. */
  function Decimal(n: int): string {
    if n < 0 then "-" + Digits(-n) else Digits(n)
  }

  /**
   * `$v == n` for an integer literal `n`. Null and booleans compare as
   * booleans, arrays never equal an integer, objects convert to 1; a string
   * equals `n` when it is `n`'s canonical decimal text.
   */
  predicate LooseEqualsInt(v: Value, n: int) {
    match v
    case Null => n == 0
    case Bool(b) => b == (n != 0)
    case Int(i) => i == n
    case Str(s) => s == Decimal(n)
    case List(_) => false
    case Assoc(_) => false
    case Object(_) => n == 1
  }

  /** `$v->name`: a property of an object, null for a missing property or a non-object. */
  function Property(v: Value, name: string): (r: Value)
    ensures v.Object? && name in v.props.vals ==> r == v.props.vals[name]
    ensures !(v.Object? && name in v.props.vals) ==> r == Null
  {
    if v.Object? then (match Get(v.props, name) case Some(x) => x case None => Null) else Null
  }

  /** `isset($v->name)`: the property exists and is not null. */
  predicate IssetProperty(v: Value, name: string) {
    Property(v, name) != Null
  }

  /** `isset($o->$k)` on a property table. */
  predicate IsSet(props: Dict<Value>, k: string) {
    k in props.vals && props.vals[k] != Null
  }

  /** The values of a property table or array in key order (every key has one in a well-formed table). */
  function EntryValues(d: Dict<Value>): (vs: seq<Value>)
    ensures |vs| == |d.keys|
    ensures d.WellFormed() ==> forall i :: 0 <= i < |d.keys| ==> vs[i] == d.vals[d.keys[i]]
  {
    seq(|d.keys|, i requires 0 <= i < |d.keys| => if d.keys[i] in d.vals then d.vals[d.keys[i]] else Null)
  }

  /** The values `foreach ($v as $x)` visits; a scalar or null visits nothing. */
  function ForeachValues(v: Value): seq<Value> {
    match v
    case List(items) => items
    case Assoc(d) => EntryValues(d)
    case Object(d) => EntryValues(d)
    case _ => []
  }

  /** `get_object_vars($v)`: an object's property table; no properties for anything else. */
  function ObjectVars(v: Value): Dict<Value> {
    if v.Object? then v.props else Empty()
  }
}
