/** JSON values as they come out of `JSON.parse`, and the JavaScript coercions
    the service applies to them. */
module Json {
  import opened Wrappers
  import Strings

  /** A JSON value. Numbers are modelled as integers; an object is a map from
      key to value (JSON.parse keeps the last of duplicated keys). */
  datatype Value =
    | Null
    | Bool(b: bool)
    | Num(n: int)
    | Str(s: string)
    | Arr(items: seq<Value>)
    | Obj(fields: map<string, Value>)

  /** The attributes of a JSON object or table row. */
  type Attrs = map<string, Value>

  /** JavaScript truthiness: what `if (v)` accepts. */
  predicate Truthy(v: Value)
  {
    match v
    case Null => false
    case Bool(b) => b
    case Num(n) => n != 0
    case Str(s) => s != ""
    case _ => true
  }

  /** `a.key` is present and truthy: what `if (a.key)` accepts. */
  predicate PresentAndTruthy(a: Attrs, key: string)
  {
    key in a && Truthy(a[key])
  }

  /** A string, number or boolean: the value types a cleansed object keeps. */
  predicate IsScalar(v: Value)
  {
    v.Bool? || v.Num? || v.Str?
  }

  /** `v instanceof Object` for a value that went through a JSON round trip. */
  predicate IsContainer(v: Value)
  {
    v.Arr? || v.Obj?
  }

  /** `a === b` for values that went through a JSON round trip: primitives
      compare by value, two objects or arrays are never the same object. */
  predicate StrictEquals(a: Value, b: Value)
  {
    !IsContainer(a) && a == b
  }

  /** The string attribute `key` of `a`, if it is present and a string. */
  function Text(a: Attrs, key: string): (r: Option<string>)
    ensures r.Some? <==> key in a && a[key].Str?
    ensures r.Some? ==> a[key] == Str(r.value)
  {
    if key in a && a[key].Str? then Some(a[key].s) else None
  }

  /** Decimal text of a natural number. */
  function NatText(n: nat): (r: string)
    ensures |r| >= 1
    ensures forall i :: 0 <= i < |r| ==> '0' <= r[i] <= '9'
  {
    var d := ['0' + (n % 10) as char];
    if n < 10 then d else NatText(n / 10) + d
  }

  /** `String(n)` for an integer. */
  function IntText(n: int): string
  {
    if n < 0 then "-" + NatText(-n) else NatText(n)
  }

  /** `String(v)`: how JavaScript turns a value into a property key. */
  function ToText(v: Value): string
  {
    match v
    case Null => "null"
    case Bool(b) => if b then "true" else "false"
    case Num(n) => IntText(n)
    case Str(s) => s
    case Arr(items) =>
      Strings.Join(seq(|items|, i requires 0 <= i < |items| =>
        if items[i].Null? then "" else ToText(items[i])), ',')
    case Obj(_) => "[object Object]"
  }
}
