/** The JavaScript values a manifest fragment can hold, with the few pieces of
    JavaScript semantics the manifest builder relies on: truthiness, lodash's
    isObject/isArray tests and the coercion of a value to a string. */
module JsValue {

  /** A JSON-like value. Numbers are integers; `NaN` is what `parseFloat`
      yields for text with no leading digits. An object is a map from property
      names to values (property order is not modelled). */
  datatype Value =
    | Null
    | Bool(b: bool)
    | Num(n: int)
    | NaN
    | Str(s: string)
    | Arr(items: seq<Value>)
    | Obj(fields: map<string, Value>)

  /** The manifest document: top-level property name to value. A name that is
      not in the map is `undefined`. */
  type Doc = map<string, Value>

  /** How a call completes: normally, or by a `throw` carrying a message. */
  datatype Completion = Normal | Throw(reason: string)

  datatype Option<T> = None | Some(value: T)

  /** A value computed by code that may throw. */
  datatype Result<T> = Ok(value: T) | Thrown(reason: string)

  /** JavaScript's ToBoolean: null, false, 0, NaN and "" are falsy; every
      array and every object (even an empty one) is truthy. */
  predicate Truthy(v: Value)
    ensures IsObject(v) ==> Truthy(v)
    ensures v.Null? || v.NaN? ==> !Truthy(v)
    ensures v.Str? ==> (Truthy(v) <==> |v.s| > 0)
  {
    match v
    case Null => false
    case Bool(b) => b
    case Num(n) => n != 0
    case NaN => false
    case Str(s) => s != ""
    case Arr(_) => true
    case Obj(_) => true
  }

  /** Truthiness of `doc[k]`, where a missing property is `undefined`. */
  predicate TruthyAt(doc: Doc, k: string)
  {
    k in doc && Truthy(doc[k])
  }

  /** lodash `_.isObject`: arrays and objects, not primitives or null. */
  predicate IsObject(v: Value): (r: bool)
    ensures r <==> !(v.Null? || v.Bool? || v.Num? || v.NaN? || v.Str?)
  {
    v.Arr? || v.Obj?
  }

  /** Decimal digits of a natural number, most significant first. */
  function NatToString(n: nat): (s: string)
    ensures |s| > 0
    ensures forall i :: 0 <= i < |s| ==> '0' <= s[i] <= '9'
    decreases n
  {
    var d := [(('0' as int) + n % 10) as char];
    if n < 10 then d else NatToString(n / 10) + d
  }

  /** JavaScript's ToString on a value, as used by string concatenation:
      arrays join their elements with "," (null elements as ""), every
      object prints as "[object Object]". */
  function ToJsString(v: Value): (s: string)
    ensures v.Str? ==> s == v.s
    ensures v.Num? && v.n >= 0 ==> s == NatToString(v.n)
    ensures v.Obj? ==> s == "[object Object]"
    decreases v
  {
    match v
    case Null => "null"
    case Bool(b) => if b then "true" else "false"
    case Num(n) => if n < 0 then "-" + NatToString(-n) else NatToString(n)
    case NaN => "NaN"
    case Str(s) => s
    case Arr(items) => ArrayToString(items)
    case Obj(_) => "[object Object]"
  }

  /** `Array.prototype.join(",")` over the elements of an array. */
  function ArrayToString(items: seq<Value>): string
    decreases items
  {
    if |items| == 0 then ""
    else
      var last := items[|items| - 1];
      (if |items| == 1 then "" else ArrayToString(items[..|items| - 1]) + ",")
      + (if last.Null? then "" else ToJsString(last))
  }
}
