/** JavaScript values as the packing code handles them: the JSON data model plus `undefined`. */
module Json {
  import opened ArrayUtils

  datatype Value =
    | Undefined
    | Null
    | Bool(b: bool)
    | Num(n: int)  // a safe integer, |n| < 2^53
    | Str(s: string)
    | Arr(items: seq<Value>)
    | Obj(fields: map<string, Value>)

  /** A plain JavaScript object: its own enumerable properties. */
  type Record = map<string, Value>

  /** JavaScript truthiness, as `if (x)` and `x && y` test it. */
  predicate Truthy(v: Value)
  {
    match v
    case Undefined => false
    case Null => false
    case Bool(b) => b
    case Num(n) => n != 0
    case Str(s) => s != ""
    case Arr(_) => true
    case Obj(_) => true
  }

  /** `obj[key]`: a missing property reads as `undefined`. */
  function Lookup(m: Record, key: string): Value
  {
    if key in m then m[key] else Undefined
  }

  /** `Array.isArray(v)` as a tag: an array is many values, anything else is one. */
  function AsVal(v: Value): (r: OneOrMany<Value>)
    ensures IsArray(r) <==> v.Arr?
    ensures v.Arr? ==> r.items == v.items
    ensures !v.Arr? ==> r.value == v
  {
    if v.Arr? then Many(v.items) else One(v)
  }

  function DigitChar(d: nat): char
    requires d < 10
  {
    "0123456789"[d]
  }

  /** Decimal digits of a natural number. */
  function NatToString(n: nat): string
  {
    if n < 10 then [DigitChar(n)] else NatToString(n / 10) + [DigitChar(n % 10)]
  }

  function Join(parts: seq<string>, sep: string): string
  {
    if |parts| == 0 then ""
    else if |parts| == 1 then parts[0]
    else parts[0] + sep + Join(parts[1..], sep)
  }

  /** `String(v)`, which `+` applies to the non-string operand of a concatenation.
      An array joins its elements with commas, `null` and `undefined` elements giving "".
      A number is written in plain decimal, which agrees with JavaScript below 10^21. */
  function ToJsString(v: Value): string
  {
    match v
    case Undefined => "undefined"
    case Null => "null"
    case Bool(b) => if b then "true" else "false"
    case Num(n) => if n < 0 then "-" + NatToString(-n) else NatToString(n)
    case Str(s) => s
    case Arr(items) =>
      Join(seq(|items|, i requires 0 <= i < |items| =>
             if items[i].Null? || items[i].Undefined? then "" else ToJsString(items[i])), ",")
    case Obj(_) => "[object Object]"
  }
}
