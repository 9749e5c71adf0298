/** An optional value, used where the JavaScript code gets `undefined` back
    from a lookup or where an operation throws instead of returning. */
module Options {
  datatype Option<+T> = None | Some(value: T)
}

/** The JavaScript values that flow through the correlator: what JSON.parse
    returns for an inbound message, what handlers return or throw, and the
    two built-in error payloads. Only the behaviour of these values that the
    correlator relies on is modelled: truthiness, `toString()` and reading a
    property by name (object destructuring). */
module JsValue {

  datatype Value =
    | Undefined
    | Null
    | Bool(b: bool)
    | Num(n: int)                               // integral numbers only
    | Str(s: string)
    | Arr(items: seq<Value>)
    | Obj(fields: map<string, Value>)           // a plain object
    | ErrorObject(name: string, message: string) // an instance of Error (e.g. a TypeError)

  /** `undefined` and `null`: the values whose `toString()` throws and whose
      destructuring (for `null`) throws. */
  predicate Nullish(v: Value) {
    v.Undefined? || v.Null?
  }

  /** JavaScript truthiness, as used by `if (method)`, `if (!handler)` and `if (err)`:
      the falsy values are exactly `undefined`, `null`, `false`, `0` and `""`, so
      every array, object and Error is truthy, even an empty one. */
  predicate Truthy(v: Value): (t: bool)
    ensures !t <==> v == Undefined || v == Null || v == Bool(false) || v == Num(0) || v == Str("")
    ensures v.Arr? || v.Obj? || v.ErrorObject? ==> t
  {
    match v
    case Undefined => false
    case Null => false
    case Bool(b) => b
    case Num(n) => n != 0
    case Str(s) => s != ""
    case _ => true
  }

  /** Reading property `key`, as `const { id, result, error, method, params } = message`
      does for a non-null message: an own member of a plain object, otherwise `undefined`
      (none of the five names is a property of strings, numbers, booleans or arrays). */
  function Get(v: Value, key: string): (r: Value)
    ensures r != Undefined ==> v.Obj? && key in v.fields && r == v.fields[key]
    ensures v.Obj? && key in v.fields ==> r == v.fields[key]
  {
    if v.Obj? && key in v.fields then v.fields[key] else Undefined
  }

  function DigitChar(d: nat): (c: char)
    requires d < 10
    ensures '0' <= c <= '9' && c as int - '0' as int == d
  {
    (d + '0' as int) as char
  }

  predicate IsNumeral(s: string) {
    forall i :: 0 <= i < |s| ==> '0' <= s[i] <= '9'
  }

  /** The number a numeral denotes, read most significant digit first. */
  function NumeralValue(s: string): nat
    requires IsNumeral(s)
  {
    if s == [] then 0 else 10 * NumeralValue(s[..|s| - 1]) + (s[|s| - 1] as int - '0' as int)
  }

  /** Decimal text of a non-negative integer, as `Number.prototype.toString()` gives
      it: a numeral without leading zeros that denotes `n`. */
  function NatToString(n: nat): (r: string)
    ensures |r| >= 1 && IsNumeral(r) && NumeralValue(r) == n
    ensures |r| > 1 ==> r[0] != '0'
  {
    if n < 10 then [DigitChar(n)]
    else
      var r := NatToString(n / 10) + [DigitChar(n % 10)];
      assert r[..|r| - 1] == NatToString(n / 10);
      r
  }

  /** Decimal text of an integer: a minus sign exactly when it is negative, then
      the numeral of its magnitude. */
  function IntToString(n: int): (r: string)
    ensures |r| >= 1 && (r[0] == '-' <==> n < 0)
    ensures n < 0 ==> IsNumeral(r[1..]) && NumeralValue(r[1..]) == -n
    ensures n >= 0 ==> IsNumeral(r) && NumeralValue(r) == n
  {
    if n < 0 then
      var r := "-" + NatToString(-n);
      assert r[1..] == NatToString(-n);
      r
    else NatToString(n)
  }

  /** Converting `v` to text throws a TypeError although `v` is not `null` or
      `undefined`: `v` is a plain object with its own `toString` member, or an array
      holding such a value somewhere. A member that JSON.parse made is data, never a
      function, so the conversion finds no `toString` to call, and the inherited
      `valueOf` gives the object back instead of a primitive. This holds for
      `v.toString()` and for a template literal `${v}` alike. */
  predicate ToStringThrows(v: Value) {
    match v
    case Obj(fields) => "toString" in fields
    case Arr(items) => exists i :: 0 <= i < |items| && ToStringThrows(items[i])
    case _ => false
  }

  /** `v.toString()` for every value on which it does not throw. A plain object
      without its own `toString` member gives "[object Object]" whatever its other
      members; an array joins its elements with commas, writing `null` and
      `undefined` elements as empty text; an Error gives "name: message", or only
      the name or only the message when the other is empty. */
  function ToString(v: Value): (r: string)
    requires !Nullish(v) && !ToStringThrows(v)
    ensures v.Str? ==> r == v.s
    ensures v.Obj? ==> r == "[object Object]"
    ensures v.Num? ==> r == IntToString(v.n)
    ensures v.Arr? && v.items == [] ==> r == ""
    ensures v.ErrorObject? && v.name != "" && v.message != "" ==> r == v.name + ": " + v.message
    ensures v.ErrorObject? && v.name == "" ==> r == v.message
    ensures v.ErrorObject? && v.name != "" && v.message == "" ==> r == v.name
    decreases v, 1
  {
    match v
    case Bool(b) => if b then "true" else "false"
    case Num(n) => IntToString(n)
    case Str(s) => s
    case Arr(items) => Join(items)
    case Obj(_) => "[object Object]"
    case ErrorObject(name, message) =>
      if name == "" then message
      else if message == "" then name
      else name + ": " + message
  }

  /** `Array.prototype.join(",")` over the elements' string forms. */
  function Join(items: seq<Value>): string
    requires forall i :: 0 <= i < |items| ==> !ToStringThrows(items[i])
    decreases items, 0
  {
    if |items| == 0 then ""
    else
      var last := items[|items| - 1];
      Join(items[..|items| - 1])
      + (if |items| > 1 then "," else "")
      + (if Nullish(last) then "" else ToString(last))
  }
}
