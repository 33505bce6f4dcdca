/** The slice of JavaScript value semantics the modelled code depends on:
    JSON values, truthiness, property access, and the `String(...)` and
    `Number(...)` conversions. Parts of the JavaScript runtime that are not
    modelled here (JSON.parse, number formatting, string-to-number parsing)
    are supplied as a `Runtime` record of functions. */
module Js {
  import opened Wrappers
  import opened Text

  /** A JavaScript number as far as the modelled code can observe it. */
  datatype Num = Finite(x: real) | PosInfinity | NegInfinity | NaN

  /** A value produced by JSON.parse. JSON numbers are finite. */
  datatype JsValue =
    | JNull
    | JBool(b: bool)
    | JNum(n: real)
    | JStr(s: string)
    | JArr(items: seq<JsValue>)
    | JObj(fields: map<string, JsValue>)

  /** The runtime services the model does not define: JSON.parse (None when it
      throws a SyntaxError), Number(string), and String(number). */
  datatype Runtime = Runtime(
    jsonParse: string -> Option<JsValue>,
    stringToNumber: string -> Num,
    numberToString: real -> string)

  /** Truthiness of a possibly undefined value (None is `undefined`). */
  predicate Truthy(v: Option<JsValue>)
  {
    match v
    case None => false
    case Some(JNull) => false
    case Some(JBool(b)) => b
    case Some(JNum(n)) => n != 0.0
    case Some(JStr(s)) => s != ""
    case Some(JArr(_)) => true
    case Some(JObj(_)) => true
  }

  /** Nullish (`== null`): undefined or null. */
  predicate Nullish(v: Option<JsValue>)
  {
    v.None? || v == Some(JNull)
  }

  /** Outcome of reading a property: reading from `null` throws a TypeError. */
  datatype Property = ThrowsTypeError | Read(value: Option<JsValue>)

  /** `v[key]` for a key that no built-in prototype defines (such as "score"). */
  function Get(v: JsValue, key: string): (p: Property)
    ensures p.ThrowsTypeError? <==> v == JNull
    ensures v.JObj? ==> p == Read(if key in v.fields then Some(v.fields[key]) else None)
  {
    match v
    case JNull => ThrowsTypeError
    case JObj(m) => Read(if key in m then Some(m[key]) else None)
    case _ => Read(None)
  }

  /** Converting `v` to a string (`String(v)`, `${v}`) or a number
      (`Number(v)`) throws a TypeError. Both conversions reach an object's
      `toString`; a JSON object with its own `toString` property holds data
      there, not a function, and its inherited `valueOf` gives back the
      object itself, so no primitive is found. An array converts its
      elements, so it throws when one of them does. */
  predicate ConversionThrows(v: JsValue)
  {
    match v
    case JObj(m) => "toString" in m
    case JArr(items) => exists i | 0 <= i < |items| :: ConversionThrows(items[i])
    case _ => false
  }

  /** Converting the property `key` of `v` throws: `v` is an object holding
      that property, and its value's conversion throws. */
  predicate FieldThrows(v: JsValue, key: string)
  {
    v.JObj? && key in v.fields && ConversionThrows(v.fields[key])
  }

  /** String(v), for a value whose conversion does not throw. */
  function ToJsString(v: JsValue, rt: Runtime): string
    decreases v, 1, 0
  {
    match v
    case JNull => "null"
    case JBool(b) => if b then "true" else "false"
    case JNum(n) => rt.numberToString(n)
    case JStr(s) => s
    case JArr(items) => Join(ElementStrings(items, 0, rt), ",")
    case JObj(_) => "[object Object]"
  }

  /** Array.prototype.toString renders null elements as the empty string. */
  function ElementStrings(items: seq<JsValue>, i: nat, rt: Runtime): seq<string>
    requires i <= |items|
    decreases JArr(items), 0, |items| - i
  {
    if i == |items| then []
    else [if items[i] == JNull then "" else ToJsString(items[i], rt)] + ElementStrings(items, i + 1, rt)
  }

  /** Number(v) for a possibly undefined value whose conversion does not throw. */
  function ToNumber(v: Option<JsValue>, rt: Runtime): Num
  {
    match v
    case None => NaN
    case Some(JNull) => Finite(0.0)
    case Some(JBool(b)) => Finite(if b then 1.0 else 0.0)
    case Some(JNum(n)) => Finite(n)
    case Some(JStr(s)) => rt.stringToNumber(s)
    case Some(other) => rt.stringToNumber(ToJsString(other, rt))
  }

  /** Truthiness of a number: neither 0 nor NaN. */
  predicate NumTruthy(n: Num)
  {
    n != NaN && n != Finite(0.0)
  }
}
