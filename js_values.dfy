/** The JavaScript values the gateway handles (what `JSON.parse` can produce,
    plus `undefined` for a missing property or environment variable) and the
    few language operations it applies to them. */
module JsValues {
  import Text

  /** A JavaScript value. Numbers carry the value of the parsed double, so
      a number too large for a double (which parses to an infinity) has no
      `Value`; NaN never comes out of a JSON text. */
  datatype Value =
    | Undefined
    | Null
    | Bool(b: bool)
    | Number(x: real)
    | Str(s: string)
    | Array(items: seq<Value>)
    | Object(fields: map<string, Value>)

  /** Library behaviour the model does not define: `JSON.stringify` of a
      value, and the shortest round-trip decimal text of a number. */
  datatype Runtime = Runtime(stringify: Value -> string, numberText: real -> string)

  /** How a JavaScript computation ends: with a value, or by throwing an
      `Error` whose `message` is given. */
  datatype Completion<T> = Normal(value: T) | Throw(message: string)

  /** `typeof v === 'object'`: true of null, arrays and objects. */
  predicate IsObjectType(v: Value) {
    v.Null? || v.Array? || v.Object?
  }

  /** The value converts to `true` in a condition (`!v` is false). */
  predicate Truthy(v: Value) {
    match v
    case Undefined => false
    case Null => false
    case Bool(b) => b
    case Number(x) => x != 0.0
    case Str(s) => s != ""
    case Array(_) => true
    case Object(_) => true
  }

  /** The message V8 gives the `TypeError` thrown when an object cannot be
      converted to a primitive value. */
  const ToPrimitiveErrorMessage := "Cannot convert object to primitive value"

  /** `String(v)` throws for `v`: `v` is an object with an own `toString`
      property, or an array with such a value among its elements at any
      depth. A property parsed from JSON is never a function, so
      `OrdinaryToPrimitive` finds no callable `toString` (and no `valueOf`
      that gives a primitive) on such an object. */
  predicate Unconvertible(v: Value)
    decreases v
  {
    match v
    case Object(fields) => "toString" in fields
    case Array(items) => exists i :: 0 <= i < |items| && Unconvertible(items[i])
    case _ => false
  }

  /** The values of `parts` in order, or the first exception among them. */
  function FirstThrow(parts: seq<Completion<string>>): (r: Completion<seq<string>>)
    ensures r.Throw? <==> exists i :: 0 <= i < |parts| && parts[i].Throw?
    ensures r.Throw? ==> exists i :: 0 <= i < |parts| && parts[i] == Throw(r.message)
                                     && forall j :: 0 <= j < i ==> parts[j].Normal?
    ensures r.Normal? ==> |r.value| == |parts| && forall i :: 0 <= i < |parts| ==> parts[i] == Normal(r.value[i])
    decreases |parts|
  {
    if |parts| == 0 then Normal([])
    else match parts[0]
      case Throw(m) => Throw(m)
      case Normal(t) =>
        match FirstThrow(parts[1..])
        case Throw(m) => Throw(m)
        case Normal(ts) => Normal([t] + ts)
  }

  /** `String(v)`, the conversion a template literal `${v}` and a
      non-function replacement argument of `replace` apply. An array is its
      elements joined by commas, with `undefined` and `null` elements
      written as nothing; a plain object is `[object Object]`. */
  function ToText(v: Value, rt: Runtime): (r: Completion<string>)
    ensures r.Throw? <==> Unconvertible(v)
    ensures r.Throw? ==> r.message == ToPrimitiveErrorMessage
    ensures v.Str? ==> r == Normal(v.s)
    ensures v.Object? && !Unconvertible(v) ==> r == Normal("[object Object]")
    decreases v
  {
    match v
    case Undefined => Normal("undefined")
    case Null => Normal("null")
    case Bool(b) => Normal(if b then "true" else "false")
    case Number(x) => Normal(rt.numberText(x))
    case Str(s) => Normal(s)
    case Array(items) =>
      var parts := seq(|items|, i requires 0 <= i < |items| =>
                     if items[i].Undefined? || items[i].Null? then Normal("") else ToText(items[i], rt));
      (match FirstThrow(parts)
       case Throw(m) => Throw(m)
       case Normal(texts) =>
         assert forall i :: 0 <= i < |items| ==> parts[i].Normal?;
         assert forall i :: 0 <= i < |items| ==>
                  parts[i] == (if items[i].Undefined? || items[i].Null? then Normal("") else ToText(items[i], rt));
         assert forall i :: 0 <= i < |items| ==> !Unconvertible(items[i]);
         Normal(Text.Join(texts, ",")))
    case Object(fields) =>
      if "toString" in fields then Throw(ToPrimitiveErrorMessage) else Normal("[object Object]")
  }

  /** The message V8 gives the `TypeError` thrown when a property is read
      from `undefined` or `null`. */
  function ReadErrorMessage(v: Value, key: string): string
    requires v.Undefined? || v.Null?
  {
    "Cannot read properties of " + (if v.Null? then "null" else "undefined") + " (reading '" + key + "')"
  }

  /** `v[key]` for a key that no built-in prototype defines (the gateway
      reads `success`, `message` and `data`): an own property of an object,
      `undefined` for any other value, and a `TypeError` for `undefined` and
      `null`. */
  function GetProperty(v: Value, key: string): (r: Completion<Value>)
    ensures r.Throw? <==> v.Undefined? || v.Null?
    ensures r.Throw? ==> r.message == ReadErrorMessage(v, key)
    ensures v.Object? ==> r == Normal(if key in v.fields then v.fields[key] else Undefined)
    ensures !v.Object? && !v.Null? && !v.Undefined? ==> r == Normal(Undefined)
  {
    match v
    case Undefined => Throw(ReadErrorMessage(v, key))
    case Null => Throw(ReadErrorMessage(v, key))
    case Object(fields) => Normal(if key in fields then fields[key] else Undefined)
    case _ => Normal(Undefined)
  }

  /** The decimal digit character for `d`. */
  function DigitChar(d: nat): char
    requires d < 10
  {
    ('0' as int + d) as char
  }

  predicate IsDigit(c: char) {
    '0' <= c <= '9'
  }

  /** The decimal text of a non-negative integer, as `${n}` writes it: one or
      more digits, with no leading zero. */
  function DecimalText(n: nat): (s: string)
    ensures |s| > 0 && (s[0] == '0' ==> n == 0)
    ensures forall k :: 0 <= k < |s| ==> IsDigit(s[k])
    decreases n
  {
    if n < 10 then [DigitChar(n)] else DecimalText(n / 10) + [DigitChar(n % 10)]
  }

  /** The number a string of decimal digits denotes. */
  function DecimalValue(s: string): nat
    requires forall k :: 0 <= k < |s| ==> IsDigit(s[k])
    decreases |s|
  {
    if |s| == 0 then 0
    else
      assert IsDigit(s[|s| - 1]);
      DecimalValue(s[..|s| - 1]) * 10 + (s[|s| - 1] as int - '0' as int)
  }

  /** Reading back the decimal text of `n` gives `n`: the status code in an
      error message is the one received. */
  lemma {:induction false} DecimalRoundTrip(n: nat)
    ensures DecimalValue(DecimalText(n)) == n
    decreases n
  {
    if n >= 10 {
      DecimalRoundTrip(n / 10);
      var s := DecimalText(n);
      assert s[..|s| - 1] == DecimalText(n / 10);
    }
  }

  /** Distinct numbers have distinct decimal texts. */
  lemma DecimalTextInjective(m: nat, n: nat)
    requires DecimalText(m) == DecimalText(n)
    ensures m == n
  {
    DecimalRoundTrip(m);
    DecimalRoundTrip(n);
  }
}
