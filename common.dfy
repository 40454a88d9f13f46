/** Values shared by every part of the model: optional values, the failures a
    host call can raise, the JSON-shaped values stored in a custom price's
    `price` field, and the host's number conversions. */
module Common {

  /** `None` stands for JavaScript's `undefined`/`null` or PHP's `null`. */
  datatype Option<+T> = None | Some(value: T)

  /** What a call into the host platform or the runtime can raise. */
  datatype Failure =
    | HostFailure          // a repository call rejected (network, API error)
    | TypeError            // a property read on null/undefined
    | RuntimeError(message: string)  // an exception the code throws itself

  datatype Result<+T> = Ok(value: T) | Err(error: Failure)

  /** Entity ids of the platform (customers, products, currencies, taxes). */
  type Id = string

  /** A JSON value as the administration reads and writes it. */
  datatype Json =
    | JNull
    | JBool(b: bool)
    | JNum(n: real)
    | JStr(s: string)
    | JArr(items: seq<Json>)
    | JObj(fields: map<string, Json>)

  /** Conversions the model leaves to the host: they work on floating point
      numbers and their decimal text, which the model does not interpret. */
  datatype Host = Host(
    parseFloat: string -> Option<real>,  // `parseFloat`; None is NaN
    toFixed2: real -> string,            // `Number.prototype.toFixed(2)`
    numberText: real -> string,          // `String(n)` for a number
    numberFormat2: real -> string,       // PHP `number_format($x, 2)`
    systemCurrencyId: Id)                // `Shopware.Context.app.systemCurrencyId`

  /** JavaScript truthiness of a value that may be `undefined` (None). */
  predicate Truthy(v: Option<Json>)
  {
    match v
    case None => false
    case Some(JNull) => false
    case Some(JBool(b)) => b
    case Some(JNum(n)) => n != 0.0
    case Some(JStr(s)) => s != ""
    case Some(JArr(_)) => true
    case Some(JObj(_)) => true
  }

  /** `v?.[0]`: the first element of an array, key "0" of an object, the
      first character of a string, and `undefined` otherwise. */
  function At0(v: Option<Json>): (r: Option<Json>)
    ensures v.Some? && v.value.JArr? ==>
              r == (if |v.value.items| > 0 then Some(v.value.items[0]) else None)
    ensures v.Some? && v.value.JObj? ==> r.Some? == ("0" in v.value.fields)
    ensures v.None? || v.value.JNull? || v.value.JBool? || v.value.JNum? ==> r.None?
  {
    match v
    case Some(JArr(items)) => if |items| > 0 then Some(items[0]) else None
    case Some(JObj(f)) => if "0" in f then Some(f["0"]) else None
    case Some(JStr(s)) => if |s| > 0 then Some(JStr([s[0]])) else None
    case _ => None
  }

  /** `v?.key`: an own property of an object, `undefined` for anything else. */
  function Member(v: Option<Json>, key: string): (r: Option<Json>)
    ensures r.Some? <==> v.Some? && v.value.JObj? && key in v.value.fields
    ensures r.Some? ==> r.value == v.value.fields[key]
  {
    match v
    case Some(JObj(f)) => if key in f then Some(f[key]) else None
    case _ => None
  }

  /** JavaScript's `String(v)`, as a template literal `${v}` applies it. */
  function ToText(v: Json, host: Host): string
    decreases v, 1
  {
    match v
    case JNull => "null"
    case JBool(b) => if b then "true" else "false"
    case JNum(n) => host.numberText(n)
    case JStr(s) => s
    case JArr(items) => JoinTexts(v, items, host)
    case JObj(_) => "[object Object]"
  }

  /** The elements of an array as `Array.prototype.join` renders them
      (null elements become ""). */
  function JoinTexts(whole: Json, items: seq<Json>, host: Host): string
    requires forall i :: 0 <= i < |items| ==> items[i] < whole
    decreases whole, 0, |items|
  {
    if items == [] then ""
    else
      var first := if items[0].JNull? then "" else ToText(items[0], host);
      if |items| == 1 then first else first + "," + JoinTexts(whole, items[1..], host)
  }
}
