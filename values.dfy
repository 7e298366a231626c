/** The loosely typed JavaScript values that cross the framework's interfaces
  * (options objects, session data, template data, error reasons), with the
  * language's truthiness, `String(v)` and `Number(s)` conversions. */
module Values {
  import opened Text
  import opened Wrappers

  /** Numbers are integers (or NaN): no value in the modelled code relies on
    * fractional arithmetic. */
  datatype JsValue =
    | JUndefined
    | JNull
    | JBool(b: bool)
    | JNum(n: int)
    | JNaN
    | JStr(s: string)
    | JArr(items: seq<JsValue>)
    | JObj(fields: map<string, JsValue>)

  predicate Truthy(v: JsValue)
  {
    match v
    case JUndefined => false
    case JNull => false
    case JBool(b) => b
    case JNum(n) => n != 0
    case JNaN => false
    case JStr(s) => s != ""
    case JArr(_) => true
    case JObj(_) => true
  }

  /** `typeof v === "object"`, which is also true of `null` and arrays. */
  predicate IsObjectType(v: JsValue)
  {
    v.JNull? || v.JArr? || v.JObj?
  }

  /** `String(v)`. */
  function ToJsString(v: JsValue): string
  {
    match v
    case JUndefined => "undefined"
    case JNull => "null"
    case JBool(b) => if b then "true" else "false"
    case JNum(n) => IntToString(n)
    case JNaN => "NaN"
    case JStr(s) => s
    case JArr(items) => JoinItems(items)
    case JObj(_) => "[object Object]"
  }

  /** Array-to-string: elements joined by ",", with null and undefined written as "". */
  function JoinItems(items: seq<JsValue>): string
    decreases items
  {
    if items == [] then []
    else
      var head := if items[0].JNull? || items[0].JUndefined? then "" else ToJsString(items[0]);
      if |items| == 1 then head else head + "," + JoinItems(items[1..])
  }

  /** `Number(s)` for the strings the modelled code converts: an optional
    * minus sign followed by decimal digits, or the empty string (which is 0).
    * Everything else is NaN. */
  function ParseNumber(s: string): (r: JsValue)
    ensures r.JNum? || r.JNaN?
  {
    if s == [] then JNum(0)
    else if s[0] == '-' && |s| > 1 && AllDigits(s[1..]) then JNum(-(DigitsValue(s[1..]) as int))
    else if AllDigits(s) then JNum(DigitsValue(s))
    else JNaN
  }

  predicate AllDigits(s: string)
  {
    forall i :: 0 <= i < |s| ==> IsDigit(s[i])
  }

  lemma {:induction false} NatToStringDigits(n: nat)
    ensures AllDigits(NatToString(n))
    ensures DigitsValue(NatToString(n)) == n
    decreases n
  {
    if n >= 10 {
      NatToStringDigits(n / 10);
      var s := NatToString(n);
      assert s[..|s| - 1] == NatToString(n / 10);
    }
  }

  /** `Number(String(n))` gives `n` back for every integer. */
  lemma ParseNumberOfIntToString(n: int)
    ensures ParseNumber(IntToString(n)) == JNum(n)
  {
    if n < 0 {
      NatToStringDigits(-n);
      assert IntToString(n)[1..] == NatToString(-n);
    } else {
      NatToStringDigits(n);
    }
  }

  /** The reasons a handler can pass to `next(err)` or throw: `undefined`,
    * `null`, a string, an `Error` (with its message, optional stack and any
    * extra properties such as `status`), or any other object. */
  datatype Reason =
    | NoReason
    | NullReason
    | TextReason(text: string)
    | ErrorReason(message: string, stack: Option<string>, props: map<string, JsValue>)
    | ObjectReason(props: map<string, JsValue>)

  /** Whether `err ? …` takes the error branch. */
  predicate IsError(err: Reason)
  {
    match err
    case NoReason => false
    case NullReason => false
    case TextReason(t) => t != ""
    case ErrorReason(_, _, _) => true
    case ObjectReason(_) => true
  }

  /** `err || null`. */
  function OrNull(err: Reason): (r: Reason)
    ensures IsError(r) == IsError(err)
    ensures IsError(err) ==> r == err
    ensures !IsError(err) ==> r == NullReason
  {
    if IsError(err) then err else NullReason
  }

  /** `err.<name>` for a reason (`undefined` on strings, null and undefined). */
  function Prop(err: Reason, name: string): JsValue
  {
    match err
    case ErrorReason(_, _, props) => if name in props then props[name] else JUndefined
    case ObjectReason(props) => if name in props then props[name] else JUndefined
    case _ => JUndefined
  }
}
