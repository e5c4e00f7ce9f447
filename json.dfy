/** The optional value used where the service returns `None`. */
module Wrappers {
  datatype Option<+T> = None | Some(value: T)
}

/**
 * Already-decoded JSON values, as the service sees them after `json.loads`
 * or `response.json()`, together with the two pieces of Python behaviour the
 * handler relies on: truthiness (`if not x:`) and `dict.get`.
 */
module Json {
  /** A JSON value. Numbers are integers; see README "Left out". */
  datatype Json =
    | JNull
    | JBool(b: bool)
    | JInt(i: int)
    | JString(s: string)
    | JArray(items: seq<Json>)
    | JObject(fields: map<string, Json>)

  /** Python truthiness of the decoded value: None, False, 0, '', [] and {} are false. */
  predicate Truthy(v: Json) {
    match v
    case JNull => false
    case JBool(b) => b
    case JInt(i) => i != 0
    case JString(s) => s != ""
    case JArray(items) => items != []
    case JObject(fields) => fields != map[]
  }

  /** `d.get(key, default)` on a dict. */
  function Get(d: map<string, Json>, key: string, default: Json): (r: Json)
    ensures key in d ==> r == d[key]
    ensures key !in d ==> r == default
  {
    if key in d then d[key] else default
  }

  /** The decimal digits of a natural number, most significant first. */
  function Digits(n: nat): (r: string)
    ensures |r| >= 1
    ensures forall k :: 0 <= k < |r| ==> '0' <= r[k] <= '9'
    ensures n >= 10 ==> r[0] != '0'
    ensures |r| == 1 <==> n < 10
    decreases n
  {
    var d := ['0' + (n % 10) as char];
    if n < 10 then d else Digits(n / 10) + d
  }

  /** A non-empty string of decimal digits with no leading zero, unless it is "0" itself. */
  predicate DecimalNumeral(s: string) {
    && |s| >= 1
    && (forall k :: 0 <= k < |s| ==> '0' <= s[k] <= '9')
    && (|s| > 1 ==> s[0] != '0')
  }

  /** The value a decimal digit string denotes. */
  function DigitsValue(s: string): int
    decreases |s|
  {
    if s == [] then 0 else DigitsValue(s[..|s| - 1]) * 10 + (s[|s| - 1] as int - '0' as int)
  }

  /** `Digits` writes exactly the number it is given. */
  lemma {:induction false} DigitsValueOfDigits(n: nat)
    ensures DigitsValue(Digits(n)) == n
    decreases n
  {
    var d := ['0' + (n % 10) as char];
    if n >= 10 {
      DigitsValueOfDigits(n / 10);
      var r := Digits(n / 10) + d;
      assert r[..|r| - 1] == Digits(n / 10);
    }
  }

  /**
   * Python's `str()` of the value, as an f-string renders it. Strings,
   * integers, booleans and None are rendered as Python does; arrays and
   * objects are rendered as "[...]" and "{...}" (see README "Left out").
   */
  function PyStr(v: Json): (r: string)
    ensures v.JString? ==> r == v.s
    ensures v.JInt? && v.i >= 0 ==> DecimalNumeral(r) && DigitsValue(r) == v.i
    ensures v.JInt? && v.i < 0 ==> |r| >= 2 && r[0] == '-' && DecimalNumeral(r[1..]) && DigitsValue(r[1..]) == -v.i
  {
    match v
    case JNull => "None"
    case JBool(b) => if b then "True" else "False"
    case JInt(i) =>
      DigitsValueOfDigits(if i < 0 then -i else i);
      if i < 0 then "-" + Digits(-i) else Digits(i)
    case JString(s) => s
    case JArray(_) => "[...]"
    case JObject(_) => "{...}"
  }
}
