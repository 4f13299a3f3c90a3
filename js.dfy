/**
 * JSON values as the client receives them, and the two JavaScript coercions the
 * source relies on: truthiness (`!!x`, `a || b`, `if (x)`) and `String(x)` /
 * `x.toString()`.  Numbers are integers; floating point is not modelled.
 */
module Js {
  import opened Wrappers

  datatype Json =
    | JNull
    | JBool(b: bool)
    | JNum(n: int)
    | JStr(s: string)
    | JArr(items: seq<Json>)
    | JObj(fields: seq<(string, Json)>)

  /** JavaScript truthiness of a JSON value: null, false, 0 and "" are falsy; arrays and objects never are. */
  predicate Truthy(v: Json) {
    match v
    case JNull => false
    case JBool(b) => b
    case JNum(n) => n != 0
    case JStr(s) => s != ""
    case JArr(_) => true
    case JObj(_) => true
  }

  /** Truthiness of a possibly-undefined value (`undefined` is falsy). */
  predicate TruthyOpt(v: Option<Json>) {
    v.Some? && Truthy(v.value)
  }

  /** Truthiness of a `string | null` value, such as a token read from storage. */
  predicate TruthyStr(v: Option<string>) {
    v.Some? && v.value != ""
  }

  /** `a || b`: the first operand when it is truthy, otherwise the second. */
  function Or(a: Option<Json>, b: Option<Json>): (r: Option<Json>)
    ensures TruthyOpt(a) ==> r == a
    ensures !TruthyOpt(a) ==> r == b
  {
    if TruthyOpt(a) then a else b
  }

  /**
   * The value of the last field named `k` of an object's own fields (`JSON.parse`
   * keeps the last of several equal keys); undefined when there is none.
   */
  function Field(fields: seq<(string, Json)>, k: string): (r: Option<Json>)
    ensures r.Some? <==> exists i :: 0 <= i < |fields| && fields[i].0 == k
    ensures r.Some? ==> exists i :: 0 <= i < |fields| && fields[i] == (k, r.value)
  {
    if |fields| == 0 then None
    else if fields[|fields| - 1].0 == k then Some(fields[|fields| - 1].1)
    else Field(fields[..|fields| - 1], k)
  }

  /** The last field named `k` decides the value, whatever comes before it. */
  lemma {:induction false} FieldAt(fields: seq<(string, Json)>, k: string, i: nat)
    requires i < |fields| && fields[i].0 == k
    requires forall j :: i < j < |fields| ==> fields[j].0 != k
    ensures Field(fields, k) == Some(fields[i].1)
  {
    if i < |fields| - 1 {
      FieldAt(fields[..|fields| - 1], k, i);
    }
  }

  /** The JavaScript TypeError raised by a property read on `null`. */
  datatype TypeError = ReadOfNull(property: string)

  /**
   * `v.k`: a property read.  Reading a property of null throws; a property an
   * object does not have, or any property of another primitive or of an array
   * (other than its indices, which the source never reads), is undefined.
   */
  function Prop(v: Json, k: string): (r: Result<Option<Json>, TypeError>)
    ensures r.Err? <==> v == JNull
    ensures r.Ok? && r.value.Some? ==> v.JObj?
  {
    match v
    case JNull => Err(ReadOfNull(k))
    case JObj(fields) => Ok(Field(fields, k))
    case _ => Ok(None)
  }

  /** `v?.k`: optional chaining; undefined instead of an error when `v` is null or undefined. */
  function OptProp(v: Option<Json>, k: string): (r: Option<Json>)
    ensures r.Some? ==> v.Some? && v.value.JObj?
  {
    match v
    case None => None
    case Some(JNull) => None
    case Some(x) => Prop(x, k).value
  }

  /** The decimal digit for `d`. */
  function DigitChar(d: int): (c: char)
    requires 0 <= d < 10
    ensures '0' <= c <= '9' && c as int - '0' as int == d
  {
    ('0' as int + d) as char
  }

  /** The shortest decimal representation of a natural number, as `Number.prototype.toString` gives it. */
  function NatToDecimal(n: nat): (s: string)
    ensures |s| > 0
    ensures forall i :: 0 <= i < |s| ==> '0' <= s[i] <= '9'
    ensures |s| > 1 ==> s[0] != '0'
    decreases n
  {
    if n < 10 then [DigitChar(n)] else NatToDecimal(n / 10) + [DigitChar(n % 10)]
  }

  /** `String(n)` for an integer: a minus sign before the digits of a negative number. */
  function IntToDecimal(n: int): (s: string)
    ensures |s| > 0
    ensures n < 0 <==> s[0] == '-'
  {
    if n < 0 then "-" + NatToDecimal(-n) else NatToDecimal(n)
  }

  /** The value of a string of decimal digits, the inverse of NatToDecimal. */
  function DecimalValue(s: string): (r: nat)
    requires forall i :: 0 <= i < |s| ==> '0' <= s[i] <= '9'
  {
    if |s| == 0 then 0
    else 10 * DecimalValue(s[..|s| - 1]) + (s[|s| - 1] as int - '0' as int)
  }

  /** Reading the digits back gives the number: the decimal form loses nothing. */
  lemma {:induction false} DecimalRoundTrip(n: nat)
    ensures DecimalValue(NatToDecimal(n)) == n
    decreases n
  {
    if n >= 10 {
      var s := NatToDecimal(n);
      assert s[..|s| - 1] == NatToDecimal(n / 10);
      DecimalRoundTrip(n / 10);
    }
  }

  lemma NatToDecimalInjective(a: nat, b: nat)
    requires NatToDecimal(a) == NatToDecimal(b)
    ensures a == b
  {
    DecimalRoundTrip(a);
    DecimalRoundTrip(b);
  }

  /** Hence two different numbers never print alike. */
  lemma IntToDecimalInjective(m: int, n: int)
    requires IntToDecimal(m) == IntToDecimal(n)
    ensures m == n
  {
    if m < 0 && n < 0 {
      assert NatToDecimal(-m) == IntToDecimal(m)[1..];
      assert NatToDecimal(-n) == IntToDecimal(n)[1..];
      NatToDecimalInjective(-m, -n);
    } else if 0 <= m && 0 <= n {
      NatToDecimalInjective(m, n);
    }
  }

  /** The elements' strings joined by commas. */
  function JoinComma(parts: seq<string>): (r: string) {
    if |parts| == 0 then ""
    else if |parts| == 1 then parts[0]
    else parts[0] + "," + JoinComma(parts[1..])
  }

  /**
   * `String(v)` / `v.toString()`: strings as they are, booleans as `true` / `false`,
   * integers in decimal, arrays as their elements' strings joined by commas (a null
   * element contributes the empty string), objects as `[object Object]`.  `null`
   * has no `toString`; it is given as `null`, which is what `String(null)` gives.
   */
  function ToJsString(v: Json): (s: string)
    ensures v.JStr? ==> s == v.s
    ensures v.JBool? ==> s == (if v.b then "true" else "false")
    ensures v.JNum? ==> s == IntToDecimal(v.n)
    ensures v.JArr? && v.items == [] ==> s == ""
  {
    match v
    case JNull => "null"
    case JBool(b) => if b then "true" else "false"
    case JNum(n) => IntToDecimal(n)
    case JStr(s) => s
    case JArr(items) => JoinComma(ArrayElementStrings(items))
    case JObj(_) => "[object Object]"
  }

  /** The strings `Array.prototype.join` uses for each element: empty for null. */
  function ArrayElementStrings(items: seq<Json>): (r: seq<string>)
    ensures |r| == |items|
    decreases items
  {
    if |items| == 0 then []
    else [if items[0] == JNull then "" else ToJsString(items[0])] + ArrayElementStrings(items[1..])
  }
}
