/**
 * The JavaScript values and errors that the export selection observes.
 * Only the distinctions the userscript makes are kept: truthiness,
 * `typeof v === 'function'`, non-null objects, and React's `isValidElement`.
 */
module Js {
  /** A JavaScript value. The numeric fields only tell identities apart. */
  datatype Value =
    | Undefined
    | Null
    | FalsyPrim                       // false, 0, -0, NaN, 0n or ""
    | TruthyPrim(pid: nat)            // any other boolean, number, bigint, string or symbol
    | Fn(fid: nat)                    // typeof v === 'function'
    | Obj(oid: nat, isElement: bool)  // a non-null object; isElement is React.isValidElement(v)

  /** `Boolean(v)`, the test used by `filter(Boolean)` and `if (!ok)`. */
  predicate Truthy(v: Value) {
    !(v.Undefined? || v.Null? || v.FalsyPrim?)
  }

  /** `typeof v === 'function' || (v && typeof v === 'object')`. */
  predicate FunctionOrObject(v: Value) {
    v.Fn? || v.Obj?
  }

  /** A thrown `Error` (or subclass such as `TypeError`, `SyntaxError`). */
  datatype JsError = JsError(name: string, message: string)

  /** `Error.prototype.toString`: name and message joined by ": ", dropping an empty part. */
  function ErrorToString(e: JsError): string {
    if e.name == "" then e.message
    else if e.message == "" then e.name
    else e.name + ": " + e.message
  }

  /** The text of `(e && e.message ? e.message : e)` once it is concatenated to a string. */
  function ErrorText(e: JsError): (s: string)
    ensures e.message != "" ==> s == e.message
    ensures e.message == "" ==> s == e.name
  {
    if e.message != "" then e.message else ErrorToString(e)
  }

  predicate IsDigit(c: char) {
    '0' <= c <= '9'
  }

  function DigitChar(d: nat): (c: char)
    requires d < 10
    ensures IsDigit(c)
  {
    (48 + d) as char
  }

  function DigitValue(c: char): (d: nat)
    requires IsDigit(c)
    ensures d < 10
  {
    (c as int - 48) as nat
  }

  /**
   * The decimal rendering JavaScript gives a non-negative integer number when it
   * is concatenated to a string (`'HTTP ' + res.status`): digits only, no sign,
   * no leading zero.
   */
  function Decimal(n: nat): (s: string)
    ensures |s| > 0
    ensures forall i :: 0 <= i < |s| ==> IsDigit(s[i])
    ensures |s| > 1 ==> s[0] != '0'
    ensures n < 10 <==> |s| == 1
    decreases n
  {
    if n < 10 then [DigitChar(n)] else Decimal(n / 10) + [DigitChar(n % 10)]
  }

  /** Reads a string of digits back as a number, the inverse of `Decimal`. */
  function ParseDecimal(s: string): nat
    requires forall i :: 0 <= i < |s| ==> IsDigit(s[i])
  {
    if s == [] then 0 else ParseDecimal(s[..|s| - 1]) * 10 + DigitValue(s[|s| - 1])
  }

  /** The status code in an HTTP error message can be read back exactly. */
  lemma {:induction false} DecimalRoundTrip(n: nat)
    ensures ParseDecimal(Decimal(n)) == n
  {
    if n >= 10 {
      var s := Decimal(n);
      assert s[..|s| - 1] == Decimal(n / 10);
      DecimalRoundTrip(n / 10);
    }
  }

  /** Distinct status codes give distinct renderings. */
  lemma DecimalInjective(m: nat, n: nat)
    requires Decimal(m) == Decimal(n)
    ensures m == n
  {
    DecimalRoundTrip(m);
    DecimalRoundTrip(n);
  }
}
