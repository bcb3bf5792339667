/**
 The scalar JavaScript values that the client reads out of JSON response
 bodies, with the two JavaScript conversions the client relies on: truthiness
 (the test in an `if`) and conversion to text (string concatenation and
 template literals).
 */
module JsValues {

  /** A scalar JSON field as JavaScript sees it. `Undefined` is a field that is
      not present at all. Numbers are restricted to integers. */
  datatype Value = Undefined | Null | Bool(b: bool) | Num(n: int) | Str(s: string)

  /** JavaScript's ToBoolean on a scalar: exactly `undefined`, `null`,
      `false`, `0` and the empty string are falsy. */
  predicate Truthy(v: Value)
  {
    match v
    case Undefined => false
    case Null => false
    case Bool(b) => b
    case Num(n) => n != 0
    case Str(s) => s != ""
  }

  /** Both directions of ToBoolean: a scalar is falsy exactly when it is
      one of the five falsy values, so every other scalar is truthy. */
  lemma FalsyValues(v: Value)
    ensures !Truthy(v) <==> v in {Undefined, Null, Bool(false), Num(0), Str("")}
  {
  }

  /** The character of one decimal digit. */
  function DigitChar(d: nat): (c: char)
    requires d < 10
    ensures '0' <= c <= '9'
    ensures DigitValue(c) == d
  {
    ('0' as int + d) as char
  }

  /** The digit a decimal character stands for (0 for any other character). */
  function DigitValue(c: char): nat
  {
    if '0' <= c <= '9' then c as int - '0' as int else 0
  }

  /** The natural number a string of decimal digits denotes, read most
      significant digit first; the reference reading of `DecimalText`. */
  function DecimalValue(s: string): nat
    decreases |s|
  {
    if s == [] then 0 else 10 * DecimalValue(s[..|s| - 1]) + DigitValue(s[|s| - 1])
  }

  /** The decimal numeral of a natural number, most significant digit first:
      digits only, no leading zero, and it reads back as `n`. */
  function DecimalText(n: nat): (r: string)
    ensures |r| > 0
    ensures forall i :: 0 <= i < |r| ==> '0' <= r[i] <= '9'
    ensures r[0] == '0' ==> r == "0"
    ensures DecimalValue(r) == n
    decreases n
  {
    if n < 10 then [DigitChar(n)]
    else
      var prefix := DecimalText(n / 10);
      var r := prefix + [DigitChar(n % 10)];
      assert r[..|r| - 1] == prefix;
      r
  }

  /** JavaScript's String(v): the text a value contributes to a message. */
  function ToText(v: Value): string
  {
    match v
    case Undefined => "undefined"
    case Null => "null"
    case Bool(b) => if b then "true" else "false"
    case Num(n) => if n < 0 then "-" + DecimalText(-n) else DecimalText(n)
    case Str(s) => s
  }
}
