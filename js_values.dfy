/**
 * The slice of JavaScript value semantics the modelled code relies on:
 * `Number(...)` coercion of strings, base-10 `toString()` of integers, and
 * truthiness. A JS Number is modelled as an integer or NaN; fractional
 * values, infinities and `-0` as distinct from `0` are not represented.
 */
module JsValues {
  import opened Wrappers

  /** A JavaScript Number restricted to the integers, plus NaN. */
  datatype JsNumber = NaN | Int(value: int)

  /** A primitive JS value as it appears in a query key array. */
  datatype JsPrimitive = JsString(s: string) | JsBool(b: bool) | JsNum(n: int)

  /** Truthiness of a number: NaN and 0 are falsy, every other value truthy. */
  predicate Truthy(n: JsNumber) {
    n.Int? && n.value != 0
  }

  /** Truthiness of a string: only the empty string is falsy. */
  predicate StringTruthy(s: string) {
    s != ""
  }

  predicate IsDigit(c: char) {
    '0' <= c <= '9'
  }

  predicate AllDigits(s: string) {
    forall i :: 0 <= i < |s| ==> IsDigit(s[i])
  }

  function DigitValue(c: char): (d: nat)
    requires IsDigit(c)
    ensures d < 10
  {
    (c as int) - ('0' as int)
  }

  function DigitChar(d: nat): (c: char)
    requires d < 10
    ensures IsDigit(c) && DigitValue(c) == d
  {
    (('0' as int) + d) as char
  }

  /** The value of a run of decimal digits, most significant first; the empty run is 0. */
  function DigitsValue(s: string): nat
    requires AllDigits(s)
    decreases |s|
  {
    if s == [] then 0 else DigitsValue(s[..|s| - 1]) * 10 + DigitValue(s[|s| - 1])
  }

  /** The shortest decimal digit string of `n`. */
  function Digits(n: nat): (s: string)
    ensures |s| >= 1 && AllDigits(s)
    ensures n > 0 ==> s[0] != '0'
  {
    if n < 10 then [DigitChar(n)] else Digits(n / 10) + [DigitChar(n % 10)]
  }

  /** `n.toString()` for an integer `n`. */
  function IntToString(n: int): (s: string)
    ensures |s| >= 1
    ensures forall i :: 0 <= i < |s| ==> IsDigit(s[i]) || (i == 0 && s[i] == '-')
    ensures s[0] == '-' <==> n < 0
  {
    if n < 0 then "-" + Digits(-n) else Digits(n)
  }

  /**
   * `Number(s)` for a string `s`. The empty string converts to 0; an optional
   * sign followed by one or more decimal digits converts to that integer;
   * every other string converts to NaN.
   */
  function NumberOf(s: string): (r: JsNumber)
    ensures s == "" ==> r == Int(0)
    ensures r.Int? <==> s == "" || AllDigits(s) || (|s| > 1 && (s[0] == '-' || s[0] == '+') && AllDigits(s[1..]))
    ensures r.Int? && s != "" && IsDigit(s[0]) ==> r.value == DigitsValue(s)
    ensures r.Int? && |s| > 1 && s[0] == '+' ==> r.value == DigitsValue(s[1..])
    ensures r.Int? && |s| > 1 && s[0] == '-' ==> r.value == 0 - DigitsValue(s[1..])
  {
    if s == "" then Int(0)
    else if (s[0] == '-' || s[0] == '+') && |s| > 1 && AllDigits(s[1..]) then
      var v: int := DigitsValue(s[1..]);
      Int(if s[0] == '-' then -v else v)
    else if AllDigits(s) then
      Int(DigitsValue(s))
    else NaN
  }

  /** `Number(x)` for a value that is a string or `null`; `Number(null)` is 0. */
  function NumberOfNullable(s: Option<string>): (r: JsNumber)
    ensures s == None ==> r == Int(0)
    ensures s.Some? ==> r == NumberOf(s.value)
  {
    match s
    case None => Int(0)
    case Some(text) => NumberOf(text)
  }

  /** Reading back the digits of `n` gives `n`. */
  lemma {:induction false} DigitsRoundTrip(n: nat)
    ensures DigitsValue(Digits(n)) == n
  {
    if n >= 10 {
      var s := Digits(n);
      assert s[..|s| - 1] == Digits(n / 10);
      DigitsRoundTrip(n / 10);
    }
  }

  /** `Number(n.toString())` is `n` for every integer `n`. */
  lemma NumberOfIntToString(n: int)
    ensures NumberOf(IntToString(n)) == Int(n)
  {
    var s := IntToString(n);
    if n < 0 {
      assert s[1..] == Digits(-n);
      DigitsRoundTrip(-n);
    } else {
      DigitsRoundTrip(n);
    }
  }
}
