/** The few JavaScript value conventions the repair-case code relies on:
    optional fields (`undefined`), falsiness of optional strings and numbers,
    `String.prototype.slice`, and decimal rendering of non-negative integers. */
module JsValues {

  /** An optional field or an `undefined` lookup result. */
  datatype Option<T> = None | Some(value: T)

  /** A JavaScript `number` as the screens produce it with `Number(text)`. */
  datatype JsNumber = NaN | Finite(value: real) | Infinite(positive: bool)

  /** `!!s` for an optional string: `undefined` and `""` are falsy. */
  predicate Truthy(s: Option<string>) {
    s.Some? && s.value != ""
  }

  /** `!!n` for a number: `0`, `-0` and `NaN` are falsy, every other value is truthy. */
  predicate NumberTruthy(n: JsNumber) {
    match n
    case NaN => false
    case Finite(v) => v != 0.0
    case Infinite(_) => true
  }

  /** `s.slice(start, end)` for non-negative arguments: both ends are clamped to
      the length, and an empty range gives the empty string. */
  function Slice(s: string, start: nat, end: nat): (r: string)
    ensures start <= end <= |s| ==> r == s[start..end]
    ensures start <= |s| <= end ==> r == s[start..]
    ensures |s| <= start || end <= start ==> r == ""
    ensures |r| <= |s|
  {
    var from := if start < |s| then start else |s|;
    var to := if end < |s| then end else |s|;
    if from < to then s[from..to] else ""
  }

  /** The character of a decimal digit. */
  function DigitChar(d: nat): (c: char)
    requires d < 10
    ensures '0' <= c <= '9'
    ensures c as int == '0' as int + d
  {
    (('0' as int) + d) as char
  }

  predicate IsDigit(c: char) {
    '0' <= c <= '9'
  }

  /** The value of a decimal digit character. */
  function DigitValue(c: char): (d: nat)
    requires IsDigit(c)
    ensures d < 10 && DigitChar(d) == c
  {
    (c as int) - ('0' as int)
  }

  /** `n.toString()` for a non-negative integer: its decimal digits, no leading zero. */
  function DecimalString(n: nat): (r: string)
    ensures 1 <= |r|
    ensures forall i :: 0 <= i < |r| ==> IsDigit(r[i])
    ensures n < 10 <==> |r| == 1
    ensures 10 <= n < 100 ==> |r| == 2
    ensures |r| > 1 ==> r[0] != '0'
  {
    if n < 10 then [DigitChar(n)] else DecimalString(n / 10) + [DigitChar(n % 10)]
  }

  /** Reading back the digits of `DecimalString` gives the number again. */
  function DecimalValue(s: string): (n: nat)
    requires forall i :: 0 <= i < |s| ==> IsDigit(s[i])
  {
    if s == [] then 0 else 10 * DecimalValue(s[..|s| - 1]) + DigitValue(s[|s| - 1])
  }

  lemma {:induction false} DecimalRoundTrip(n: nat)
    ensures DecimalValue(DecimalString(n)) == n
  {
    var s := DecimalString(n);
    if n >= 10 {
      assert s[..|s| - 1] == DecimalString(n / 10);
      DecimalRoundTrip(n / 10);
    }
  }

  /** Different numbers render differently, so ids minted from distinct clock readings differ. */
  lemma DecimalStringInjective(m: nat, n: nat)
    requires DecimalString(m) == DecimalString(n)
    ensures m == n
  {
    DecimalRoundTrip(m);
    DecimalRoundTrip(n);
  }

  /** `s.padStart(2, '0')`. */
  function PadStart2(s: string): (r: string)
    ensures |s| >= 2 ==> r == s
    ensures |s| < 2 ==> |r| == 2 && r[2 - |s|..] == s && forall i :: 0 <= i < 2 - |s| ==> r[i] == '0'
  {
    if |s| >= 2 then s else if |s| == 1 then "0" + s else "00"
  }

  /** Two-digit rendering of an hour: `h.toString().padStart(2, '0')` is the tens digit then the units digit. */
  lemma {:induction false} TwoDigits(h: nat)
    requires h < 100
    ensures PadStart2(DecimalString(h)) == [DigitChar(h / 10), DigitChar(h % 10)]
  {
    if h >= 10 {
      assert DecimalString(h / 10) == [DigitChar(h / 10)];
    }
  }
}
