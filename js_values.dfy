/** The few pieces of JavaScript semantics the server relies on: optional values, truthiness
    and `||` defaults, thrown errors, the truncating `%` operator, `Math.floor` on a quotient,
    and how an integer is rendered inside a template literal. */
module JsValues {

  /** Clock readings (`Date.now()`) are in milliseconds; upstream lifetimes and creation
      instants are in seconds. */
  const MsPerSecond: int := 1000

  /** A value that may be `undefined` or `null`. */
  datatype Option<T> = None | Some(value: T)

  /** An `Error` object as the server's `catch` blocks see it: `error.message`,
      `error.response?.status` and `error.response?.data`. The upstream body is kept as text.
      A parsed JSON object body, even `{}`, is truthy, so it is represented by a non-empty
      text. Only an empty text body is falsy and falls back to "No additional details". */
  datatype JsError = JsError(message: string, responseStatus: Option<int>, responseData: Option<string>)

  /** The settled outcome of an `async` call: a value, or a thrown error. */
  datatype Result<T> = Ok(value: T) | Thrown(error: JsError)

  /** Truthiness of an optional string: `undefined`, `null` and `""` are falsy. */
  predicate StringTruthy(o: Option<string>) {
    o.Some? && o.value != ""
  }

  /** Truthiness of an optional number: `undefined`, `null` and `0` are falsy. */
  predicate NumberTruthy(o: Option<int>) {
    o.Some? && o.value != 0
  }

  /** Truthiness of an optional boolean. */
  predicate BoolTruthy(o: Option<bool>) {
    o == Some(true)
  }

  /** `a || b` for a string `a` that may be missing. */
  function StringOr(a: Option<string>, b: string): (r: string)
    ensures StringTruthy(a) ==> r == a.value
    ensures !StringTruthy(a) ==> r == b
    ensures r != "" <== StringTruthy(a) || b != ""
  {
    if StringTruthy(a) then a.value else b
  }

  /** `Math.floor(a / b)` for integers `a` and a positive divisor `b`. */
  function FloorDiv(a: int, b: int): (q: int)
    requires b > 0
    ensures q * b <= a < q * b + b
  {
    a / b
  }

  /** JavaScript's `a % b`: the remainder of the division truncated toward zero, so it takes
      the sign of the dividend (Dafny's `%` never returns a negative value). */
  function TruncRem(a: int, b: int): (r: int)
    requires b > 0
    ensures 0 <= a ==> 0 <= r < b
    ensures a < 0 ==> -b < r <= 0
    ensures Abs(r) == Abs(a) % b
  {
    if a >= 0 then a % b else -((-a) % b)
  }

  function Abs(a: int): nat {
    if a < 0 then -a else a
  }

  /** The character of a decimal digit. */
  function DigitChar(d: nat): (c: char)
    requires d < 10
    ensures '0' <= c <= '9'
  {
    ('0' as int + d) as char
  }

  predicate IsDigit(c: char) {
    '0' <= c <= '9'
  }

  /** The decimal text of a non-negative integer, as `String(n)` gives it. */
  function NatToDecimal(n: nat): (s: string)
    ensures s != [] && forall i :: 0 <= i < |s| ==> IsDigit(s[i])
    ensures n > 0 ==> s[0] != '0'
    ensures n < 10 <==> |s| == 1
    decreases n
  {
    if n < 10 then [DigitChar(n)] else NatToDecimal(n / 10) + [DigitChar(n % 10)]
  }

  /** The decimal text of an integer inside a template literal: a leading `-` when negative. */
  function IntToDecimal(i: int): (s: string)
    ensures s != []
    ensures i < 0 <==> s[0] == '-'
  {
    if i < 0 then "-" + NatToDecimal(-i) else NatToDecimal(i)
  }

  /** The value of a string of decimal digits. */
  function DigitsValue(s: string): int
  {
    if s == [] then 0 else DigitsValue(s[..|s| - 1]) * 10 + (s[|s| - 1] as int - '0' as int)
  }

  /** Reads back an integer written by `IntToDecimal`. */
  function ParseInt(s: string): int
  {
    if s != [] && s[0] == '-' then -DigitsValue(s[1..]) else DigitsValue(s)
  }

  lemma {:induction false} NatToDecimalRoundTrip(n: nat)
    ensures DigitsValue(NatToDecimal(n)) == n
    decreases n
  {
    if n >= 10 {
      var s := NatToDecimal(n);
      NatToDecimalRoundTrip(n / 10);
      assert s[..|s| - 1] == NatToDecimal(n / 10);
    }
  }

  /** Rendering an integer loses nothing: the text reads back as the same integer. */
  lemma {:induction false} IntToDecimalRoundTrip(i: int)
    ensures ParseInt(IntToDecimal(i)) == i
  {
    if i < 0 {
      NatToDecimalRoundTrip(-i);
      assert IntToDecimal(i)[1..] == NatToDecimal(-i);
    } else {
      NatToDecimalRoundTrip(i);
    }
  }
}
