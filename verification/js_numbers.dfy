/**
 * The two JavaScript number/string conversions the client relies on:
 * `String(n)` / `n.toString()` for integers, and `parseInt(s)` called
 * without a radix, which reads decimal text, or hexadecimal text after a
 * `0x`/`0X` prefix (section 19.2.5 of ECMA-262). Numbers are unbounded
 * integers here; floating point is not modelled.
 */
module JsNumbers {

  predicate IsDigit(c: char) {
    '0' <= c <= '9'
  }

  predicate AllDigits(s: string) {
    forall i :: 0 <= i < |s| ==> IsDigit(s[i])
  }

  function DigitValue(c: char): (d: nat)
    requires IsDigit(c)
    ensures d < 10
  {
    (c as int) - ('0' as int)
  }

  function DigitChar(d: nat): (c: char)
    requires d < 10
    ensures IsDigit(c) && DigitValue(c) == d
  {
    (('0' as int) + d) as char
  }

  /** Decimal text of a natural number: digits only, no leading zero. */
  function NatToString(n: nat): (s: string)
    ensures |s| >= 1
    ensures AllDigits(s)
    ensures |s| > 1 ==> s[0] != '0'
    decreases n
  {
    if n < 10 then [DigitChar(n)] else NatToString(n / 10) + [DigitChar(n % 10)]
  }

  /** `String(n)` for an integer: a minus sign before negative values. */
  function IntToString(n: int): (s: string)
    ensures |s| >= 1
    ensures n >= 0 <==> IsDigit(s[0])
    ensures n < 0 <==> s[0] == '-'
  {
    if n < 0 then "-" + NatToString(-n) else NatToString(n)
  }

  /** A digit in the given radix: `0`-`9`, then letters of either case for 10 and up. */
  predicate IsRadixDigit(c: char, radix: nat) {
    || ('0' <= c <= '9' && (c as int) - ('0' as int) < radix)
    || ('a' <= c <= 'z' && (c as int) - ('a' as int) + 10 < radix)
    || ('A' <= c <= 'Z' && (c as int) - ('A' as int) + 10 < radix)
  }

  function RadixDigitValue(c: char, radix: nat): (d: nat)
    requires IsRadixDigit(c, radix)
    ensures d < radix
    ensures IsDigit(c) ==> d == DigitValue(c)
  {
    if '0' <= c <= '9' then (c as int) - ('0' as int)
    else if 'a' <= c <= 'z' then (c as int) - ('a' as int) + 10
    else (c as int) - ('A' as int) + 10
  }

  predicate AllRadixDigits(s: string, radix: nat) {
    forall i :: 0 <= i < |s| ==> IsRadixDigit(s[i], radix)
  }

  /** One more digit on the right of a value: shift it one place and add the digit. */
  function Shifted(high: nat, radix: nat, low: nat): nat {
    high * radix + low
  }

  /** Value of a string of radix digits read most significant digit first. */
  function RadixValue(s: string, radix: nat): nat
    requires AllRadixDigits(s, radix)
  {
    if |s| == 0 then 0
    else
      var front := s[..|s| - 1];
      assert AllRadixDigits(front, radix) by {
        assert forall i :: 0 <= i < |front| ==> front[i] == s[i];
      }
      Shifted(RadixValue(front, radix), radix, RadixDigitValue(s[|s| - 1], radix))
  }

  /** Length of the longest prefix of `s` made of radix digits. */
  function RadixPrefixLength(s: string, radix: nat): (k: nat)
    ensures k <= |s|
    ensures AllRadixDigits(s[..k], radix)
    ensures k < |s| ==> !IsRadixDigit(s[k], radix)
  {
    if |s| == 0 || !IsRadixDigit(s[0], radix) then 0
    else
      var k := 1 + RadixPrefixLength(s[1..], radix);
      assert s[..k] == [s[0]] + s[1..][..k - 1];
      k
  }

  /** A JavaScript number as far as this client uses one: an integer or NaN. */
  datatype JsNumber = Int(value: int) | NaN {
    /** JavaScript truthiness of a number: NaN and 0 are falsy. */
    predicate Truthy() {
      Int? && value != 0
    }
  }

  function SignLength(s: string): (k: nat)
    ensures k <= 1 && k <= |s|
  {
    if |s| > 0 && (s[0] == '-' || s[0] == '+') then 1 else 0
  }

  /** With no radix argument, a `0x` or `0X` after the sign switches parsing to base 16. */
  predicate HexPrefixed(body: string) {
    |body| >= 2 && body[0] == '0' && (body[1] == 'x' || body[1] == 'X')
  }

  function Radix(body: string): (radix: nat)
    ensures radix == 10 || radix == 16
  {
    if HexPrefixed(body) then 16 else 10
  }

  /** The text after the sign and any hexadecimal prefix. */
  function DigitText(s: string): (digits: string)
    ensures |digits| <= |s|
  {
    var body := s[SignLength(s)..];
    if HexPrefixed(body) then body[2..] else body
  }

  /**
   * `parseInt(s)` with no radix: an optional sign, an optional `0x`/`0X`,
   * then the longest run of digits in the radix that prefix selects; NaN
   * when no such digit follows. Leading white space is not modelled.
   */
  function ParseInt(s: string): (r: JsNumber)
    ensures var digits := DigitText(s);
            r.NaN? <==> |digits| == 0 || !IsRadixDigit(digits[0], Radix(s[SignLength(s)..]))
    ensures AllDigits(s) && |s| > 0 && !HexPrefixed(s) ==> r == Int(RadixValue(s, 10))
    ensures HexPrefixed(s) && |s| > 2 && AllRadixDigits(s[2..], 16) ==> r == Int(RadixValue(s[2..], 16))
    ensures r.Int? && |s| > 0 && s[0] == '-' ==> r.value <= 0
    ensures r.Int? && !(|s| > 0 && s[0] == '-') ==> r.value >= 0
  {
    var sign := SignLength(s);
    var body := s[sign..];
    var radix := Radix(body);
    var digits := DigitText(s);
    var k := RadixPrefixLength(digits, radix);
    if k == 0 then NaN
    else
      var v: int := RadixValue(digits[..k], radix);
      assert sign == 0 && AllRadixDigits(digits, radix) ==> digits[..k] == digits by {
        if sign == 0 && AllRadixDigits(digits, radix) {
          RadixPrefixOfAllDigits(digits, radix);
          assert digits[..|digits|] == digits;
        }
      }
      if s[0] == '-' then Int(-v) else Int(v)
  }

  lemma {:induction false} RadixValueOfNatToString(n: nat)
    ensures AllRadixDigits(NatToString(n), 10)
    ensures RadixValue(NatToString(n), 10) == n
    decreases n
  {
    var s := NatToString(n);
    if n >= 10 {
      RadixValueOfNatToString(n / 10);
      assert s[..|s| - 1] == NatToString(n / 10);
    }
  }

  lemma RadixPrefixOfAllDigits(s: string, radix: nat)
    requires AllRadixDigits(s, radix)
    ensures RadixPrefixLength(s, radix) == |s|
  {
  }

  /** parseInt reads back exactly the integer that String(n) wrote: decimal text never looks hexadecimal. */
  lemma ParseIntOfIntToString(n: int)
    ensures ParseInt(IntToString(n)) == Int(n)
  {
    var s := IntToString(n);
    var body := NatToString(if n < 0 then -n else n);
    RadixValueOfNatToString(if n < 0 then -n else n);
    RadixPrefixOfAllDigits(body, 10);
    assert s[SignLength(s)..] == body;
    assert !HexPrefixed(body);
    assert body[..|body|] == body;
  }

  /** Two integers with the same decimal text are equal. */
  lemma IntToStringInjective(a: int, b: int)
    requires IntToString(a) == IntToString(b)
    ensures a == b
  {
    ParseIntOfIntToString(a);
    ParseIntOfIntToString(b);
  }

  /** The hexadecimal prefix at work: "0x10" is 16 and "-0x10" is -16. */
  lemma ParseIntHexPrefix()
    ensures ParseInt("0x10") == Int(16)
    ensures ParseInt("-0x10") == Int(-16)
  {
    assert DigitText("0x10") == "10" && DigitText("-0x10") == "10";
    assert RadixPrefixLength("10", 16) == 2;
    assert "10"[..2] == "10" && "10"[..1] == "1" && "1"[..0] == "";
    assert RadixValue("1", 16) == 1;
    assert RadixValue("10", 16) == 16;
  }

  /** A bare "0x" has no hexadecimal digit after it, so it is NaN rather than 0. */
  lemma ParseIntBareHexPrefix()
    ensures ParseInt("0x") == NaN
  {
    assert DigitText("0x") == "";
  }

  /** A leading zero without `x` does not switch the radix: "010" is 10. */
  lemma ParseIntLeadingZero()
    ensures ParseInt("010") == Int(10)
  {
    assert AllDigits("010") && !HexPrefixed("010");
    assert "010"[..2] == "01" && "01"[..1] == "0" && "0"[..0] == "";
    assert RadixValue("01", 10) == 1;
  }
}
