/** Textual forms used inside Kubernetes annotations: decimal counters, hexadecimal
    digests and identifiers that must not be blank. */
module Numerals {
  import opened Prelude

  /** The code points that Rust's `char::is_whitespace` accepts. */
  predicate IsWhitespace(c: char) {
    var n := c as int;
    || 0x09 <= n <= 0x0D
    || n == 0x20 || n == 0x85 || n == 0xA0 || n == 0x1680
    || 0x2000 <= n <= 0x200A
    || n == 0x2028 || n == 0x2029 || n == 0x202F || n == 0x205F || n == 0x3000
  }

  /** A value that is empty after trimming. */
  predicate Blank(s: string) {
    forall i | 0 <= i < |s| :: IsWhitespace(s[i])
  }

  /** Identifiers accepted by the strongly typed constructors. */
  type Id = s: string | !Blank(s) witness (assert !IsWhitespace("x"[0]); "x")

  predicate IsDigit(c: char) {
    '0' <= c <= '9'
  }

  predicate AllDigits(s: string) {
    forall c | c in s :: IsDigit(c)
  }

  function DigitValue(c: char): (d: nat)
    requires IsDigit(c)
    ensures d < 10
  {
    c as int - '0' as int
  }

  function DigitChar(d: nat): (c: char)
    requires d < 10
    ensures IsDigit(c) && DigitValue(c) == d
  {
    '0' + d as char
  }

  function DigitsValue(s: string): nat
    requires AllDigits(s)
  {
    if s == "" then 0 else DigitsValue(s[..|s| - 1]) * 10 + DigitValue(s[|s| - 1])
  }

  /** `u64::to_string`. */
  function Decimal(n: nat): (s: string)
    ensures s != "" && AllDigits(s)
  {
    if n < 10 then [DigitChar(n)] else Decimal(n / 10) + [DigitChar(n % 10)]
  }

  /** `str::parse::<u64>`: an optional plus sign, then digits that fit 64 bits. */
  function ParseU64(s: string): Option<U64> {
    var digits := if s != "" && s[0] == '+' then s[1..] else s;
    if digits == "" || !AllDigits(digits) || DigitsValue(digits) >= U64_LIMIT then None
    else Some(DigitsValue(digits))
  }

  lemma {:induction false} DecimalValue(n: nat)
    ensures DigitsValue(Decimal(n)) == n
  {
    if n >= 10 {
      DecimalValue(n / 10);
      var s := Decimal(n);
      assert s[..|s| - 1] == Decimal(n / 10);
    }
  }

  lemma {:induction false} DecimalRoundTrip(n: U64)
    ensures ParseU64(Decimal(n)) == Some(n)
  {
    DecimalValue(n);
    assert Decimal(n)[0] in Decimal(n);
  }

  function HexChar(d: nat): char
    requires d < 16
  {
    if d < 10 then '0' + d as char else 'a' + (d - 10) as char
  }

  function HexValue(c: char): (d: Option<nat>)
    ensures d.Some? ==> d.value < 16
  {
    if '0' <= c <= '9' then Some(c as int - '0' as int)
    else if 'a' <= c <= 'f' then Some(c as int - 'a' as int + 10)
    else if 'A' <= c <= 'F' then Some(c as int - 'A' as int + 10)
    else None
  }

  lemma {:induction false} HexCharRoundTrip(d: nat)
    requires d < 16
    ensures HexValue(HexChar(d)) == Some(d)
  {
    if d < 10 {
      assert HexChar(d) as int == '0' as int + d;
    } else {
      assert HexChar(d) as int == 'a' as int + (d - 10);
    }
  }

  function HexEncode(bytes: Data): string {
    if bytes == [] then ""
    else [HexChar(bytes[0] as int / 16), HexChar(bytes[0] as int % 16)] + HexEncode(bytes[1..])
  }

  function HexDecode(s: string): Option<Data> {
    if s == "" then Some([])
    else if |s| == 1 then None
    else
      var high :- HexValue(s[0]);
      var low :- HexValue(s[1]);
      var rest :- HexDecode(s[2..]);
      Some([(high * 16 + low) as Byte] + rest)
  }

  lemma {:induction false} HexRoundTrip(bytes: Data)
    ensures HexDecode(HexEncode(bytes)) == Some(bytes)
  {
    if bytes != [] {
      HexRoundTrip(bytes[1..]);
      HexCharRoundTrip(bytes[0] as int / 16);
      HexCharRoundTrip(bytes[0] as int % 16);
      assert HexEncode(bytes)[2..] == HexEncode(bytes[1..]);
      assert bytes == [bytes[0]] + bytes[1..];
    }
  }

  /** Every byte is written as two lower-case digits, the high one first. */
  lemma {:induction false} HexDigits(bytes: Data, i: nat)
    requires i < |bytes|
    ensures |HexEncode(bytes)| == 2 * |bytes|
    ensures var digits, b := "0123456789abcdef", bytes[i] as int;
            HexEncode(bytes)[2 * i] == digits[b / 16] && HexEncode(bytes)[2 * i + 1] == digits[b % 16]
    decreases |bytes|
  {
    HexLength(bytes);
    if i == 0 {
      HexCharIs(bytes[0] as int / 16);
      HexCharIs(bytes[0] as int % 16);
    } else {
      HexDigits(bytes[1..], i - 1);
      assert HexEncode(bytes)[2 * i] == HexEncode(bytes[1..])[2 * (i - 1)];
      assert HexEncode(bytes)[2 * i + 1] == HexEncode(bytes[1..])[2 * (i - 1) + 1];
    }
  }

  lemma {:induction false} HexLength(bytes: Data)
    ensures |HexEncode(bytes)| == 2 * |bytes|
  {
    if bytes != [] { HexLength(bytes[1..]); }
  }

  lemma {:induction false} HexCharIs(d: nat)
    requires d < 16
    ensures HexChar(d) == "0123456789abcdef"[d]
  {
  }

  /** The last digit is the remainder by ten, and what precedes it is the quotient. */
  lemma {:induction false} DecimalDigits(n: nat)
    ensures var s, digits := Decimal(n), "0123456789";
            && s[|s| - 1] == digits[n % 10]
            && (n < 10 ==> |s| == 1) && (n >= 10 ==> s[..|s| - 1] == Decimal(n / 10))
  {
    if n >= 10 { assert Decimal(n)[..|Decimal(n)| - 1] == Decimal(n / 10); }
    DigitCharIs(n % 10);
  }

  lemma {:induction false} DigitCharIs(d: nat)
    requires d < 10
    ensures DigitChar(d) == "0123456789"[d]
  {
  }
}
