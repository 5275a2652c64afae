/** The JavaScript string operations the signature generator relies on:
    Number#toString for integers, String#substring, the ASCII part of
    toUpperCase / toLowerCase, and the UTF-16 code units that charCodeAt
    reads. */
module JsText {

  /** The digit for value `d`, as Number#toString writes it (lower case). */
  function Digit(d: nat): (c: char)
    requires d < 36
  {
    if d < 10 then ('0' as int + d) as char else ('a' as int + d - 10) as char
  }

  /** The value of a digit character in any case, or -1 for a non-digit. */
  function DigitValue(c: char): (v: int)
    ensures -1 <= v < 36
  {
    if '0' <= c <= '9' then c as int - '0' as int
    else if 'a' <= c <= 'z' then c as int - 'a' as int + 10
    else if 'A' <= c <= 'Z' then c as int - 'A' as int + 10
    else -1
  }

  /** DigitValue reads back the digit Digit writes. */
  lemma DigitRoundTrip(d: nat)
    requires d < 36
    ensures DigitValue(Digit(d)) == d
    ensures Digit(d) == '0' <==> d == 0
    ensures !('A' <= Digit(d) <= 'Z')
  {
  }

  /** Every character of `s` is a digit of the given radix. */
  predicate IsNumeral(s: string, radix: nat) {
    forall i :: 0 <= i < |s| ==> 0 <= DigitValue(s[i]) < radix
  }

  /** One step of positional notation: n is radix * (n / radix) + n % radix,
      and the quotient of a number of two or more digits is positive and
      smaller than the number. */
  lemma DivStep(n: nat, radix: nat)
    requires 2 <= radix <= n
    ensures 1 <= n / radix < n
    ensures n == (n / radix) * radix + n % radix
  {
    var q := n / radix;
    assert radix * q + n % radix == n;
    assert radix * q >= 2 * q;
  }

  /** Number#toString(radix) for a non-negative integer: the shortest
      numeral, most significant digit first. */
  function RadixString(n: nat, radix: nat): (s: string)
    requires 2 <= radix <= 36
    ensures 1 <= |s|
    ensures IsNumeral(s, radix)
    ensures s[0] == '0' ==> n == 0
    ensures forall i :: 0 <= i < |s| ==> !('A' <= s[i] <= 'Z')
    decreases n
  {
    if n < radix then
      DigitRoundTrip(n);
      [Digit(n)]
    else
      DivStep(n, radix);
      DigitRoundTrip(n % radix);
      RadixString(n / radix, radix) + [Digit(n % radix)]
  }

  /** The value a numeral denotes: the partner of RadixString. */
  function NumeralValue(s: string, radix: nat): (v: nat)
    requires IsNumeral(s, radix)
  {
    if s == [] then 0
    else NumeralValue(s[..|s| - 1], radix) * radix + DigitValue(s[|s| - 1])
  }

  /** Reading RadixString back gives the number it was made from. */
  lemma {:induction false} RadixStringRoundTrip(n: nat, radix: nat)
    requires 2 <= radix <= 36
    ensures NumeralValue(RadixString(n, radix), radix) == n
    decreases n
  {
    var s := RadixString(n, radix);
    if n < radix {
      DigitRoundTrip(n);
      assert s[..0] == [];
    } else {
      DivStep(n, radix);
      DigitRoundTrip(n % radix);
      var prefix := RadixString(n / radix, radix);
      RadixStringRoundTrip(n / radix, radix);
      assert s[..|s| - 1] == prefix;
      assert s[|s| - 1] == Digit(n % radix);
      assert NumeralValue(s, radix) == NumeralValue(prefix, radix) * radix + n % radix;
    }
  }

  function Power(b: nat, k: nat): (r: nat)
    ensures b >= 1 ==> r >= 1
  {
    if k == 0 then 1 else b * Power(b, k - 1)
  }

  /** A number below radix^k takes at most k digits (k >= 1: zero is
      written "0"). */
  lemma {:induction false} RadixStringLength(n: nat, radix: nat, k: nat)
    requires 2 <= radix <= 36 && k >= 1 && n < Power(radix, k)
    ensures |RadixString(n, radix)| <= k
    decreases n
  {
    if n >= radix {
      DivStep(n, radix);
      assert Power(radix, 1) == radix;
      DivBelowPower(n, radix, Power(radix, k - 1));
      RadixStringLength(n / radix, radix, k - 1);
    }
  }

  lemma DivBelowPower(n: nat, radix: nat, p: nat)
    requires radix >= 2 && n < radix * p
    ensures n / radix < p
  {
    var q := n / radix;
    assert radix * q <= n;
    if q >= p {
      MulMonotone(radix, p, q);
    }
  }

  lemma MulMonotone(m: nat, x: nat, y: nat)
    requires x <= y
    ensures m * x <= m * y
  {
  }

  /** Number#toString() for an integral Number: an optional minus sign
      followed by the decimal numeral of the magnitude. */
  function IntegerString(n: int): (s: string)
    ensures 1 <= |s|
    ensures s[0] == '-' <==> n < 0
    ensures n < 0 ==> s[1..] == RadixString(-n, 10)
    ensures n >= 0 ==> s == RadixString(n, 10)
  {
    if n < 0 then "-" + RadixString(-n, 10) else RadixString(n, 10)
  }

  /** String#substring(start, end): both bounds are clamped to [0, |s|] and
      swapped when they arrive in the wrong order. */
  function Substring(s: string, start: int, end: int): (r: string)
    ensures |r| <= |s|
    ensures 0 <= start <= end ==>
      r == s[Clamp(start, |s|)..Clamp(end, |s|)]
  {
    var a, b := Clamp(start, |s|), Clamp(end, |s|);
    if a <= b then s[a..b] else s[b..a]
  }

  function Clamp(i: int, len: nat): (r: nat)
    ensures r <= len
    ensures 0 <= i <= len ==> r == i
  {
    if i < 0 then 0 else if i > len then len else i
  }

  /** A prefix substring: the whole string when it is already short enough. */
  lemma PrefixSubstring(s: string, k: nat)
    ensures |s| <= k ==> Substring(s, 0, k) == s
    ensures k < |s| ==> Substring(s, 0, k) == s[..k]
  {
    assert s[0..|s|] == s;
  }

  function UpperChar(c: char): char {
    if 'a' <= c <= 'z' then (c as int - 32) as char else c
  }

  function LowerChar(c: char): char {
    if 'A' <= c <= 'Z' then (c as int + 32) as char else c
  }

  /** String#toUpperCase on ASCII text: letters a-z become A-Z and every
      other character stays. */
  function AsciiToUpper(s: string): (r: string)
    ensures |r| == |s|
    ensures forall i :: 0 <= i < |r| ==> !('a' <= r[i] <= 'z')
    ensures forall i :: 0 <= i < |r| ==> LowerChar(r[i]) == LowerChar(s[i])
  {
    seq(|s|, i requires 0 <= i < |s| => UpperChar(s[i]))
  }

  /** String#toLowerCase on ASCII text. */
  function AsciiToLower(s: string): (r: string)
    ensures |r| == |s|
  {
    seq(|s|, i requires 0 <= i < |s| => LowerChar(s[i]))
  }

  /** Upper-casing keeps a numeral a numeral of the same radix and value. */
  lemma {:induction false} UpperNumeral(s: string, radix: nat)
    requires 2 <= radix <= 36 && IsNumeral(s, radix)
    ensures IsNumeral(AsciiToUpper(s), radix)
    ensures NumeralValue(AsciiToUpper(s), radix) == NumeralValue(s, radix)
    decreases |s|
  {
    var u := AsciiToUpper(s);
    assert forall i :: 0 <= i < |s| ==> DigitValue(u[i]) == DigitValue(s[i]);
    if s != [] {
      var init := s[..|s| - 1];
      UpperNumeral(init, radix);
      assert AsciiToUpper(init) == u[..|u| - 1];
    }
  }

  /** Lower-casing undoes upper-casing on text without capital letters. */
  lemma LowerOfUpper(s: string)
    requires forall i :: 0 <= i < |s| ==> !('A' <= s[i] <= 'Z')
    ensures AsciiToLower(AsciiToUpper(s)) == s
  {
    var u := AsciiToUpper(s);
    assert forall i :: 0 <= i < |s| ==> LowerChar(u[i]) == s[i];
  }

  /** The UTF-16 code units of one character, as charCodeAt reads them: one
      unit inside the Basic Multilingual Plane, a surrogate pair above it. */
  function CodeUnits(c: char): (units: seq<int>)
    ensures 1 <= |units| <= 2
    ensures forall k :: 0 <= k < |units| ==> 0 <= units[k] < 0x1_0000
    ensures |units| == 1 <==> (c as int) < 0x1_0000
    ensures |units| == 1 ==> units[0] == c as int
    ensures |units| == 2 ==>
      && 0xD800 <= units[0] < 0xDC00 <= units[1] < 0xE000
      && 0x1_0000 + (units[0] - 0xD800) * 0x400 + (units[1] - 0xDC00) == c as int
  {
    var v := c as int;
    if v < 0x1_0000 then [v]
    else [0xD800 + (v - 0x1_0000) / 0x400, 0xDC00 + (v - 0x1_0000) % 0x400]
  }

  /** The UTF-16 code-unit sequence of a string. */
  function Utf16(s: string): (units: seq<int>)
    ensures |units| >= |s|
    ensures forall k :: 0 <= k < |units| ==> 0 <= units[k] < 0x1_0000
  {
    if s == [] then [] else CodeUnits(s[0]) + Utf16(s[1..])
  }

  /** A string without characters above U+FFFF has one code unit per
      character, equal to the character's code point. */
  lemma {:induction false} Utf16OfBmp(s: string)
    requires forall i :: 0 <= i < |s| ==> (s[i] as int) < 0x1_0000
    ensures |Utf16(s)| == |s|
    ensures forall i :: 0 <= i < |s| ==> Utf16(s)[i] == s[i] as int
  {
    if s != [] {
      Utf16OfBmp(s[1..]);
    }
  }
}
