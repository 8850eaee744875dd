/**
 * Unsigned 32-bit numbers as the codec sees them: Rust's `u32` decimal
 * `Display`, the zero-padded `format!("{:0width$}", n)` rendering, and
 * `str::parse::<u32>()`.
 */
module Numeric {
  import opened Optional
  import opened Text

  const U32_MAX: nat := 0xFFFF_FFFF

  /** Rust's `u32`. */
  type U32 = n: nat | n <= U32_MAX

  function Max(a: nat, b: nat): nat {
    if a >= b then a else b
  }

  predicate IsDigit(c: char) {
    '0' <= c <= '9'
  }

  predicate AllDigits(s: string) {
    forall i | 0 <= i < |s| :: IsDigit(s[i])
  }

  function DigitValue(c: char): nat
    requires IsDigit(c)
  {
    c as int - '0' as int
  }

  function DigitChar(d: nat): (c: char)
    requires d < 10
    ensures IsDigit(c) && DigitValue(c) == d
  {
    ('0' as int + d) as char
  }

  /** The value of a run of decimal digits, most significant digit first. */
  function DigitsValue(s: string): nat
    requires AllDigits(s)
    decreases |s|
  {
    if |s| == 0 then 0 else DigitsValue(s[..|s| - 1]) * 10 + DigitValue(s[|s| - 1])
  }

  /** A run of `k` zero digits. */
  function Zeros(k: nat): (z: string)
    ensures |z| == k && AllDigits(z)
  {
    if k == 0 then [] else ['0'] + Zeros(k - 1)
  }

  /** Rust's `Display` for `u32`: the shortest decimal form, no sign, no leading zeros. */
  function Decimal(n: nat): (r: string)
    ensures |r| >= 1 && AllDigits(r) && IsAscii(r)
    ensures DigitsValue(r) == n
    ensures r[0] == '0' ==> r == "0"
    decreases n
  {
    if n < 10 then
      [DigitChar(n)]
    else
      var r := Decimal(n / 10) + [DigitChar(n % 10)];
      assert r[..|r| - 1] == Decimal(n / 10);
      r
  }

  /**
   * `format!("{:0width$}", n)`: the decimal form of `n` left-padded with '0'
   * to at least `width` characters; a wider number is never truncated.
   */
  function PadDecimal(n: U32, width: nat): (r: string)
    ensures AllDigits(r) && IsAscii(r)
    ensures |r| == Max(width, |Decimal(n)|)
  {
    var d := Decimal(n);
    if width > |d| then Zeros(width - |d|) + d else d
  }

  /** The padded form is the decimal form behind a run of zeros, never a truncation of it. */
  lemma PadDecimalShape(n: U32, width: nat)
    ensures PadDecimal(n, width) == Zeros(|PadDecimal(n, width)| - |Decimal(n)|) + Decimal(n)
    ensures |PadDecimal(n, width)| >= width
  {
    var d := Decimal(n);
    if width <= |d| {
      assert Zeros(0) + d == d;
    }
  }

  /**
   * `str::parse::<u32>()`: an optional leading '+' and then one or more ASCII
   * digits whose value fits in 32 bits. Everything else fails, including an
   * empty string, a lone '+', a '-' sign, any whitespace and overflow.
   */
  function ParseU32(s: string): (r: Option<U32>)
    ensures r.Some? ==> |s| > 0 && (s[0] == '+' || IsDigit(s[0]))
    ensures r.Some? ==> forall i | 1 <= i < |s| :: IsDigit(s[i])
    ensures r.Some? ==> exists i | 0 <= i < |s| :: IsDigit(s[i])
  {
    var digits := if |s| > 0 && s[0] == '+' then s[1..] else s;
    if |digits| > 0 && AllDigits(digits) && DigitsValue(digits) <= U32_MAX then
      assert IsDigit(s[|s| - 1]);
      Some(DigitsValue(digits))
    else
      None
  }

  /** A digit string that parses is plain ASCII, so its byte length is its length. */
  lemma ParsedIsAscii(s: string)
    requires ParseU32(s).Some?
    ensures IsAscii(s) && Utf8Len(s) == |s|
  {
    forall i | 0 <= i < |s|
      ensures s[i] as int < 0x80
    {
      if i > 0 {
        assert IsDigit(s[i]);
      }
    }
  }

  lemma {:induction false} LeadingZeroValue(s: string)
    requires AllDigits(s)
    ensures DigitsValue(['0'] + s) == DigitsValue(s)
    decreases |s|
  {
    if |s| > 0 {
      assert (['0'] + s)[..|s|] == ['0'] + s[..|s| - 1];
      LeadingZeroValue(s[..|s| - 1]);
    }
  }

  lemma {:induction false} LeadingZerosValue(k: nat, s: string)
    requires AllDigits(s)
    ensures DigitsValue(Zeros(k) + s) == DigitsValue(s)
    decreases k
  {
    if k > 0 {
      assert Zeros(k) + s == ['0'] + (Zeros(k - 1) + s);
      LeadingZerosValue(k - 1, s);
      LeadingZeroValue(Zeros(k - 1) + s);
    } else {
      assert Zeros(k) + s == s;
    }
  }

  /** Rendering and parsing are inverse: every padded rendering parses back to its number. */
  lemma PadDecimalRoundTrip(n: U32, width: nat)
    ensures ParseU32(PadDecimal(n, width)) == Some(n)
  {
    var d := Decimal(n);
    var p := PadDecimal(n, width);
    assert DigitsValue(p) == n by {
      if width > |d| {
        LeadingZerosValue(width - |d|, d);
      }
    }
    DigitsParse(p);
  }

  /** A non-empty run of digits that fits in 32 bits parses to its value. */
  lemma DigitsParse(s: string)
    requires |s| >= 1 && AllDigits(s) && DigitsValue(s) <= U32_MAX
    ensures ParseU32(s) == Some(DigitsValue(s))
  {
    assert s[0] != '+';
  }

  /** One leading '+' is accepted and changes nothing: "+7" reads as "7" does. */
  lemma PlusSignAccepted(d: string)
    requires |d| >= 1 && AllDigits(d)
    ensures ParseU32(['+'] + d) == ParseU32(d)
  {
    assert (['+'] + d)[1..] == d;
    assert d[0] != '+';
  }

  /** A run of digits whose value does not fit in 32 bits is rejected, with or without a '+'. */
  lemma OverflowRejected(d: string)
    requires AllDigits(d) && DigitsValue(d) > U32_MAX
    ensures ParseU32(d).None?
    ensures ParseU32(['+'] + d).None?
  {
    assert (['+'] + d)[1..] == d;
    if |d| > 0 {
      assert d[0] != '+';
    }
  }

  /** The plain decimal form parses back to its number. */
  lemma DecimalRoundTrip(n: U32)
    ensures ParseU32(Decimal(n)) == Some(n)
  {
    PadDecimalRoundTrip(n, 0);
  }

  lemma {:induction false} LeadingDigitPositive(t: string)
    requires |t| >= 1 && AllDigits(t) && t[0] != '0'
    ensures DigitsValue(t) >= 1
    decreases |t|
  {
    if |t| > 1 {
      LeadingDigitPositive(t[..|t| - 1]);
    }
  }

  /** A digit string without a redundant leading zero is the decimal form of its value. */
  lemma {:induction false} CanonicalDecimal(t: string)
    requires |t| >= 1 && AllDigits(t)
    requires t[0] != '0' || |t| == 1
    ensures Decimal(DigitsValue(t)) == t
    decreases |t|
  {
    if |t| > 1 {
      var init := t[..|t| - 1];
      CanonicalDecimal(init);
      LeadingDigitPositive(init);
      var v := DigitsValue(t);
      assert v / 10 == DigitsValue(init) && v % 10 == DigitValue(t[|t| - 1]);
      assert t == init + [t[|t| - 1]];
    }
  }

  /**
   * Width preservation: a digit string re-rendered at its own length is
   * reproduced exactly, leading zeros included.
   */
  lemma {:induction false} PadDecimalPreservesDigits(s: string)
    requires |s| >= 1 && AllDigits(s) && DigitsValue(s) <= U32_MAX
    ensures PadDecimal(DigitsValue(s), |s|) == s
    decreases |s|
  {
    if s[0] == '0' && |s| > 1 {
      var rest := s[1..];
      assert s == ['0'] + rest;
      LeadingZeroValue(rest);
      PadDecimalPreservesDigits(rest);
      PadOneMore(DigitsValue(rest), |rest|);
    } else {
      CanonicalDecimal(s);
    }
  }

  /** Widening the padding by one, when the number already fits, adds one leading zero. */
  lemma PadOneMore(n: U32, width: nat)
    requires width >= |Decimal(n)|
    ensures PadDecimal(n, width + 1) == ['0'] + PadDecimal(n, width)
  {
    var d := Decimal(n);
    var k := width - |d|;
    assert PadDecimal(n, width) == Zeros(k) + d by {
      if k == 0 {
        assert Zeros(0) + d == d;
      }
    }
    assert PadDecimal(n, width + 1) == Zeros(k + 1) + d;
    assert Zeros(k + 1) == ['0'] + Zeros(k);
    assert (['0'] + Zeros(k)) + d == ['0'] + (Zeros(k) + d);
  }

  /** A string that parses to `n` is at least as long as the decimal form of `n`. */
  lemma ParsedWidthCoversDecimal(s: string, n: U32)
    requires ParseU32(s) == Some(n)
    ensures |Decimal(n)| <= |s|
  {
    var digits := if s[0] == '+' then s[1..] else s;
    PadDecimalPreservesDigits(digits);
  }
}
