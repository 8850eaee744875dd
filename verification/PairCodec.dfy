/**
 * The "N of M" pair codec of `src/lib.rs`: a pair of optional numbers is
 * stored as one slash-delimited string ("03/12", "03", "/12"), and read back
 * either numerically (`number_pair`) or as text (`text_pair`). Reading never
 * raises an error: a malformed segment just degrades to absence.
 */
module PairCodec {
  import opened Optional
  import opened Text
  import opened Numeric

  const Slash: char := '/'

  /**
   * What `number_pair` yields: the first number (always present), the second
   * number if its segment parses, and the width of the wider trimmed segment
   * in bytes (used as padding when the pair is written back).
   */
  datatype NumericPair = NumericPair(first: U32, second: Option<U32>, width: nat)

  /** What `text_pair` yields: the trimmed segments as text, and the same width. */
  datatype TextualPair = TextualPair(first: string, second: Option<string>, width: nat)

  /** How `pair_to_string` renders one half: padded digits, or nothing when absent. */
  function RenderHalf(x: Option<U32>, padding: nat): (r: string)
    ensures AllDigits(r) && IsAscii(r)
    ensures x.None? <==> r == []
  {
    match x
    case None => []
    case Some(v) => PadDecimal(v, padding)
  }

  /** `str::parse` applied to an optional segment. */
  function ParseHalf(s: Option<string>): Option<U32> {
    match s
    case None => None
    case Some(t) => ParseU32(t)
  }

  /**
   * `pair_to_string`: None when both halves are absent; otherwise the padded
   * first half, followed by a slash and the padded second half only when the
   * second half is present.
   */
  function PairToString(first: Option<U32>, last: Option<U32>, padding: nat): (r: Option<string>)
    ensures r.None? <==> first.None? && last.None?
    ensures r.Some? ==> (Slash in r.value <==> last.Some?)
    ensures r.Some? ==> forall i | 0 <= i < |r.value| :: IsDigit(r.value[i]) || r.value[i] == Slash
  {
    match (first, last)
    case (None, None) => None
    case (None, Some(y)) => Some([Slash] + PadDecimal(y, padding))
    case (Some(x), None) => Some(PadDecimal(x, padding))
    case (Some(x), Some(y)) => Some(PadDecimal(x, padding) + [Slash] + PadDecimal(y, padding))
  }

  /** The separator occurs in `text` exactly when splitting gives more than one part. */
  lemma SlashSplits(text: string)
    ensures Slash in text <==> |Split(text, Slash)| > 1
  {
    var parts := Split(text, Slash);
    if |parts| > 1 {
      assert text == parts[0] + [Slash] + Join(parts[1..], Slash);
      assert text[|parts[0]|] == Slash;
    }
  }

  /**
   * `text_pair`: split on '/', trim the first two segments, ignore the rest.
   * It cannot fail: the first segment may be empty, and the second is present
   * (possibly empty) exactly when the text holds a slash.
   */
  function TextPair(text: string): (r: TextualPair)
    ensures Unpadded(r.first)
    ensures r.second.Some? <==> Slash in text
    ensures r.second.Some? ==> Unpadded(r.second.value)
    ensures r.width >= Utf8Len(r.first)
    ensures r.second.Some? ==> r.width >= Utf8Len(r.second.value)
    ensures r.width == Utf8Len(r.first) || (r.second.Some? && r.width == Utf8Len(r.second.value))
  {
    SlashSplits(text);
    var parts := Split(text, Slash);
    var a := Trim(parts[0]);
    var b := if |parts| > 1 then Some(Trim(parts[1])) else None;
    var bLen := if b.Some? then Utf8Len(b.value) else 0;
    TextualPair(a, b, Max(Utf8Len(a), bLen))
  }

  /**
   * `number_pair`: the same split, trim and width as `text_pair`, but the
   * trimmed first segment must parse as a `u32` or the whole pair is absent;
   * a second segment that does not parse degrades to None while still
   * counting towards the width.
   */
  function NumberPair(text: string): (r: Option<NumericPair>)
    ensures r.Some? && r.value.second.Some? ==> Slash in text
  {
    var t := TextPair(text);
    match ParseU32(t.first)
    case None => None
    case Some(a) => Some(NumericPair(a, ParseHalf(t.second), t.width))
  }

  /**
   * The width `number_pair` recovers covers the first number's decimal form,
   * so writing the pair back at that width never truncates the number.
   */
  lemma NumberPairWidthCoversFirst(text: string)
    requires NumberPair(text).Some?
    ensures NumberPair(text).value.width >= |Decimal(NumberPair(text).value.first)|
  {
    var aStr := TextPair(text).first;
    ParsedIsAscii(aStr);
    ParsedWidthCoversDecimal(aStr, NumberPair(text).value.first);
  }

  lemma DigitsUnpadded(s: string)
    requires AllDigits(s)
    ensures Unpadded(s) && Slash !in s
  {
  }

  lemma SplitRendered(x: string, y: Option<string>)
    requires AllDigits(x)
    requires y.Some? ==> AllDigits(y.value)
    ensures y.None? ==> Split(x, Slash) == [x]
    ensures y.Some? ==> Split(x + [Slash] + y.value, Slash) == [x, y.value]
  {
    DigitsUnpadded(x);
    SplitNoSeparator(x, Slash);
    if y.Some? {
      DigitsUnpadded(y.value);
      SplitAfterSegment(x, y.value, Slash);
      SplitNoSeparator(y.value, Slash);
    }
  }

  /**
   * Round trip: a pair written with its first half present reads back as the
   * same numbers, with the width of the wider rendered half.
   */
  lemma NumberPairRoundTrip(x: U32, y: Option<U32>, padding: nat)
    ensures PairToString(Some(x), y, padding).Some?
    ensures NumberPair(PairToString(Some(x), y, padding).value)
         == Some(NumericPair(x, y, Max(|RenderHalf(Some(x), padding)|, |RenderHalf(y, padding)|)))
  {
    var a := PadDecimal(x, padding);
    var b := if y.Some? then Some(PadDecimal(y.value, padding)) else None;
    var text := PairToString(Some(x), y, padding).value;
    SplitRendered(a, b);
    DigitsUnpadded(a);
    TrimUnpadded(a);
    PadDecimalRoundTrip(x, padding);
    ParsedIsAscii(a);
    var parts := Split(text, Slash);
    assert Trim(parts[0]) == a;
    if y.Some? {
      DigitsUnpadded(b.value);
      TrimUnpadded(b.value);
      PadDecimalRoundTrip(y.value, padding);
      ParsedIsAscii(b.value);
      assert parts == [a, b.value];
      assert Trim(parts[1]) == b.value;
    } else {
      assert parts == [a];
    }
  }

  /**
   * A pair written without its first half ("/12") does not read back as a
   * numeric pair at all: the empty first segment does not parse.
   */
  lemma NumberPairLosesLoneSecond(y: U32, padding: nat)
    ensures PairToString(None, Some(y), padding).Some?
    ensures NumberPair(PairToString(None, Some(y), padding).value).None?
  {
    var b := PadDecimal(y, padding);
    DigitsUnpadded(b);
    SplitAfterSegment([], b, Slash);
    assert [] + [Slash] + b == [Slash] + b;
    TrimUnpadded([]);
  }

  /** A run of digits is ASCII, so its byte length is its length. */
  lemma DigitsAscii(s: string)
    requires AllDigits(s)
    ensures IsAscii(s) && Utf8Len(s) == |s|
  {
    assert IsAscii(s);
  }

  /** A run of digits has nothing to trim. */
  lemma DigitsTrimmed(s: string)
    requires AllDigits(s)
    ensures Trim(s) == s
  {
    DigitsUnpadded(s);
    TrimUnpadded(s);
  }

  /**
   * `text_pair` of a value without a slash: the whole value trimmed, no
   * second segment, and the trimmed value's byte length as the width.
   */
  lemma TextPairOfOneSegment(a: string)
    requires Slash !in a
    ensures TextPair(a) == TextualPair(Trim(a), None, Utf8Len(Trim(a)))
  {
    SplitNoSeparator(a, Slash);
  }

  /**
   * `text_pair` of "a/b": both segments trimmed (an empty one stays ""), the
   * second present even when empty, and the width the larger byte length.
   */
  lemma TextPairOfTwoSegments(a: string, b: string)
    requires Slash !in a && Slash !in b
    ensures TextPair(a + [Slash] + b)
         == TextualPair(Trim(a), Some(Trim(b)), Max(Utf8Len(Trim(a)), Utf8Len(Trim(b))))
  {
    SplitAfterSegment(a, b, Slash);
    SplitNoSeparator(b, Slash);
  }

  /**
   * `number_pair` of a value without a slash: absent unless the trimmed
   * value parses; otherwise that number alone, at the trimmed byte length.
   */
  lemma NumberPairOfOneSegment(a: string)
    requires Slash !in a
    ensures ParseU32(Trim(a)).None? ==> NumberPair(a).None?
    ensures ParseU32(Trim(a)).Some? ==>
              NumberPair(a) == Some(NumericPair(ParseU32(Trim(a)).value, None, Utf8Len(Trim(a))))
  {
    TextPairOfOneSegment(a);
  }

  /**
   * `number_pair` of "a/b": absent whenever the trimmed first segment does
   * not parse (empty, signed, non-numeric or too large), whatever follows;
   * otherwise the second number is the parse of the trimmed second segment,
   * absent when that fails, and the width still counts that segment.
   */
  lemma NumberPairOfTwoSegments(a: string, b: string)
    requires Slash !in a && Slash !in b
    ensures ParseU32(Trim(a)).None? ==> NumberPair(a + [Slash] + b).None?
    ensures ParseU32(Trim(a)).Some? ==>
              NumberPair(a + [Slash] + b)
                == Some(NumericPair(ParseU32(Trim(a)).value, ParseU32(Trim(b)),
                                    Max(Utf8Len(Trim(a)), Utf8Len(Trim(b)))))
  {
    TextPairOfTwoSegments(a, b);
  }

  /** Whatever follows a second slash is ignored by both readers. */
  lemma PairOfMoreSegments(a: string, b: string, c: string)
    requires Slash !in a && Slash !in b
    ensures TextPair(a + [Slash] + b + [Slash] + c) == TextPair(a + [Slash] + b)
    ensures NumberPair(a + [Slash] + b + [Slash] + c) == NumberPair(a + [Slash] + b)
  {
    var t := a + [Slash] + b + [Slash] + c;
    assert t == a + [Slash] + (b + [Slash] + c);
    SplitAfterSegment(a, b + [Slash] + c, Slash);
    SplitAfterSegment(b, c, Slash);
    SplitAfterSegment(a, b, Slash);
    SplitNoSeparator(b, Slash);
    assert Split(t, Slash)[..2] == [a, b] == Split(a + [Slash] + b, Slash);
    PairIgnoresLaterSegments(t, a + [Slash] + b);
  }

  /** The same, when the first segment is at least as wide as the trimmed second. */
  lemma NumberPairOfWiderFirst(text: string, a: string, b: string, v: U32)
    requires Split(text, Slash) == [a, b]
    requires Trim(a) == a && ParseU32(a) == Some(v) && Utf8Len(a) == |a|
    requires Utf8Len(Trim(b)) <= |a|
    ensures NumberPair(text) == Some(NumericPair(v, ParseU32(Trim(b)), |a|))
  {
  }

  /**
   * A value whose two segments are a run of digits N and some `rest` reads
   * with N's value and N's own length as its width, provided the trimmed rest
   * is no wider; so rewriting it at that width reproduces N exactly.
   */
  lemma NumberPairOfDigits(text: string, number: string, rest: string, v: U32)
    requires Split(text, Slash) == [number, rest]
    requires |number| >= 1 && AllDigits(number) && DigitsValue(number) == v
    requires Utf8Len(Trim(rest)) <= |number|
    ensures NumberPair(text) == Some(NumericPair(v, ParseU32(Trim(rest)), |number|))
  {
    DigitSegment(number);
    NumberPairOfWiderFirst(text, number, rest, v);
  }

  /** A non-empty run of digits that fits in 32 bits is a trimmed ASCII segment that parses to its value. */
  lemma DigitSegment(s: string)
    requires |s| >= 1 && AllDigits(s) && DigitsValue(s) <= U32_MAX
    ensures Trim(s) == s && Utf8Len(s) == |s| && ParseU32(s) == Some(DigitsValue(s))
  {
    DigitsTrimmed(s);
    DigitsAscii(s);
    DigitsParse(s);
  }

  /**
   * Only the first two segments matter: values that agree on them read the
   * same, numerically and as text, whatever follows a second slash.
   */
  lemma PairIgnoresLaterSegments(t1: string, t2: string)
    requires |Split(t1, Slash)| >= 2 && |Split(t2, Slash)| >= 2
    requires Split(t1, Slash)[..2] == Split(t2, Slash)[..2]
    ensures TextPair(t1) == TextPair(t2)
    ensures NumberPair(t1) == NumberPair(t2)
  {
    assert TextPair(t1) == TextPair(t2) by {
      assert Split(t1, Slash)[0] == Split(t2, Slash)[0];
      assert Split(t1, Slash)[1] == Split(t2, Slash)[1];
    }
  }

  /** Every written pair reads back as text: the rendered halves, "" for an absent first half. */
  lemma TextPairRoundTrip(x: Option<U32>, y: Option<U32>, padding: nat)
    requires x.Some? || y.Some?
    ensures PairToString(x, y, padding).Some?
    ensures TextPair(PairToString(x, y, padding).value)
         == TextualPair(RenderHalf(x, padding),
                        if y.Some? then Some(RenderHalf(y, padding)) else None,
                        Max(|RenderHalf(x, padding)|, |RenderHalf(y, padding)|))
  {
    var a := RenderHalf(x, padding);
    var b := if y.Some? then Some(RenderHalf(y, padding)) else None;
    SplitRendered(a, b);
    DigitsUnpadded(a);
    TrimUnpadded(a);
    if y.Some? {
      DigitsUnpadded(b.value);
      TrimUnpadded(b.value);
    }
    if x.None? {
      assert PairToString(x, y, padding).value == a + [Slash] + b.value;
    }
  }
}
