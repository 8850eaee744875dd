/**
 * Worked examples of the pair codec and the resolver on concrete values:
 * what a caller sees, including the lossy corners.
 */
module Examples {
  import opened Optional
  import opened Text
  import opened Numeric
  import opened PairCodec
  import opened PropertyStore
  import opened Resolver

  lemma DecimalExamples()
    ensures Decimal(3) == "3" && Decimal(12) == "12"
    ensures PadDecimal(3, 2) == "03" && PadDecimal(12, 2) == "12" && PadDecimal(3, 0) == "3"
  {
    assert DigitChar(1) == '1' && DigitChar(2) == '2' && DigitChar(3) == '3';
    assert Decimal(1) == "1";
    assert Decimal(12) == Decimal(1) + [DigitChar(2)];
    assert Zeros(1) == "0";
  }

  /** "03/12", "03" and "/12": the three shapes a written pair takes. */
  lemma PairToStringExamples()
    ensures PairToString(Some(3), Some(12), 2) == Some("03/12")
    ensures PairToString(Some(3), None, 2) == Some("03")
    ensures PairToString(None, Some(12), 2) == Some("/12")
  {
    DecimalExamples();
    assert "03" + [Slash] + "12" == "03/12";
    assert [Slash] + "12" == "/12";
  }

  /** "03/12" reads back as 3 of 12 at width 2; "/12" does not read as a numeric pair at all. */
  lemma NumberPairExamples()
    ensures NumberPair("03/12") == Some(NumericPair(3, Some(12), 2))
    ensures NumberPair("03") == Some(NumericPair(3, None, 2))
    ensures NumberPair("/12") == None
    ensures TextPair("/12") == TextualPair("", Some("12"), 2)
  {
    PairToStringExamples();
    DecimalExamples();
    NumberPairRoundTrip(3, Some(12), 2);
    NumberPairRoundTrip(3, None, 2);
    NumberPairLosesLoneSecond(12, 2);
    TextPairRoundTrip(None, Some(12), 2);
  }

  /** A file with a tag, track 0 and no properties. */
  const Blank := AudioFile(true, 0, map[])

  /** Setting track 3 with padding 2 on a blank file stores "03" and no total. */
  lemma SetTrackNumberExample()
    ensures GetProperty(SetTrackNumber(Blank, 3, 2).props, KeyTrackNumber) == ["03"]
    ensures TrackNumber(SetTrackNumber(Blank, 3, 2)) == Some(3)
    ensures TrackTotal(SetTrackNumber(Blank, 3, 2)) == None
  {
    PairToStringExamples();
    assert OptionU32PairById(Blank.props, KeyTrackNumber) == OptionalPair(None, None, 0);
    SetTrackNumberKeepsTotal(Blank, 3, 2);
  }

  /** Then setting total 12 writes it twice: TRACKTOTAL "12" and TRACKNUMBER "03/12". */
  lemma SetTrackTotalExample()
    ensures var f := SetTrackTotal(SetTrackNumber(Blank, 3, 2), 12, 2);
      GetProperty(f.props, KeyTrackTotal) == ["12"] && GetProperty(f.props, KeyTrackNumber) == ["03/12"]
  {
    PairToStringExamples();
    DecimalExamples();
    SetTrackNumberReadsBack(Blank, 3, 2);
  }

  /** Then removing the total leaves TRACKNUMBER "03", at the width it had, and no TRACKTOTAL. */
  lemma RemoveTrackTotalExample()
    ensures var f := RemoveTrackTotal(SetTrackTotal(SetTrackNumber(Blank, 3, 2), 12, 2));
      GetProperty(f.props, KeyTrackNumber) == ["03"] && KeyTrackTotal !in f.props
  {
    var g := SetTrackTotal(SetTrackNumber(Blank, 3, 2), 12, 2);
    SetTrackTotalExample();
    NumberPairExamples();
    PairToStringExamples();
    assert NumberPairById(g.props, KeyTrackNumber) == Some(NumericPair(3, Some(12), 2));
  }

  /** Removing the number instead leaves TRACKNUMBER "/12", while TRACKTOTAL still answers 12. */
  lemma RemoveTrackNumberExample()
    ensures var f := RemoveTrackNumber(SetTrackTotal(SetTrackNumber(Blank, 3, 2), 12, 2));
      GetProperty(f.props, KeyTrackNumber) == ["/12"] && TrackTotal(f) == Some(12) && TrackNumber(f) == None
  {
    var g := SetTrackTotal(SetTrackNumber(Blank, 3, 2), 12, 2);
    SetTrackTotalExample();
    NumberPairExamples();
    PairToStringExamples();
    assert NumberPairById(g.props, KeyTrackNumber) == Some(NumericPair(3, Some(12), 2));
    var f := RemoveTrackNumber(g);
    ReadUnaffected(f.props, g.props, {KeyTrackNumber}, KeyTrackTotal);
    PadDecimalRoundTrip(12, 2);
  }

  lemma TwelveSegment()
    ensures Trim("12") == "12" && Utf8Len("12") == 2 && ParseU32("12") == Some(12)
  {
    DigitsTrimmed("12");
    DigitsAscii("12");
    assert DigitsValue("12") == 12;
  }

  /** "3/12" reads as 3 of 12 at width 2, the width of its wider segment. */
  lemma UnevenPairExample()
    ensures NumberPair("3/12") == Some(NumericPair(3, Some(12), 2))
  {
    UnevenPairReads();
    SlashJoins();
  }

  lemma UnevenPairReads()
    ensures NumberPair("3" + [Slash] + "12") == Some(NumericPair(3, Some(12), 2))
  {
    TwelveSegment();
    DigitSegment("3");
    NumberPairOfTwoSegments("3", "12");
  }

  /** An empty value has no numeric pair. */
  lemma EmptyValueExample()
    ensures NumberPair("") == None
  {
    NotANumber("");
    NumberPairOfOneSegment("");
  }

  /** Nor does a value whose first segment is empty. */
  lemma LoneSlashExample()
    ensures NumberPair("/") == None
  {
    FirstSegmentRejected("", "");
    SlashJoins();
  }

  /** A non-numeric first segment loses the whole numeric pair, whatever follows. */
  lemma NonNumericFirstExample()
    ensures NumberPair("x/3") == None
  {
    FirstSegmentRejected("x", "3");
    SlashJoins();
  }

  /** "a/b" has no numeric pair when `a` is empty or starts with neither a digit nor '+'. */
  lemma FirstSegmentRejected(a: string, b: string)
    requires Unpadded(a) && (|a| == 0 || (!IsDigit(a[0]) && a[0] != '+'))
    requires Slash !in a && Slash !in b
    ensures NumberPair(a + [Slash] + b).None?
  {
    NotANumber(a);
    NumberPairOfTwoSegments(a, b);
  }

  /** A segment that is empty or starts with neither a digit nor '+' does not parse once trimmed. */
  lemma NotANumber(s: string)
    requires Unpadded(s)
    requires |s| == 0 || (!IsDigit(s[0]) && s[0] != '+')
    ensures Trim(s) == s
    ensures ParseU32(Trim(s)).None?
  {
    TrimUnpadded(s);
    Unparsable(s);
  }

  lemma Unparsable(s: string)
    requires |s| == 0 || (!IsDigit(s[0]) && s[0] != '+')
    ensures ParseU32(s).None?
  {
  }

  /** Whitespace around a segment is trimmed before it is parsed and measured. */
  lemma PaddedSegmentExample()
    ensures NumberPair(" 2 ") == Some(NumericPair(2, None, 1))
  {
    PaddedTwo();
    DigitFacts("2", 2);
    OneSegmentRead(" 2 ", 2, 1);
  }

  lemma PaddedTwo()
    ensures Slash !in " 2 " && Trim(" 2 ") == "2"
  {
    TrimOfPadded(" ", "2", " ");
    assert " " + "2" + " " == " 2 ";
  }

  /** A second segment that does not parse is dropped, but its length still sets the width. */
  lemma UnparsableSecondExample()
    ensures NumberPair("3/xyz") == Some(NumericPair(3, None, 3))
  {
    ThreeSlashXyzReads();
    SlashJoins();
  }

  lemma ThreeSlashXyzReads()
    ensures NumberPair("3" + [Slash] + "xyz") == Some(NumericPair(3, None, 3))
  {
    ThreeReads();
    XyzReads();
    TwoSegmentRead("3", "xyz", 3, None, 3);
  }

  lemma ThreeReads()
    ensures Slash !in "3" && ParseU32(Trim("3")) == Some(3) && Utf8Len(Trim("3")) == 1
  {
    DigitFacts("3", 3);
  }

  lemma XyzReads()
    ensures Slash !in "xyz" && ParseU32(Trim("xyz")).None? && Utf8Len(Trim("xyz")) == 3
  {
    NotANumber("xyz");
    assert IsAscii("xyz");
  }

  /** The example values, spelled as their segments joined by the separator. */
  lemma SlashJoins()
    ensures "" + [Slash] + "" == "/"
    ensures "x" + [Slash] + "3" == "x/3"
    ensures "3" + [Slash] + "12" == "3/12"
    ensures "3" + [Slash] + "xyz" == "3/xyz"
    ensures "02" + [Slash] + "" == "02/"
  {
  }

  /** A plain digit string is its own trim, parses to its value, and is as wide as it is long. */
  lemma DigitFacts(s: string, v: U32)
    requires |s| >= 1 && AllDigits(s) && DigitsValue(s) == v
    ensures Trim(s) == s && ParseU32(s) == Some(v) && Utf8Len(s) == |s|
  {
    DigitSegment(s);
  }

  /** `NumberPairOfOneSegment` with the segment's reading supplied. */
  lemma OneSegmentRead(a: string, x: U32, w: nat)
    requires Slash !in a && ParseU32(Trim(a)) == Some(x) && Utf8Len(Trim(a)) == w
    ensures NumberPair(a) == Some(NumericPair(x, None, w))
  {
    NumberPairOfOneSegment(a);
  }

  /** `NumberPairOfTwoSegments` with both segments' readings supplied. */
  lemma TwoSegmentRead(a: string, b: string, x: U32, y: Option<U32>, w: nat)
    requires Slash !in a && Slash !in b
    requires ParseU32(Trim(a)) == Some(x) && ParseU32(Trim(b)) == y
    requires Max(Utf8Len(Trim(a)), Utf8Len(Trim(b))) == w
    ensures NumberPair(a + [Slash] + b) == Some(NumericPair(x, y, w))
  {
    NumberPairOfTwoSegments(a, b);
  }

  /** A trailing slash gives an empty, but present, second segment. */
  lemma TrailingSlashExample()
    ensures TextPair("02/") == TextualPair("02", Some(""), 2)
  {
    TrailingSlashReads();
    SlashJoins();
  }

  lemma TrailingSlashReads()
    ensures TextPair("02" + [Slash] + "") == TextualPair("02", Some(""), 2)
  {
    DigitSegment("02");
    TrimUnpadded("");
    TextPairOfTwoSegments("02", "");
  }

  /** Removing the disc total from "3/12" pads the surviving number to that width: "03". */
  lemma RemoveDiscTotalExample()
    ensures GetProperty(RemoveDiscTotal(AudioFile(true, 0, map[KeyDiscNumber := ["3/12"]])).props, KeyDiscNumber)
         == ["03"]
  {
    UnevenPairExample();
    DecimalExamples();
  }
}
