/**
 * The compound-field resolver of `taglib::File`: track number, track total,
 * disc number and disc total, read from and written to two stores that this
 * model keeps separate — the tag's native numeric track field and the
 * property map, where "N of M" lives as one slash-delimited value under
 * TRACKNUMBER or DISCNUMBER, and a track total may also live alone under
 * TRACKTOTAL.
 * Every operation is a pure function from the file state before the call to
 * the file state after it.
 */
module Resolver {
  import opened Optional
  import opened Text
  import opened Numeric
  import opened PairCodec
  import opened PropertyStore

  /** Property key whose value is "disc/total", e.g. "01/02". */
  const KeyDiscNumber: Key := "DISCNUMBER"
  /** Property key whose value is "track/total", e.g. "01/10". */
  const KeyTrackNumber: Key := "TRACKNUMBER"
  /** Property key holding a track total on its own, e.g. "10". */
  const KeyTrackTotal: Key := "TRACKTOTAL"

  /**
   * The state the resolver works on. `hasTag` says whether the native engine
   * offers a tag at all; `track` is the tag's numeric track field, where 0
   * means "no track number".
   */
  datatype AudioFile = AudioFile(hasTag: bool, track: U32, props: Properties)

  /** The first two pieces of a numeric pair with absence made explicit (`option_u32_pair_by_id`). */
  datatype OptionalPair = OptionalPair(first: Option<U32>, second: Option<U32>, width: nat)

  /** Only the properties under `keys` may differ between `a` and `b`. */
  predicate PropsOnlyChanged(a: Properties, b: Properties, keys: set<Key>) {
    a - keys == b - keys
  }

  /** `u32_to_option`: the native convention that 0 means "absent". */
  function U32ToOption(n: U32): (r: Option<U32>)
    ensures r.None? <==> n == 0
    ensures r.Some? ==> r.value == n
  {
    if n == 0 then None else Some(n)
  }

  /**
   * `number_pair_by_id`: `number_pair` of the key's first value. It is the
   * text reader's result with each segment parsed: present exactly when the
   * first text segment parses, with the same width.
   */
  function NumberPairById(props: Properties, key: Key): (r: Option<NumericPair>)
    ensures r.Some? <==> TextPairById(props, key).Some? && ParseU32(TextPairById(props, key).value.first).Some?
    ensures r.Some? ==>
      var tp := TextPairById(props, key).value;
      r.value == NumericPair(ParseU32(tp.first).value, ParseHalf(tp.second), tp.width)
  {
    match GetFirstProperty(props, key)
    case None => None
    case Some(text) => NumberPair(text)
  }

  /**
   * `text_pair_by_id`: `text_pair` of the key's first value, absent only when
   * the key has no value; the second segment is present exactly when that
   * value has a slash.
   */
  function TextPairById(props: Properties, key: Key): (r: Option<TextualPair>)
    ensures r.Some? <==> GetFirstProperty(props, key).Some?
    ensures r.Some? ==> (r.value.second.Some? <==> Slash in GetFirstProperty(props, key).value)
  {
    match GetFirstProperty(props, key)
    case None => None
    case Some(text) => Some(TextPair(text))
  }

  /**
   * `option_u32_pair_by_id`: the numeric pair under `key` with a missing or
   * unparsable value flattened to (None, None, 0); a value that parses gives
   * both segments of its text pair parsed, at the text pair's width.
   */
  function OptionU32PairById(props: Properties, key: Key): (r: OptionalPair)
    ensures r.first.Some? <==> NumberPairById(props, key).Some?
    ensures r.first.None? ==> r == OptionalPair(None, None, 0)
    ensures r.first.Some? ==>
      var tp := TextPairById(props, key).value;
      r == OptionalPair(ParseU32(tp.first), ParseHalf(tp.second), tp.width)
  {
    match NumberPairById(props, key)
    case None => OptionalPair(None, None, 0)
    case Some(p) => OptionalPair(Some(p.first), p.second, p.width)
  }

  /**
   * `set_property_split_by_slash`: the key ends up holding exactly the
   * rendered pair, or is removed when both halves are absent; no other key
   * changes.
   */
  function SetPropertySplitBySlash(props: Properties, key: Key,
                                   first: Option<U32>, last: Option<U32>, padding: nat): (r: Properties)
    ensures PropsOnlyChanged(r, props, {key})
    ensures first.None? && last.None? ==> key !in r
    ensures first.Some? || last.Some? ==> GetProperty(r, key) == [PairToString(first, last, padding).value]
  {
    var cleared := RemoveProperty(props, key);
    match PairToString(first, last, padding)
    case None => cleared
    case Some(text) =>
      assert NoNul(text);
      SetProperty(cleared, key, text)
  }

  /**
   * Whatever holds a rendered pair under `key` reads back, numerically, as the
   * pair written (or as no pair when its first half was absent), and as text
   * as the rendered halves.
   */
  lemma StoredPairReadsBack(props: Properties, key: Key, first: Option<U32>, last: Option<U32>, padding: nat)
    requires first.Some? || last.Some?
    requires GetProperty(props, key) == [PairToString(first, last, padding).value]
    ensures first.Some? ==>
      NumberPairById(props, key)
        == Some(NumericPair(first.value, last, Max(|RenderHalf(first, padding)|, |RenderHalf(last, padding)|)))
    ensures first.None? ==> NumberPairById(props, key).None?
    ensures TextPairById(props, key)
         == Some(TextualPair(RenderHalf(first, padding),
                             if last.Some? then Some(RenderHalf(last, padding)) else None,
                             Max(|RenderHalf(first, padding)|, |RenderHalf(last, padding)|)))
  {
    var text := PairToString(first, last, padding).value;
    ByIdReadsFirstValue(props, key, text);
    PairReadsBack(first, last, padding);
  }

  /** The pair readers of `key` read its first value. */
  lemma ByIdReadsFirstValue(props: Properties, key: Key, text: string)
    requires GetFirstProperty(props, key) == Some(text)
    ensures NumberPairById(props, key) == NumberPair(text)
    ensures TextPairById(props, key) == Some(TextPair(text))
  {
  }

  /** What `set_property_split_by_slash` writes is what `option_u32_pair_by_id` reads back. */
  lemma SetPropertySplitBySlashReadsBack(props: Properties, key: Key,
                                         first: Option<U32>, last: Option<U32>, padding: nat)
    ensures first.Some? ==>
      OptionU32PairById(SetPropertySplitBySlash(props, key, first, last, padding), key)
        == OptionalPair(first, last, Max(|RenderHalf(first, padding)|, |RenderHalf(last, padding)|))
    ensures first.None? ==>
      OptionU32PairById(SetPropertySplitBySlash(props, key, first, last, padding), key) == OptionalPair(None, None, 0)
  {
    if first.Some? || last.Some? {
      StoredPairReadsBack(SetPropertySplitBySlash(props, key, first, last, padding), key, first, last, padding);
    }
  }

  /** Two stores that differ only at `keys` hold the same values under any other key. */
  lemma ReadUnaffected(a: Properties, b: Properties, keys: set<Key>, key: Key)
    requires PropsOnlyChanged(a, b, keys) && key !in keys
    ensures GetProperty(a, key) == GetProperty(b, key)
    ensures GetFirstProperty(a, key) == GetFirstProperty(b, key)
  {
    assert key in a <==> key in a - keys;
    assert key in b <==> key in b - keys;
    if key in a {
      assert a[key] == (a - keys)[key];
      assert b[key] == (b - keys)[key];
    }
  }

  /** Two stores holding the same values under `key` read the same pair there. */
  lemma SameValuesSameReads(a: Properties, b: Properties, key: Key)
    requires GetProperty(a, key) == GetProperty(b, key)
    ensures NumberPairById(a, key) == NumberPairById(b, key)
    ensures TextPairById(a, key) == TextPairById(b, key)
    ensures OptionU32PairById(a, key) == OptionU32PairById(b, key)
  {
  }

  /** Every pair reader of `key` sees the same thing in two stores that differ only outside `key`. */
  lemma PairReadUnaffected(a: Properties, b: Properties, keys: set<Key>, key: Key)
    requires PropsOnlyChanged(a, b, keys) && key !in keys
    ensures NumberPairById(a, key) == NumberPairById(b, key)
    ensures TextPairById(a, key) == TextPairById(b, key)
    ensures OptionU32PairById(a, key) == OptionU32PairById(b, key)
  {
    ReadUnaffected(a, b, keys, key);
    SameValuesSameReads(a, b, key);
  }

  /** Two writes, to `k1` and then to `k2`, change nothing outside those two keys. */
  lemma OnlyChangedChain(a: Properties, b: Properties, c: Properties, k1: Key, k2: Key)
    requires PropsOnlyChanged(b, a, {k1}) && PropsOnlyChanged(c, b, {k2})
    ensures PropsOnlyChanged(c, a, {k1, k2})
  {
    assert c - {k1, k2} == (c - {k2}) - {k1};
    assert b - {k1, k2} == (b - {k1}) - {k2} == (b - {k2}) - {k1};
    assert a - {k1, k2} == (a - {k1}) - {k2};
  }

  /** What a written pair reads back as, numerically and as text. */
  lemma PairReadsBack(first: Option<U32>, last: Option<U32>, padding: nat)
    requires first.Some? || last.Some?
    ensures first.Some? ==>
      NumberPair(PairToString(first, last, padding).value)
        == Some(NumericPair(first.value, last, Max(|RenderHalf(first, padding)|, |RenderHalf(last, padding)|)))
    ensures first.None? ==> NumberPair(PairToString(first, last, padding).value).None?
    ensures TextPair(PairToString(first, last, padding).value)
         == TextualPair(RenderHalf(first, padding),
                        if last.Some? then Some(RenderHalf(last, padding)) else None,
                        Max(|RenderHalf(first, padding)|, |RenderHalf(last, padding)|))
  {
    if first.Some? {
      NumberPairRoundTrip(first.value, last, padding);
    } else {
      NumberPairLosesLoneSecond(last.value, padding);
    }
    TextPairRoundTrip(first, last, padding);
  }

  // ---------------------------------------------------------------------------
  // Track number: the native field is authoritative.

  /** `track_number`: the tag's numeric field, with 0 read as absent. */
  function TrackNumber(f: AudioFile): (r: Option<U32>)
    requires f.hasTag
    ensures r.None? <==> f.track == 0
    ensures r.Some? ==> r.value == f.track
  {
    U32ToOption(f.track)
  }

  /** The trimmed first segment of the TRACKNUMBER value, as text. */
  function TrackNumberPropertyText(f: AudioFile): Option<string> {
    match TextPairById(f.props, KeyTrackNumber)
    case None => None
    case Some(tp) => Some(tp.first)
  }

  /**
   * `track_number_string`: absent exactly when the native track is 0;
   * otherwise the TRACKNUMBER text when it parses to the native track (so its
   * zero padding survives), and the plain decimal of the native track when it
   * does not. Either way the result parses back to the native track.
   */
  function TrackNumberString(f: AudioFile): (r: Option<string>)
    requires f.hasTag
    ensures r.None? <==> f.track == 0
    ensures r.Some? ==> ParseU32(r.value) == Some(f.track)
    ensures r.Some? ==> r.value == Decimal(f.track) || r == TrackNumberPropertyText(f)
    ensures f.track != 0 && ParseHalf(TrackNumberPropertyText(f)) == Some(f.track) ==>
              r == TrackNumberPropertyText(f)
  {
    match TrackNumber(f)
    case None => None
    case Some(track) =>
      DecimalRoundTrip(track);
      match TextPairById(f.props, KeyTrackNumber)
      case None => Some(Decimal(track))
      case Some(tp) =>
        if ParseU32(tp.first) == Some(track) then Some(tp.first) else Some(Decimal(track))
  }


  /**
   * `set_track_number`: the native track becomes `value`, and TRACKNUMBER
   * holds exactly one value: `value` as its first half and the total it
   * already held (never the TRACKTOTAL key) as its second, both padded to
   * `padding`. No other property changes.
   */
  function SetTrackNumber(f: AudioFile, value: U32, padding: nat): (r: AudioFile)
    requires f.hasTag
    ensures r.hasTag && r.track == value
    ensures GetProperty(r.props, KeyTrackNumber)
         == [PairToString(Some(value), OptionU32PairById(f.props, KeyTrackNumber).second, padding).value]
    ensures PropsOnlyChanged(r.props, f.props, {KeyTrackNumber})
  {
    var total := OptionU32PairById(f.props, KeyTrackNumber).second;
    AudioFile(f.hasTag, value, SetPropertySplitBySlash(f.props, KeyTrackNumber, Some(value), total, padding))
  }

  /**
   * After `set_track_number`, the native field and the TRACKNUMBER pair both
   * read `value`, the pair keeps the total it held, and the text form keeps
   * the requested padding.
   */
  lemma SetTrackNumberReadsBack(f: AudioFile, value: U32, padding: nat)
    requires f.hasTag
    ensures TrackNumber(SetTrackNumber(f, value, padding)) == U32ToOption(value)
    ensures OptionU32PairById(SetTrackNumber(f, value, padding).props, KeyTrackNumber).first == Some(value)
    ensures OptionU32PairById(SetTrackNumber(f, value, padding).props, KeyTrackNumber).second
         == OptionU32PairById(f.props, KeyTrackNumber).second
    ensures value != 0 ==> TrackNumberString(SetTrackNumber(f, value, padding)) == Some(PadDecimal(value, padding))
  {
    var r := SetTrackNumber(f, value, padding);
    var total := OptionU32PairById(f.props, KeyTrackNumber).second;
    StoredPairReadsBack(r.props, KeyTrackNumber, Some(value), total, padding);
    if value != 0 {
      assert TrackNumberPropertyText(r) == Some(PadDecimal(value, padding));
      PadDecimalRoundTrip(value, padding);
    }
  }

  /** `set_track_number` leaves the track total as it reads. */
  lemma SetTrackNumberKeepsTotal(f: AudioFile, value: U32, padding: nat)
    requires f.hasTag
    ensures TrackTotal(SetTrackNumber(f, value, padding)) == TrackTotal(f)
  {
    var r := SetTrackNumber(f, value, padding);
    ReadUnaffected(r.props, f.props, {KeyTrackNumber}, KeyTrackTotal);
    SetTrackNumberReadsBack(f, value, padding);
    assert TrackTotalFromPropTrackNumber(r) == TrackTotalFromPropTrackNumber(f);
  }

  /**
   * `remove_track_number`: the native track becomes 0; when TRACKNUMBER
   * parses, it is rewritten without its first half at the width it had
   * ("03/12" becomes "/12", and "03" disappears); otherwise it is left alone.
   */
  function RemoveTrackNumber(f: AudioFile): (r: AudioFile)
    requires f.hasTag
    ensures r.hasTag && r.track == 0
    ensures NumberPairById(f.props, KeyTrackNumber).None? ==> r.props == f.props
    ensures NumberPairById(f.props, KeyTrackNumber).Some? ==>
      var prev := NumberPairById(f.props, KeyTrackNumber).value;
      match prev.second
      case None => KeyTrackNumber !in r.props
      case Some(y) => GetProperty(r.props, KeyTrackNumber) == [[Slash] + PadDecimal(y, prev.width)]
    ensures PropsOnlyChanged(r.props, f.props, {KeyTrackNumber})
  {
    var p := OptionU32PairById(f.props, KeyTrackNumber);
    var props := if p.first.Some? then SetPropertySplitBySlash(f.props, KeyTrackNumber, None, p.second, p.width)
                 else f.props;
    AudioFile(f.hasTag, 0, props)
  }

  /**
   * After `remove_track_number` no reader sees a track number, and calling
   * it again changes nothing.
   */
  lemma RemoveTrackNumberIdempotent(f: AudioFile)
    requires f.hasTag
    ensures TrackNumber(RemoveTrackNumber(f)) == None
    ensures TrackNumberString(RemoveTrackNumber(f)) == None
    ensures NumberPairById(RemoveTrackNumber(f).props, KeyTrackNumber).None?
    ensures RemoveTrackNumber(RemoveTrackNumber(f)) == RemoveTrackNumber(f)
  {
    var r := RemoveTrackNumber(f);
    assert NumberPairById(r.props, KeyTrackNumber).None?;
  }

  /**
   * Removing the track number from "N/M" strands the total: with no
   * TRACKTOTAL value, the text reader still sees the padded total while the
   * numeric reader sees none, because "/M" has no parsable first half.
   */
  lemma RemoveTrackNumberStrandsTotal(f: AudioFile)
    requires f.hasTag
    requires GetFirstProperty(f.props, KeyTrackTotal).None?
    requires NumberPairById(f.props, KeyTrackNumber).Some?
    requires NumberPairById(f.props, KeyTrackNumber).value.second.Some?
    ensures TrackTotal(f) == NumberPairById(f.props, KeyTrackNumber).value.second
    ensures TrackTotal(RemoveTrackNumber(f)) == None
    ensures TrackTotalString(RemoveTrackNumber(f))
         == Some(PadDecimal(NumberPairById(f.props, KeyTrackNumber).value.second.value,
                            NumberPairById(f.props, KeyTrackNumber).value.width))
  {
    var prev := NumberPairById(f.props, KeyTrackNumber).value;
    assert TrackTotalFromPropTrackNumber(f) == prev.second;
    RemoveTrackNumberLeavesTotal(f, prev.second.value, prev.width);
    LoneTotalReads(RemoveTrackNumber(f), prev.second.value, prev.width);
  }

  /** `remove_track_number` of "N/M" leaves "/M" at the old width and TRACKTOTAL untouched. */
  lemma RemoveTrackNumberLeavesTotal(f: AudioFile, total: U32, width: nat)
    requires f.hasTag
    requires NumberPairById(f.props, KeyTrackNumber).Some?
    requires NumberPairById(f.props, KeyTrackNumber).value.second == Some(total)
    requires NumberPairById(f.props, KeyTrackNumber).value.width == width
    ensures GetProperty(RemoveTrackNumber(f).props, KeyTrackNumber) == [PairToString(None, Some(total), width).value]
    ensures GetFirstProperty(RemoveTrackNumber(f).props, KeyTrackTotal) == GetFirstProperty(f.props, KeyTrackTotal)
  {
    var r := RemoveTrackNumber(f);
    assert GetProperty(r.props, KeyTrackNumber) == [[Slash] + PadDecimal(total, width)];
    RemoveTrackNumberKeepsTrackTotal(f);
  }

  /** `remove_track_number` never touches TRACKTOTAL. */
  lemma RemoveTrackNumberKeepsTrackTotal(f: AudioFile)
    requires f.hasTag
    ensures GetFirstProperty(RemoveTrackNumber(f).props, KeyTrackTotal) == GetFirstProperty(f.props, KeyTrackTotal)
  {
    ReadUnaffected(RemoveTrackNumber(f).props, f.props, {KeyTrackNumber}, KeyTrackTotal);
  }

  /** A total stored in TRACKTOTAL reads the same after `remove_track_number`, numerically and as text. */
  lemma RemoveTrackNumberKeepsStoredTotal(f: AudioFile)
    requires f.hasTag
    ensures ParseHalf(GetFirstProperty(f.props, KeyTrackTotal)).Some? ==>
              TrackTotal(RemoveTrackNumber(f)) == TrackTotal(f)
    ensures GetFirstProperty(f.props, KeyTrackTotal).Some? ==>
              TrackTotalString(RemoveTrackNumber(f)) == TrackTotalString(f)
  {
    RemoveTrackNumberKeepsTrackTotal(f);
  }

  /** A file whose TRACKNUMBER holds only a written total "/M", and no TRACKTOTAL value, reads M only as text. */
  lemma LoneTotalReads(r: AudioFile, total: U32, width: nat)
    requires GetProperty(r.props, KeyTrackNumber) == [PairToString(None, Some(total), width).value]
    requires GetFirstProperty(r.props, KeyTrackTotal).None?
    ensures TrackTotal(r) == None
    ensures TrackTotalString(r) == Some(PadDecimal(total, width))
  {
    StoredPairReadsBack(r.props, KeyTrackNumber, None, Some(total), width);
    assert TrackTotalFromPropTrackNumber(r) == None;
    assert TrackTotalStringFromPropTrackNumber(r) == Some(PadDecimal(total, width));
  }

  // ---------------------------------------------------------------------------
  // Track total: TRACKTOTAL first, then the second half of TRACKNUMBER.

  /**
   * `track_total`: the first TRACKTOTAL value when it parses as it stands
   * (it is not trimmed); otherwise the parsed second half of TRACKNUMBER.
   */
  function TrackTotal(f: AudioFile): (r: Option<U32>)
    ensures ParseHalf(GetFirstProperty(f.props, KeyTrackTotal)).Some? ==>
              r == ParseHalf(GetFirstProperty(f.props, KeyTrackTotal))
    ensures ParseHalf(GetFirstProperty(f.props, KeyTrackTotal)).None? ==>
              r == OptionU32PairById(f.props, KeyTrackNumber).second
  {
    match GetFirstProperty(f.props, KeyTrackTotal)
    case Some(text) =>
      (match ParseU32(text)
       case Some(t) => Some(t)
       case None => TrackTotalFromPropTrackNumber(f))
    case None => TrackTotalFromPropTrackNumber(f)
  }

  /** The fallback of `track_total`: the parsed second half of TRACKNUMBER, behind a parsable first half. */
  function TrackTotalFromPropTrackNumber(f: AudioFile): (r: Option<U32>)
    ensures r == OptionU32PairById(f.props, KeyTrackNumber).second
    ensures r == (if NumberPairById(f.props, KeyTrackNumber).Some?
                  then ParseHalf(TrackTotalStringFromPropTrackNumber(f)) else None)
  {
    match NumberPairById(f.props, KeyTrackNumber)
    case None => None
    case Some(p) => p.second
  }

  /**
   * `track_total_string`: the first TRACKTOTAL value verbatim whenever there
   * is one, numeric or not; otherwise the trimmed second segment of
   * TRACKNUMBER, present (possibly empty) whenever that value has a slash.
   */
  function TrackTotalString(f: AudioFile): (r: Option<string>)
    ensures GetFirstProperty(f.props, KeyTrackTotal).Some? ==> r == GetFirstProperty(f.props, KeyTrackTotal)
    ensures GetFirstProperty(f.props, KeyTrackTotal).None? ==>
              (r.Some? <==> GetFirstProperty(f.props, KeyTrackNumber).Some? &&
                            Slash in GetFirstProperty(f.props, KeyTrackNumber).value)
  {
    var res := GetFirstProperty(f.props, KeyTrackTotal);
    if res.Some? then res else TrackTotalStringFromPropTrackNumber(f)
  }

  /** The fallback of `track_total_string`: the trimmed second segment of TRACKNUMBER, whenever it has a slash. */
  function TrackTotalStringFromPropTrackNumber(f: AudioFile): (r: Option<string>)
    ensures r.Some? <==> GetFirstProperty(f.props, KeyTrackNumber).Some? &&
                         Slash in GetFirstProperty(f.props, KeyTrackNumber).value
    ensures r.Some? ==> Unpadded(r.value)
  {
    match TextPairById(f.props, KeyTrackNumber)
    case None => None
    case Some(p) => p.second
  }

  /**
   * The text reader of the track total has something whenever the numeric
   * one does. When TRACKTOTAL has no value, the numeric total is the parse of
   * the text total exactly when the TRACKNUMBER pair parses, and absent
   * otherwise, so a text total can exist without a numeric one.
   */
  lemma TrackTotalStringAgrees(f: AudioFile)
    ensures TrackTotal(f).Some? ==> TrackTotalString(f).Some?
    ensures GetFirstProperty(f.props, KeyTrackTotal).None? && TrackTotal(f).Some? ==>
              ParseHalf(TrackTotalString(f)) == TrackTotal(f)
    ensures GetFirstProperty(f.props, KeyTrackTotal).None? ==>
              TrackTotal(f) == (if NumberPairById(f.props, KeyTrackNumber).Some?
                                then ParseHalf(TrackTotalString(f)) else None)
  {
  }

  /**
   * With no TRACKTOTAL value, a TRACKNUMBER "a/b" whose first segment is not
   * a number has a text total that parses but no numeric total.
   */
  lemma TotalsDisagree(f: AudioFile, a: string, b: string)
    requires GetFirstProperty(f.props, KeyTrackTotal).None?
    requires GetFirstProperty(f.props, KeyTrackNumber) == Some(a + [Slash] + b)
    requires Slash !in a && Slash !in b
    requires ParseU32(Trim(a)).None? && ParseU32(Trim(b)).Some?
    ensures TrackTotal(f) == None
    ensures TrackTotalString(f) == Some(Trim(b))
    ensures ParseHalf(TrackTotalString(f)).Some?
  {
    TrackTotalStringOfSegments(f, a, b);
    NumberPairOfTwoSegments(a, b);
    assert NumberPairById(f.props, KeyTrackNumber).None?;
  }

  /**
   * Without a TRACKTOTAL value, the text total of a TRACKNUMBER value "a/b"
   * is `b` trimmed, whether or not it is a number.
   */
  lemma TrackTotalStringOfSegments(f: AudioFile, a: string, b: string)
    requires GetFirstProperty(f.props, KeyTrackTotal).None?
    requires GetFirstProperty(f.props, KeyTrackNumber) == Some(a + [Slash] + b)
    requires Slash !in a && Slash !in b
    ensures TrackTotalString(f) == Some(Trim(b))
  {
    TextPairOfTwoSegments(a, b);
    assert TrackTotalStringFromPropTrackNumber(f) == Some(Trim(b));
  }

  /**
   * `set_track_total`: TRACKTOTAL holds exactly the padded total, and
   * TRACKNUMBER is rewritten with the first half it already held (never the
   * native track) and the new total. No other property changes.
   */
  function SetTrackTotal(f: AudioFile, value: U32, padding: nat): (r: AudioFile)
    ensures r.hasTag == f.hasTag && r.track == f.track
    ensures GetProperty(r.props, KeyTrackTotal) == [PadDecimal(value, padding)]
    ensures GetProperty(r.props, KeyTrackNumber)
         == [PairToString(OptionU32PairById(f.props, KeyTrackNumber).first, Some(value), padding).value]
    ensures PropsOnlyChanged(r.props, f.props, {KeyTrackTotal, KeyTrackNumber})
  {
    var withTotal := SetProperty(f.props, KeyTrackTotal, PadDecimal(value, padding));
    PairReadUnaffected(withTotal, f.props, {KeyTrackTotal}, KeyTrackNumber);
    var number := OptionU32PairById(withTotal, KeyTrackNumber).first;
    var props := SetPropertySplitBySlash(withTotal, KeyTrackNumber, number, Some(value), padding);
    ReadUnaffected(props, withTotal, {KeyTrackNumber}, KeyTrackTotal);
    OnlyChangedChain(f.props, withTotal, props, KeyTrackTotal, KeyTrackNumber);
    AudioFile(f.hasTag, f.track, props)
  }

  /**
   * After `set_track_total`, both readers of the total see the new value,
   * and the number half of TRACKNUMBER reads as before.
   */
  lemma SetTrackTotalReadsBack(f: AudioFile, value: U32, padding: nat)
    ensures TrackTotal(SetTrackTotal(f, value, padding)) == Some(value)
    ensures TrackTotalString(SetTrackTotal(f, value, padding)) == Some(PadDecimal(value, padding))
    ensures OptionU32PairById(SetTrackTotal(f, value, padding).props, KeyTrackNumber).first
         == OptionU32PairById(f.props, KeyTrackNumber).first
    ensures NumberPairById(f.props, KeyTrackNumber).Some? ==>
              OptionU32PairById(SetTrackTotal(f, value, padding).props, KeyTrackNumber).second == Some(value)
  {
    var r := SetTrackTotal(f, value, padding);
    PadDecimalRoundTrip(value, padding);
    PairReadsBack(OptionU32PairById(f.props, KeyTrackNumber).first, Some(value), padding);
  }

  /**
   * `set_track_total` re-renders the TRACKNUMBER number at the new padding,
   * so the text form of the track number follows that padding when the pair
   * agreed with the native track ("03/10" with padding 1 becomes "3/12"),
   * and is the plain decimal otherwise.
   */
  lemma SetTrackTotalRerendersNumber(f: AudioFile, value: U32, padding: nat)
    requires f.hasTag && f.track != 0
    ensures OptionU32PairById(f.props, KeyTrackNumber).first == Some(f.track) ==>
              TrackNumberString(SetTrackTotal(f, value, padding)) == Some(PadDecimal(f.track, padding))
    ensures OptionU32PairById(f.props, KeyTrackNumber).first != Some(f.track) ==>
              TrackNumberString(SetTrackTotal(f, value, padding)) == Some(Decimal(f.track))
  {
    var r := SetTrackTotal(f, value, padding);
    var x := OptionU32PairById(f.props, KeyTrackNumber).first;
    StoredPairReadsBack(r.props, KeyTrackNumber, x, Some(value), padding);
    assert TrackNumberPropertyText(r) == Some(RenderHalf(x, padding));
    if x == Some(f.track) {
      PadDecimalRoundTrip(f.track, padding);
    } else if x.Some? {
      PadDecimalRoundTrip(x.value, padding);
    }
  }

  /**
   * `remove_track_total`: TRACKTOTAL is removed when it has a first value (a
   * key holding an empty list is left as it is), and a TRACKNUMBER whose
   * total parses is rewritten with the number alone at the width it had
   * ("3/12" becomes "03").
   */
  function RemoveTrackTotal(f: AudioFile): (r: AudioFile)
    ensures r.hasTag == f.hasTag && r.track == f.track
    ensures GetFirstProperty(f.props, KeyTrackTotal).Some? ==> KeyTrackTotal !in r.props
    ensures GetFirstProperty(f.props, KeyTrackTotal).None? ==> PropsOnlyChanged(r.props, f.props, {KeyTrackNumber})
    ensures OptionU32PairById(f.props, KeyTrackNumber).second.None? ==>
              GetProperty(r.props, KeyTrackNumber) == GetProperty(f.props, KeyTrackNumber)
    ensures OptionU32PairById(f.props, KeyTrackNumber).second.Some? ==>
      var prev := NumberPairById(f.props, KeyTrackNumber).value;
      GetProperty(r.props, KeyTrackNumber) == [PadDecimal(prev.first, prev.width)]
    ensures PropsOnlyChanged(r.props, f.props, {KeyTrackTotal, KeyTrackNumber})
  {
    var props := if GetFirstProperty(f.props, KeyTrackTotal).Some? then RemoveProperty(f.props, KeyTrackTotal)
                 else f.props;
    PairReadUnaffected(props, f.props, {KeyTrackTotal}, KeyTrackNumber);
    var p := OptionU32PairById(props, KeyTrackNumber);
    var props' := if p.second.Some? then SetPropertySplitBySlash(props, KeyTrackNumber, p.first, None, p.width)
                  else props;
    ReadUnaffected(props', props, {KeyTrackNumber}, KeyTrackTotal);
    OnlyChangedChain(f.props, props, props', KeyTrackTotal, KeyTrackNumber);
    AudioFile(f.hasTag, f.track, props')
  }

  /**
   * After `remove_track_total` no numeric total is left, and the TRACKNUMBER
   * pair keeps its number and its width.
   */
  lemma RemoveTrackTotalReadsBack(f: AudioFile)
    ensures TrackTotal(RemoveTrackTotal(f)) == None
    ensures OptionU32PairById(RemoveTrackTotal(f).props, KeyTrackNumber)
         == OptionU32PairById(f.props, KeyTrackNumber).(second := None)
  {
    var r := RemoveTrackTotal(f);
    RemoveTrackTotalClearsKey(f);
    RemoveTrackTotalKeepsNumber(f);
    assert TrackTotalFromPropTrackNumber(r) == None;
  }

  /** After `remove_track_total`, TRACKTOTAL has no first value. */
  lemma RemoveTrackTotalClearsKey(f: AudioFile)
    ensures GetFirstProperty(RemoveTrackTotal(f).props, KeyTrackTotal).None?
  {
    var r := RemoveTrackTotal(f);
    if GetFirstProperty(f.props, KeyTrackTotal).Some? {
      KeyGoneReadsNothing(r.props, KeyTrackTotal);
    } else {
      ReadUnaffected(r.props, f.props, {KeyTrackNumber}, KeyTrackTotal);
    }
  }

  /** A key that is not in the store has no first value. */
  lemma KeyGoneReadsNothing(props: Properties, key: Key)
    requires key !in props
    ensures GetFirstProperty(props, key).None?
  {
  }

  /** `remove_track_total` keeps the number and width of the TRACKNUMBER pair. */
  lemma RemoveTrackTotalKeepsNumber(f: AudioFile)
    ensures OptionU32PairById(RemoveTrackTotal(f).props, KeyTrackNumber)
         == OptionU32PairById(f.props, KeyTrackNumber).(second := None)
  {
    var r := RemoveTrackTotal(f);
    if OptionU32PairById(f.props, KeyTrackNumber).second.Some? {
      var np := NumberPairById(f.props, KeyTrackNumber).value;
      NumberPairWidthCoversFirst(GetFirstProperty(f.props, KeyTrackNumber).value);
      NumberOnlyReadsBack(r.props, KeyTrackNumber, np.first, np.width);
    } else {
      SameValuesSameReads(r.props, f.props, KeyTrackNumber);
    }
  }


  /** A key holding one number padded at least to its own width reads back as that number alone, at that width. */
  lemma NumberOnlyReadsBack(props: Properties, key: Key, x: U32, width: nat)
    requires width >= |Decimal(x)|
    requires GetProperty(props, key) == [PadDecimal(x, width)]
    ensures OptionU32PairById(props, key) == OptionalPair(Some(x), None, width)
  {
    assert PairToString(Some(x), None, width).value == PadDecimal(x, width);
    StoredPairReadsBack(props, key, Some(x), None, width);
  }

  /** Calling `remove_track_total` a second time changes nothing. */
  lemma RemoveTrackTotalIdempotent(f: AudioFile)
    ensures RemoveTrackTotal(RemoveTrackTotal(f)) == RemoveTrackTotal(f)
  {
    var r := RemoveTrackTotal(f);
    RemoveTrackTotalReadsBack(f);
    assert RemoveTrackTotal(r).props == r.props;
  }

  /**
   * `remove_track_total` re-renders a TRACKNUMBER pair that had a total at
   * the width recovered from it, so the text form of the track number takes
   * that width (" 3 /12" becomes "03"); without a total nothing changes.
   */
  lemma RemoveTrackTotalRerendersNumber(f: AudioFile)
    requires f.hasTag && f.track != 0
    ensures OptionU32PairById(f.props, KeyTrackNumber).second.None? ==>
              TrackNumberString(RemoveTrackTotal(f)) == TrackNumberString(f)
    ensures OptionU32PairById(f.props, KeyTrackNumber).second.Some? &&
            OptionU32PairById(f.props, KeyTrackNumber).first == Some(f.track) ==>
              TrackNumberString(RemoveTrackTotal(f))
                == Some(PadDecimal(f.track, OptionU32PairById(f.props, KeyTrackNumber).width))
  {
    var r := RemoveTrackTotal(f);
    var p := OptionU32PairById(f.props, KeyTrackNumber);
    if p.second.Some? {
      if p.first == Some(f.track) {
        StoredPairReadsBack(r.props, KeyTrackNumber, p.first, None, p.width);
        PadDecimalRoundTrip(f.track, p.width);
      }
    } else {
      SameValuesSameReads(r.props, f.props, KeyTrackNumber);
    }
  }

  // ---------------------------------------------------------------------------
  // Disc number and total: DISCNUMBER alone is authoritative.

  /** `disc_number`: the first half of DISCNUMBER, when the value parses. */
  function DiscNumber(f: AudioFile): (r: Option<U32>)
    ensures r.Some? <==> NumberPairById(f.props, KeyDiscNumber).Some?
  {
    match NumberPairById(f.props, KeyDiscNumber)
    case None => None
    case Some(p) => Some(p.first)
  }

  /** `disc_number_string`: the trimmed first segment of DISCNUMBER, possibly empty. */
  function DiscNumberString(f: AudioFile): (r: Option<string>)
    ensures r.Some? <==> GetFirstProperty(f.props, KeyDiscNumber).Some?
    ensures r.Some? ==> Unpadded(r.value)
  {
    match TextPairById(f.props, KeyDiscNumber)
    case None => None
    case Some(p) => Some(p.first)
  }

  /** `disc_total`: the second half of DISCNUMBER, only when the first half parses too. */
  function DiscTotal(f: AudioFile): (r: Option<U32>)
    ensures r.Some? ==> DiscNumber(f).Some?
    ensures NumberPairById(f.props, KeyDiscNumber).Some? ==>
              r == ParseHalf(TextPairById(f.props, KeyDiscNumber).value.second)
  {
    match NumberPairById(f.props, KeyDiscNumber)
    case None => None
    case Some(p) => p.second
  }

  /** `disc_total_string`: the trimmed second segment of DISCNUMBER, whenever the value has a slash. */
  function DiscTotalString(f: AudioFile): (r: Option<string>)
    ensures r.Some? <==> GetFirstProperty(f.props, KeyDiscNumber).Some? &&
                         Slash in GetFirstProperty(f.props, KeyDiscNumber).value
  {
    match TextPairById(f.props, KeyDiscNumber)
    case None => None
    case Some(p) => p.second
  }

  /**
   * The numeric disc readers are the parses of the text readers: the disc
   * number always, the disc total whenever the disc number is read (and
   * never otherwise).
   */
  lemma DiscStringsAgree(f: AudioFile)
    ensures DiscNumber(f) == ParseHalf(DiscNumberString(f))
    ensures DiscTotal(f) == (if DiscNumber(f).Some? then ParseHalf(DiscTotalString(f)) else None)
  {
  }

  /** A DISCNUMBER value without a slash reads, as text, as itself trimmed and no total. */
  lemma DiscStringsOfOneSegment(f: AudioFile, a: string)
    requires GetFirstProperty(f.props, KeyDiscNumber) == Some(a)
    requires Slash !in a
    ensures DiscNumberString(f) == Some(Trim(a))
    ensures DiscTotalString(f) == None
  {
    TextPairOfOneSegment(a);
  }

  /** A DISCNUMBER value "a/b" reads, as text, as `a` and `b` trimmed, numeric or not. */
  lemma DiscStringsOfTwoSegments(f: AudioFile, a: string, b: string)
    requires GetFirstProperty(f.props, KeyDiscNumber) == Some(a + [Slash] + b)
    requires Slash !in a && Slash !in b
    ensures DiscNumberString(f) == Some(Trim(a))
    ensures DiscTotalString(f) == Some(Trim(b))
  {
    TextPairOfTwoSegments(a, b);
  }

  /**
   * `set_disc_number`: DISCNUMBER holds exactly one value, the padded number
   * followed by the total it already held. No other property changes.
   */
  function SetDiscNumber(f: AudioFile, value: U32, padding: nat): (r: AudioFile)
    ensures r.hasTag == f.hasTag && r.track == f.track
    ensures GetProperty(r.props, KeyDiscNumber) == [PairToString(Some(value), DiscTotal(f), padding).value]
    ensures PropsOnlyChanged(r.props, f.props, {KeyDiscNumber})
  {
    var p := OptionU32PairById(f.props, KeyDiscNumber);
    AudioFile(f.hasTag, f.track, SetPropertySplitBySlash(f.props, KeyDiscNumber, Some(value), p.second, padding))
  }

  /** After `set_disc_number` the number reads back as written and the total as before. */
  lemma SetDiscNumberReadsBack(f: AudioFile, value: U32, padding: nat)
    ensures DiscNumber(SetDiscNumber(f, value, padding)) == Some(value)
    ensures DiscTotal(SetDiscNumber(f, value, padding)) == DiscTotal(f)
    ensures DiscNumberString(SetDiscNumber(f, value, padding)) == Some(PadDecimal(value, padding))
  {
    PairReadsBack(Some(value), DiscTotal(f), padding);
  }

  /**
   * `set_disc_total`: DISCNUMBER holds exactly one value, the number it
   * already held (if it parsed) followed by the padded total. Without a
   * parsable number the value is "/" and the total.
   */
  function SetDiscTotal(f: AudioFile, value: U32, padding: nat): (r: AudioFile)
    ensures r.hasTag == f.hasTag && r.track == f.track
    ensures GetProperty(r.props, KeyDiscNumber) == [PairToString(DiscNumber(f), Some(value), padding).value]
    ensures PropsOnlyChanged(r.props, f.props, {KeyDiscNumber})
  {
    var p := OptionU32PairById(f.props, KeyDiscNumber);
    AudioFile(f.hasTag, f.track, SetPropertySplitBySlash(f.props, KeyDiscNumber, p.first, Some(value), padding))
  }

  /**
   * After `set_disc_total` the text reader sees the padded total, the number
   * reads as before, and the numeric reader sees the total only when there
   * is a parsable number in front of it.
   */
  lemma SetDiscTotalReadsBack(f: AudioFile, value: U32, padding: nat)
    ensures DiscNumber(SetDiscTotal(f, value, padding)) == DiscNumber(f)
    ensures DiscTotal(SetDiscTotal(f, value, padding)) == if DiscNumber(f).Some? then Some(value) else None
    ensures DiscTotalString(SetDiscTotal(f, value, padding)) == Some(PadDecimal(value, padding))
  {
    PairReadsBack(DiscNumber(f), Some(value), padding);
  }

  /**
   * `remove_disc_number`: a DISCNUMBER that parses is rewritten without its
   * number at the width it had, or removed when it held no total; one that
   * does not parse is left alone.
   */
  function RemoveDiscNumber(f: AudioFile): (r: AudioFile)
    ensures r.hasTag == f.hasTag && r.track == f.track
    ensures NumberPairById(f.props, KeyDiscNumber).None? ==> r == f
    ensures NumberPairById(f.props, KeyDiscNumber).Some? ==>
      var prev := NumberPairById(f.props, KeyDiscNumber).value;
      match prev.second
      case None => KeyDiscNumber !in r.props
      case Some(y) => GetProperty(r.props, KeyDiscNumber) == [[Slash] + PadDecimal(y, prev.width)]
    ensures PropsOnlyChanged(r.props, f.props, {KeyDiscNumber})
  {
    var p := OptionU32PairById(f.props, KeyDiscNumber);
    if p.first.Some? then
      AudioFile(f.hasTag, f.track, SetPropertySplitBySlash(f.props, KeyDiscNumber, None, p.second, p.width))
    else
      f
  }

  /**
   * After `remove_disc_number` no disc number is read, a total that was there
   * survives only as text, and calling it again changes nothing.
   */
  lemma RemoveDiscNumberIdempotent(f: AudioFile)
    ensures DiscNumber(RemoveDiscNumber(f)) == None
    ensures DiscTotal(RemoveDiscNumber(f)) == None
    ensures DiscTotal(f).Some? ==>
              DiscTotalString(RemoveDiscNumber(f))
                == Some(PadDecimal(DiscTotal(f).value, NumberPairById(f.props, KeyDiscNumber).value.width))
    ensures RemoveDiscNumber(RemoveDiscNumber(f)) == RemoveDiscNumber(f)
  {
    var prev := OptionU32PairById(f.props, KeyDiscNumber);
    if prev.first.Some? && prev.second.Some? {
      PairReadsBack(None, prev.second, prev.width);
    }
  }

  /**
   * `remove_disc_total`: a DISCNUMBER whose total parses is rewritten with
   * the number alone at the width it had; otherwise nothing changes.
   */
  function RemoveDiscTotal(f: AudioFile): (r: AudioFile)
    ensures r.hasTag == f.hasTag && r.track == f.track
    ensures DiscTotal(f).None? ==> r == f
    ensures DiscTotal(f).Some? ==>
      var prev := NumberPairById(f.props, KeyDiscNumber).value;
      GetProperty(r.props, KeyDiscNumber) == [PadDecimal(prev.first, prev.width)]
    ensures PropsOnlyChanged(r.props, f.props, {KeyDiscNumber})
  {
    var p := OptionU32PairById(f.props, KeyDiscNumber);
    if p.second.Some? then
      AudioFile(f.hasTag, f.track, SetPropertySplitBySlash(f.props, KeyDiscNumber, p.first, None, p.width))
    else
      f
  }

  /**
   * After `remove_disc_total` no total is read, numerically or as text (when
   * there was one to remove), the number reads as before, and calling it
   * again changes nothing.
   */
  lemma RemoveDiscTotalIdempotent(f: AudioFile)
    ensures DiscTotal(RemoveDiscTotal(f)) == None
    ensures DiscNumber(RemoveDiscTotal(f)) == DiscNumber(f)
    ensures DiscTotal(f).Some? ==> DiscTotalString(RemoveDiscTotal(f)) == None
    ensures RemoveDiscTotal(RemoveDiscTotal(f)) == RemoveDiscTotal(f)
  {
    var prev := OptionU32PairById(f.props, KeyDiscNumber);
    if prev.second.Some? {
      PairReadsBack(prev.first, None, prev.width);
    }
  }

  /**
   * Width preservation: removing the total from a DISCNUMBER value "N/M",
   * where N is plain digits at least as wide as the trimmed total M, leaves
   * exactly "N", leading zeros included.
   */
  lemma RemoveDiscTotalKeepsNumberText(f: AudioFile, text: string, number: string, rest: string)
    requires GetFirstProperty(f.props, KeyDiscNumber) == Some(text)
    requires Split(text, Slash) == [number, rest]
    requires |number| >= 1 && AllDigits(number) && DigitsValue(number) <= U32_MAX
    requires ParseU32(Trim(rest)).Some? && |Trim(rest)| <= |number|
    ensures GetProperty(RemoveDiscTotal(f).props, KeyDiscNumber) == [number]
  {
    var v: U32 := DigitsValue(number);
    DiscPairOfDigits(f, text, number, rest, v);
    RemoveDiscTotalRewrites(f, v, ParseU32(Trim(rest)).value, |number|);
    PadDecimalPreservesDigits(number);
  }

  /** `remove_disc_total` of a pair (x, y, w) leaves x alone, padded to w. */
  lemma RemoveDiscTotalRewrites(f: AudioFile, x: U32, y: U32, w: nat)
    requires NumberPairById(f.props, KeyDiscNumber) == Some(NumericPair(x, Some(y), w))
    ensures GetProperty(RemoveDiscTotal(f).props, KeyDiscNumber) == [PadDecimal(x, w)]
  {
    assert DiscTotal(f) == Some(y);
  }

  /** The DISCNUMBER pair read from "N/rest" has N's value and N's length as its width. */
  lemma DiscPairOfDigits(f: AudioFile, text: string, number: string, rest: string, v: U32)
    requires GetFirstProperty(f.props, KeyDiscNumber) == Some(text)
    requires Split(text, Slash) == [number, rest]
    requires |number| >= 1 && AllDigits(number) && DigitsValue(number) == v
    requires ParseU32(Trim(rest)).Some? && |Trim(rest)| <= |number|
    ensures NumberPairById(f.props, KeyDiscNumber) == Some(NumericPair(v, ParseU32(Trim(rest)), |number|))
  {
    ParsedIsAscii(Trim(rest));
    NumberPairOfDigits(text, number, rest, v);
  }
}
