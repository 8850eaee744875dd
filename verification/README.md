# taglib-rust: the compound tag fields, modelled in Dafny

taglib-rust wraps the native TagLib library. Besides the plain tag
accessors, its `File` type offers four *compound* fields: track number,
track total, disc number and disc total. They are stored in two places.

- The tag's native numeric track field. Here 0 means "no track".
- The property map. Each key holds a list of strings.
  - TRACKNUMBER and DISCNUMBER hold an "N/M" pair as one slash-delimited value, such as "03/12".
  - TRACKTOTAL may hold a track total on its own.

This project models that resolver as pure functions over an abstract file state
`AudioFile(hasTag, track, props)`. It also models the pair codec under it:

- zero-padded decimals;
- `pair_to_string`;
- `number_pair` and `text_pair`;
- `str::parse::<u32>`;
- `str::trim`;
- UTF-8 byte length.

It further models the property map operations, the plain string accessors, and the
`FileType` name and suffix tables.

Modules, one per file:

- `Optional`: the `Option` type.
- `Text`: Unicode whitespace, `Trim`, `Split` and `Join` on a separator, and UTF-8 length.
- `Numeric`: `U32`, `Decimal`, `PadDecimal` and `ParseU32`, with their round trips.
- `PairCodec`: the "N/M" codec and its round trips.
- `PropertyStore`: the property map.
- `Resolver`: the compound fields.
- `PlainFields`: album artist, composer, copyright and date.
- `FileTypes`: the format names and suffix lists.
- `Examples`: concrete values the readers and writers are proved to produce.

Each writer's contract states what the key now holds. It also states that no
other key changes. Partner lemmas state what the readers of the fields the
writer is about then see. Where a writer re-renders a neighbouring value,
lemmas state that too: `set_track_total` and `remove_track_total` rewrite the
text of the track number. The native track field and the property map are
modelled as two separate stores (see Left out).

### Surprising behaviour of the code

The model follows the code in each case.

- `text_pair` never fails. A missing first segment is "", and a trailing slash gives the second segment as `Some("")`.
- `number_pair` of "/15" is absent altogether, and so is `number_pair` of "x/15". A total stored without a parsable number is therefore invisible to `disc_total` and to the TRACKNUMBER fallback of `track_total`, while the text readers still show it.
- Only the first two segments of a value are read. "1/2/3" reads as 1 of 2.
- `set_track_number` takes the total it writes from the TRACKNUMBER pair only, never from TRACKTOTAL.
- `set_track_total` takes the number from the TRACKNUMBER pair, never from the native field.
- The number removers rewrite a pair whose number parses. The total removers rewrite one whose total parses too. Both use the width recovered from the old value.
- The width is the larger of the two trimmed segments' UTF-8 byte lengths.
- The TRACKTOTAL value is parsed without trimming. "12 " is not a number there, so the TRACKNUMBER fallback is used.
- `remove_track_total` deletes TRACKTOTAL only when it has a first value. A key holding an empty list is left in place.
- `FileType::DFF.suffix()` answers the DSF table. See Findings.

## Model

| member | source | states |
|---|---|---|
| Text.Trim | src/lib.rs:828-841 | the segment `trim` yields has no leading or trailing Unicode whitespace and is no longer than the input |
| Text.TrimOfPadded | src/lib.rs:852-865 | trimming removes exactly the whitespace around a core that starts and ends with non-whitespace |
| Text.Split | src/lib.rs:828-841 | `split('/')` yields at least one segment, no segment holds the separator, and joining them gives back the input |
| Text.SplitJoin | src/lib.rs:852-865 | splitting a join of separator-free segments gives back exactly those segments |
| Text.Utf8Len | src/lib.rs:828-841 | the byte length `str::len` reports lies between the character count and four times it, and equals the character count exactly for ASCII text |
| Numeric.Decimal | src/lib.rs:961-963 | `u32` display is a non-empty ASCII digit string whose value is the number, with no redundant leading zero |
| Numeric.PadDecimal | src/lib.rs:961-963 | `decimal_to_padding_string` gives ASCII digits exactly max(padding, digit count) long |
| Numeric.PadDecimalShape | src/lib.rs:961-963 | the padded form is zeros followed by the plain decimal form; it is at least `padding` long and never truncated |
| Numeric.PadDecimalRoundTrip | src/lib.rs:961-963 | every padded rendering parses back to its number |
| Numeric.ParseU32 | src/lib.rs:828-841 | `parse::<u32>` succeeds only on an optional '+' followed by digits; an empty string, a lone sign, whitespace or any other character is rejected |
| Numeric.DigitsParse | src/lib.rs:828-841 | a non-empty run of digits whose value fits in 32 bits parses to exactly that value |
| Numeric.PlusSignAccepted | src/lib.rs:828-841 | a '+' in front of a non-empty run of digits is accepted and does not change the value |
| Numeric.OverflowRejected | src/lib.rs:828-841 | a run of digits whose value exceeds `u32::MAX` is rejected, with or without a '+' |
| Numeric.PadDecimalPreservesDigits | src/lib.rs:961-963 | a digit string re-rendered at its own length is reproduced exactly, leading zeros included |
| Numeric.ParsedWidthCoversDecimal | src/lib.rs:828-841 | a string that parses to n is at least as long as n's decimal form, so the recovered width never truncates |
| PairCodec.RenderHalf | src/lib.rs:807-817 | one half renders as padded digits, and as nothing exactly when absent |
| PairCodec.PairToString | src/lib.rs:807-817 | absent exactly when both halves are absent; holds a slash exactly when the second half is present; holds only digits and slashes |
| PairCodec.TextPair | src/lib.rs:852-865 | neither segment has whitespace at either end; the second is present exactly when the text has a slash; the width is the byte length of one of the segments and at least that of each |
| PairCodec.TextPairOfOneSegment | src/lib.rs:852-865 | a value without a slash reads as itself trimmed, no second segment, and its trimmed byte length |
| PairCodec.TextPairOfTwoSegments | src/lib.rs:852-865 | "a/b" reads as `a` and `b` trimmed, the second present even when empty, with the larger trimmed byte length as the width |
| PairCodec.NumberPair | src/lib.rs:828-841 | a second number is only found after a slash |
| PairCodec.NumberPairOfOneSegment | src/lib.rs:828-841 | a value without a slash has a numeric pair exactly when its trimmed text parses: that number, no second, at the trimmed byte length |
| PairCodec.NumberPairOfTwoSegments | src/lib.rs:828-841 | "a/b" has no numeric pair when trimmed `a` does not parse, whatever `b` is; otherwise `b` trimmed and parsed is the second number, absent when it does not parse, and the width still counts `b` |
| PairCodec.PairOfMoreSegments | src/lib.rs:828-865 | anything after a second slash changes neither reading |
| PairCodec.NumberPairWidthCoversFirst | src/lib.rs:828-841 | the recovered width covers the first number's decimal form, so writing the pair back at that width never truncates it |
| PairCodec.NumberPairRoundTrip | src/lib.rs:807-841 | a pair written with its first half reads back as the same numbers, with the width of the wider rendered half |
| PairCodec.NumberPairLosesLoneSecond | src/lib.rs:807-841 | a pair written without its first half ("/12") reads back as no numeric pair |
| PairCodec.TextPairRoundTrip | src/lib.rs:807-865 | every written pair reads back as text: the rendered halves, with "" for an absent first half |
| PairCodec.NumberPairOfDigits | src/lib.rs:828-841 | "N/rest" with N plain digits reads with N's value and N's own length as the width, when the trimmed rest is no wider |
| PairCodec.PairIgnoresLaterSegments | src/lib.rs:852-865 | values that agree on their first two segments read the same, numerically and as text |
| PropertyStore.GetProperty | src/lib.rs:885-892 | a key that is not set reads as no values; a set key reads as its stored values, in order |
| PropertyStore.GetFirstProperty | src/lib.rs:876-883 | absent exactly when the key has no values; otherwise the first value |
| PropertyStore.SetProperty | src/lib.rs:901-910 | the key holds exactly the one value and no other key changes |
| PropertyStore.SetAppendProperty | src/lib.rs:912-921 | the value is added after the key's existing values and no other key changes |
| PropertyStore.RemoveProperty | src/lib.rs:923-929 | the key is gone and no other key changes |
| PropertyStore.SetThenGetFirst | src/lib.rs:876-929 | a set value is what is read back first, and a removed key reads as nothing |
| PropertyStore.AppendKeepsFirst | src/lib.rs:912-921 | appending never hides an existing first value, and it supplies one when there was none |
| PropertyStore.OtherKeysUnaffected | src/lib.rs:901-929 | setting, appending or removing one key leaves every other key's values as they were |
| Resolver.U32ToOption | src/lib.rs:64-66 | 0 means absent; any other number is kept |
| Resolver.OptionU32PairById | src/lib.rs:867-874 | the first number is present exactly when the key's value parses as a pair, and then the result is both segments of the text pair parsed, at its width; otherwise it is (None, None, 0) |
| Resolver.NumberPairById | src/lib.rs:819-826 | the numeric pair of a key is its text pair with each segment parsed: present exactly when the first text segment parses, with the same width |
| Resolver.TextPairById | src/lib.rs:843-850 | absent only when the key has no value; the second segment is present exactly when that value has a slash |
| Resolver.SetPropertySplitBySlash | src/lib.rs:794-805 | the key holds exactly the rendered pair, or is removed when both halves are absent; no other key changes |
| Resolver.SetPropertySplitBySlashReadsBack | src/lib.rs:794-874 | what is written under a key is what `option_u32_pair_by_id` reads back, width included, and (None, None, 0) when the first half was absent |
| Resolver.StoredPairReadsBack | src/lib.rs:819-850 | a key holding a rendered pair reads back, numerically and as text, as the halves written |
| Resolver.ReadUnaffected | src/lib.rs:876-892 | two stores that differ only at other keys hold the same values, and the same first value, under a key |
| Resolver.PairReadUnaffected | src/lib.rs:819-874 | every pair reader of a key sees the same pair in two stores that differ only at other keys |
| Resolver.TrackNumber | src/lib.rs:643-645 | the native track field, with 0 read as absent |
| Resolver.TrackNumberString | src/lib.rs:647-665 | absent exactly when the native track is 0. Otherwise the result parses to the native track. It is the TRACKNUMBER text whenever that text parses to the native track, so the zero padding survives |
| Resolver.SetTrackNumber | src/lib.rs:667-674 | the native track becomes the value; TRACKNUMBER holds the value paired with the total it already held; no other key changes |
| Resolver.SetTrackNumberReadsBack | src/lib.rs:667-674 | afterwards the native field and the pair both read the value, the pair keeps its total, and the text form keeps the padding |
| Resolver.SetTrackNumberKeepsTotal | src/lib.rs:667-674 | `set_track_number` leaves `track_total` as it read, given the two separate stores |
| Resolver.RemoveTrackNumber | src/lib.rs:676-685 | the native track becomes 0. A parsable TRACKNUMBER becomes "/M" at its old width, or is removed when it had no total. An unparsable one is left alone |
| Resolver.RemoveTrackNumberIdempotent | src/lib.rs:676-685 | afterwards no reader sees a track number, and a second call changes nothing |
| Resolver.RemoveTrackNumberStrandsTotal | src/lib.rs:676-720 | with no TRACKTOTAL, removing the number from "N/M" leaves the total readable as text but not as a number |
| Resolver.RemoveTrackNumberKeepsStoredTotal | src/lib.rs:676-720 | a total stored in TRACKTOTAL reads the same afterwards, numerically when it parses and as text whenever it is there |
| Resolver.TrackTotal | src/lib.rs:687-703 | a TRACKTOTAL value that parses wins; otherwise the second half of the TRACKNUMBER pair |
| Resolver.TrackTotalFromPropTrackNumber | src/lib.rs:697-703 | the fallback total is the second half `option_u32_pair_by_id` reads from TRACKNUMBER: the parse of the text fallback when the TRACKNUMBER pair parses, and absent otherwise |
| Resolver.TrackTotalString | src/lib.rs:705-720 | the first TRACKTOTAL value verbatim when there is one; otherwise a second TRACKNUMBER segment, present exactly when that value has a slash |
| Resolver.TrackTotalStringFromPropTrackNumber | src/lib.rs:714-720 | present exactly when the TRACKNUMBER value has a slash, and trimmed |
| Resolver.TrackTotalStringOfSegments | src/lib.rs:705-720 | with no TRACKTOTAL value, TRACKNUMBER "a/b" gives `b` trimmed as the text total, numeric or not |
| Resolver.TrackTotalStringAgrees | src/lib.rs:687-720 | the text reader has a total whenever the numeric one does; with no TRACKTOTAL value the numeric total is the parse of the text total when the TRACKNUMBER pair parses, and absent otherwise |
| Resolver.TotalsDisagree | src/lib.rs:687-720 | with no TRACKTOTAL value, TRACKNUMBER "a/b" with a non-numeric `a` and a numeric `b` has a text total that parses but no numeric total |
| Resolver.SetTrackTotal | src/lib.rs:722-727 | TRACKTOTAL holds the padded total. TRACKNUMBER pairs its old first half with the new total. No other key changes |
| Resolver.SetTrackTotalReadsBack | src/lib.rs:722-727 | afterwards both total readers see the new value, and the number half of TRACKNUMBER reads as before |
| Resolver.SetTrackTotalRerendersNumber | src/lib.rs:647-727 | afterwards the text track number takes the new padding when the pair agreed with the native track ("03" can become "3"), and is the plain decimal otherwise |
| Resolver.RemoveTrackTotal | src/lib.rs:729-738 | TRACKTOTAL is removed when it has a first value. A TRACKNUMBER whose total parses keeps only its number, at its old width. Nothing else changes |
| Resolver.RemoveTrackTotalReadsBack | src/lib.rs:729-738 | afterwards no numeric total is read, and the TRACKNUMBER pair keeps its number and width |
| Resolver.RemoveTrackTotalIdempotent | src/lib.rs:729-738 | a second call changes nothing |
| Resolver.RemoveTrackTotalRerendersNumber | src/lib.rs:647-738 | a pair that had a total is rewritten at its recovered width, so the text track number takes that width (" 3 /12" gives "03"); without a total it is unchanged |
| Resolver.DiscNumber | src/lib.rs:740-745 | present exactly when DISCNUMBER parses as a pair |
| Resolver.DiscNumberString | src/lib.rs:747-752 | present exactly when DISCNUMBER has a value; the text has no whitespace at either end |
| Resolver.DiscTotal | src/lib.rs:766-772 | a disc total is only read when the disc number is, and then it is the parsed second segment of DISCNUMBER |
| Resolver.DiscTotalString | src/lib.rs:774-780 | present exactly when the DISCNUMBER value has a slash |
| Resolver.DiscStringsAgree | src/lib.rs:740-780 | the disc number is the parse of the text disc number; the disc total is the parse of the text total when the disc number is read, and absent otherwise |
| Resolver.DiscStringsOfOneSegment | src/lib.rs:747-780 | DISCNUMBER without a slash reads as itself trimmed, with no text total |
| Resolver.DiscStringsOfTwoSegments | src/lib.rs:747-780 | DISCNUMBER "a/b" reads as `a` and `b` trimmed, numeric or not |
| Resolver.SetDiscNumber | src/lib.rs:754-757 | DISCNUMBER holds the padded number paired with the total it already held; no other key changes |
| Resolver.SetDiscNumberReadsBack | src/lib.rs:754-757 | afterwards the number reads back as written, with its padding, and the total as before |
| Resolver.SetDiscTotal | src/lib.rs:782-785 | DISCNUMBER holds its old number paired with the padded total; no other key changes |
| Resolver.SetDiscTotalReadsBack | src/lib.rs:782-785 | afterwards the total reads as padded text; numerically it is read only when a number stands in front of it |
| Resolver.RemoveDiscNumber | src/lib.rs:759-764 | a parsable DISCNUMBER becomes "/M" at its old width, or is removed when it had no total. An unparsable one is left alone |
| Resolver.RemoveDiscNumberIdempotent | src/lib.rs:759-764 | afterwards no disc number or numeric total is read, a total survives only as text, and a second call changes nothing |
| Resolver.RemoveDiscTotal | src/lib.rs:787-792 | a DISCNUMBER whose total parses keeps only its number, at its old width; otherwise nothing changes |
| Resolver.RemoveDiscTotalIdempotent | src/lib.rs:787-792 | afterwards no total is read and the number reads as before; a second call changes nothing |
| Resolver.RemoveDiscTotalKeepsNumberText | src/lib.rs:787-792 | removing the total from "N/M", where N is digits at least as wide as M, leaves exactly "N", leading zeros included |
| PlainFields.FieldKey | src/lib.rs:487-498 | the four plain keys are distinct from the three compound keys |
| PlainFields.GetPlain | src/lib.rs:595-641 | a plain getter is absent exactly when its key has no values; otherwise it gives the first value |
| PlainFields.SetPlain | src/lib.rs:595-641 | a plain setter makes its key hold exactly the value; no other key changes |
| PlainFields.RemovePlain | src/lib.rs:595-641 | a plain remover deletes its key; no other key changes |
| PlainFields.PlainSetThenGet | src/lib.rs:595-641 | a plain field reads back what was set, and nothing after removal |
| PlainFields.PlainFieldsIndependent | src/lib.rs:595-641 | writing one plain field does not change what another reads |
| PlainFields.PlainFieldsLeavePairsAlone | src/lib.rs:595-641 | writing a plain field leaves every compound reader as it was |
| FileTypes.Name | src/lib.rs:371-415 | every type has a display name of at least two characters |
| FileTypes.NameRoundTrip | src/lib.rs:371-415 | every display name leads back to its own type |
| FileTypes.NameInjective | src/lib.rs:371-415 | different types have different display names |
| FileTypes.SuffixList | src/lib.rs:313-336 | each type's own table, as declared; none is empty |
| FileTypes.AllSuffix | src/lib.rs:340-367 | the union holds every entry of every type's own table |
| FileTypes.Suffix | src/lib.rs:417-461 | as written: every type answers its own table except DFF, which answers DSF's |
| FileTypes.SuffixListCoversAll | src/lib.rs:340-367 | a suffix is in `all_suffix` exactly when some type's own table lists it |
| FileTypes.DffSuffixUnreachable | src/lib.rs:456-457 | as written, ".dff" is offered by `all_suffix` but no type's `suffix()` lists it |
| FileTypes.SuffixListClaimsDff | src/lib.rs:313-367 | with the intended tables, DFF lists ".dff" and no suffix of the union is orphaned |
| Examples.NumberPairExamples | src/lib.rs:828-865 | "03/12" reads as 3 of 12 at width 2, "03" as 3 alone, and "/12" as no numeric pair but the text ("", "12") |
| Examples.EmptyValueExample | src/lib.rs:828-841 | "" has no numeric pair |
| Examples.LoneSlashExample | src/lib.rs:828-841 | "/" has no numeric pair |
| Examples.NonNumericFirstExample | src/lib.rs:828-841 | "x/3" has no numeric pair |
| Examples.PaddedSegmentExample | src/lib.rs:828-841 | " 2 " reads as 2 alone at width 1 |
| Examples.UnparsableSecondExample | src/lib.rs:828-841 | "3/xyz" reads as 3 with no second number, at width 3 |
| Examples.TrailingSlashExample | src/lib.rs:852-865 | "02/" reads as text "02" and "" at width 2 |
| Examples.RemoveTrackNumberExample | src/lib.rs:676-738 | after setting track 3 and total 12, removing the number leaves "/12" and a total still read from TRACKTOTAL |
| Examples.RemoveDiscTotalExample | src/lib.rs:787-792 | removing the total from DISCNUMBER "3/12" leaves "03", at the width of the wider segment |

## Left out

- FFI plumbing is not modelled. This covers the raw C handles, the `CString`/`CStr` conversions and the freeing of native strings. The property map is a Dafny `map`, and keys and values must be free of NUL characters, as `CString::new(..).unwrap()` demands.
- `get_property` reports a `Utf8Error` for values that are not valid UTF-8. Dafny strings are always valid, so the model has no error case and `get_first_property` never hits it.
- `tag().unwrap()` becomes the precondition `hasTag` on the four operations that touch the native track field. The panic path is not modelled.
- `File::new`, `new_type`, `save`, `is_valid`, `keys`, `audioproperties`, `Drop`, the Windows `acp_encode` and all other I/O are not modelled.
- The `Tag` and `AudioProperties` accessors are not modelled, apart from the native track field, which is the `track` component of the state.
- The taglib-sys declarations and the CLI example are not part of this model.
- The `usize` padding is an unbounded `nat`. Allocation failure for a huge padding is not modelled.
- Resolver.SetTrackNumberKeepsTotal: the native track field and the property map are modelled as two separate stores. In the native engine they may share storage, so setting the track could rewrite TRACKNUMBER before `option_u32_pair_by_id` reads it. This lemma, `Resolver.SetTrackNumberReadsBack` and the other track-number results rely on the stores being separate.
- Resolver.TrackNumber: the engine's own storage of the native track field is not modelled, so the contract says only what the binding does with the number it reads.
- FileTypes.SuffixList: the undotted MP4 entries ("m4b", "m4p", "m4v", "isom", "3g2") are kept exactly as the table lists them. No property is claimed about them.

## Findings

| source | as written | input that shows it | evidently intended | confidence | as-written member | corrected member |
|---|---|---|---|---|---|---|
| src/lib.rs:456-457 | `FileType::DFF.suffix()` returns the DSF table, so no type claims ".dff" although `all_suffix()` offers it | `FileType::DFF.suffix()` gives [".dsf"]; ".dff" is in `all_suffix()` | DFF answers its own table [".dff"] | not executed | FileTypes.DffSuffixUnreachable | FileTypes.SuffixListClaimsDff |
