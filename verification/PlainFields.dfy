/**
 * The plain text fields of `taglib::File`: album artist, composer,
 * copyright and date, each stored whole under its own property key and
 * read back as the first value of that key.
 */
module PlainFields {
  import opened Optional
  import opened PropertyStore
  import opened Resolver

  datatype PlainField = AlbumArtist | Composer | Copyright | Date

  /** The property key each plain field lives under. */
  function FieldKey(field: PlainField): (k: Key)
    ensures k != KeyTrackNumber && k != KeyTrackTotal && k != KeyDiscNumber
  {
    match field
    case AlbumArtist => "ALBUMARTIST"
    case Composer => "COMPOSER"
    case Copyright => "COPYRIGHT"
    case Date => "DATE"
  }

  /** Distinct fields live under distinct keys. */
  lemma FieldKeyInjective(a: PlainField, b: PlainField)
    requires FieldKey(a) == FieldKey(b)
    ensures a == b
  {
    assert FieldKey(a)[0] == FieldKey(b)[0] && |FieldKey(a)| == |FieldKey(b)|;
  }

  /** `album_artist`, `composer`, `copyright`, `date`: the first value under the field's key. */
  function GetPlain(f: AudioFile, field: PlainField): (r: Option<string>)
    ensures r.None? <==> GetProperty(f.props, FieldKey(field)) == []
    ensures r.Some? ==> r.value == GetProperty(f.props, FieldKey(field))[0]
  {
    GetFirstProperty(f.props, FieldKey(field))
  }

  /** `set_album_artist` and its siblings: the field's key holds exactly `value`; nothing else changes. */
  function SetPlain(f: AudioFile, field: PlainField, value: string): (r: AudioFile)
    requires NoNul(value)
    ensures r.hasTag == f.hasTag && r.track == f.track
    ensures GetProperty(r.props, FieldKey(field)) == [value]
    ensures PropsOnlyChanged(r.props, f.props, {FieldKey(field)})
  {
    f.(props := SetProperty(f.props, FieldKey(field), value))
  }

  /** `remove_album_artist` and its siblings: the field's key is gone; nothing else changes. */
  function RemovePlain(f: AudioFile, field: PlainField): (r: AudioFile)
    ensures r.hasTag == f.hasTag && r.track == f.track
    ensures FieldKey(field) !in r.props
    ensures PropsOnlyChanged(r.props, f.props, {FieldKey(field)})
  {
    f.(props := RemoveProperty(f.props, FieldKey(field)))
  }

  /** A field reads back what was set, and nothing once removed. */
  lemma PlainSetThenGet(f: AudioFile, field: PlainField, value: string)
    requires NoNul(value)
    ensures GetPlain(SetPlain(f, field, value), field) == Some(value)
    ensures GetPlain(RemovePlain(f, field), field) == None
  {
  }

  /** Writing one plain field leaves every other plain field as it reads. */
  lemma PlainFieldsIndependent(f: AudioFile, field: PlainField, other: PlainField, value: string)
    requires NoNul(value) && field != other
    ensures GetPlain(SetPlain(f, field, value), other) == GetPlain(f, other)
    ensures GetPlain(RemovePlain(f, field), other) == GetPlain(f, other)
  {
    ReadUnaffected(SetPlain(f, field, value).props, f.props, {FieldKey(field)}, FieldKey(other));
    ReadUnaffected(RemovePlain(f, field).props, f.props, {FieldKey(field)}, FieldKey(other));
  }

  /** Writing a plain field leaves every compound reader as it reads. */
  lemma PlainFieldsLeavePairsAlone(f: AudioFile, field: PlainField, value: string)
    requires NoNul(value)
    ensures TrackTotal(SetPlain(f, field, value)) == TrackTotal(f)
    ensures TrackTotalString(SetPlain(f, field, value)) == TrackTotalString(f)
    ensures DiscNumber(SetPlain(f, field, value)) == DiscNumber(f)
    ensures DiscTotal(SetPlain(f, field, value)) == DiscTotal(f)
    ensures f.hasTag ==> TrackNumberString(SetPlain(f, field, value)) == TrackNumberString(f)
  {
    var r := SetPlain(f, field, value);
    PairReadUnaffected(r.props, f.props, {FieldKey(field)}, KeyTrackNumber);
    ReadUnaffected(r.props, f.props, {FieldKey(field)}, KeyTrackTotal);
    PairReadUnaffected(r.props, f.props, {FieldKey(field)}, KeyDiscNumber);
  }
}
