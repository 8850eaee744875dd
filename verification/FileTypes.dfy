/**
 * The container formats the binding can name: each `FileType` has a
 * display name and a list of file-name suffixes, and the union of all
 * suffix lists is offered as one set.
 */
module FileTypes {
  import opened Optional

  datatype FileType =
    | MPEG | OggVorbis | FLAC | MPC | OggFlac | WavPack | Speex | TrueAudio | MP4 | ASF
    | AIFF | WAV | APE | IT | MOD | S3M | XM | OPUS | DSF | DFF

  /** Every file type, in declaration order. */
  const AllTypes: seq<FileType> :=
    [MPEG, OggVorbis, FLAC, MPC, OggFlac, WavPack, Speex, TrueAudio, MP4, ASF,
     AIFF, WAV, APE, IT, MOD, S3M, XM, OPUS, DSF, DFF]

  const MpegSuffix: seq<string> := [".mp3", ".aac"]
  const OggVorbisSuffix: seq<string> := [".ogg"]
  const FlacSuffix: seq<string> := [".flac"]
  const MpcSuffix: seq<string> := [".mpc"]
  const OggFlacSuffix: seq<string> := [".flac", ".oga"]
  const WavPackSuffix: seq<string> := [".wv"]
  const SpeexSuffix: seq<string> := [".spx"]
  const TrueAudioSuffix: seq<string> := [".tta"]
  /** Five of these entries have no leading dot; they are kept exactly as the table lists them. */
  const Mp4Suffix: seq<string> := [".mp4", ".m4a", "m4b", "m4p", "m4v", "isom", "3g2"]
  const AsfSuffix: seq<string> := [".asf", ".wma"]
  const AiffSuffix: seq<string> := [".aif", ".aiff", ".aifc"]
  const WavSuffix: seq<string> := [".wav"]
  const ApeSuffix: seq<string> := [".ape"]
  const ItSuffix: seq<string> := [".it"]
  const ModSuffix: seq<string> := [".mod"]
  const S3mSuffix: seq<string> := [".s3m"]
  const XmSuffix: seq<string> := [".xm"]
  const OpusSuffix: seq<string> := [".opus"]
  const DsfSuffix: seq<string> := [".dsf"]
  const DffSuffix: seq<string> := [".dff"]

  /** `FileType::name`: the display name of each type. */
  function Name(t: FileType): (r: string)
    ensures |r| >= 2
  {
    match t
    case MPEG => "MPEG"
    case OggVorbis => "OggVorbis"
    case FLAC => "FLAC"
    case MPC => "MPC"
    case OggFlac => "OggFlac"
    case WavPack => "WavPack"
    case Speex => "Speex"
    case TrueAudio => "TrueAudio"
    case MP4 => "MP4"
    case ASF => "ASF"
    case AIFF => "AIFF"
    case WAV => "WAV"
    case APE => "APE"
    case IT => "IT"
    case MOD => "MOD"
    case S3M => "S3M"
    case XM => "XM"
    case OPUS => "OPUS"
    case DSF => "DSF"
    case DFF => "DFF"
  }

  /** The reverse lookup of `Name`: the type a display name belongs to, if any. */
  function FromName(s: string): Option<FileType> {
    if s == "MPEG" then Some(MPEG)
    else if s == "OggVorbis" then Some(OggVorbis)
    else if s == "FLAC" then Some(FLAC)
    else if s == "MPC" then Some(MPC)
    else if s == "OggFlac" then Some(OggFlac)
    else if s == "WavPack" then Some(WavPack)
    else if s == "Speex" then Some(Speex)
    else if s == "TrueAudio" then Some(TrueAudio)
    else if s == "MP4" then Some(MP4)
    else if s == "ASF" then Some(ASF)
    else if s == "AIFF" then Some(AIFF)
    else if s == "WAV" then Some(WAV)
    else if s == "APE" then Some(APE)
    else if s == "IT" then Some(IT)
    else if s == "MOD" then Some(MOD)
    else if s == "S3M" then Some(S3M)
    else if s == "XM" then Some(XM)
    else if s == "OPUS" then Some(OPUS)
    else if s == "DSF" then Some(DSF)
    else if s == "DFF" then Some(DFF)
    else None
  }

  /** Every display name leads back to its own type. */
  lemma NameRoundTrip(t: FileType)
    ensures FromName(Name(t)) == Some(t)
  {
  }

  /** Different types have different display names. */
  lemma NameInjective(a: FileType, b: FileType)
    requires Name(a) == Name(b)
    ensures a == b
  {
    NameRoundTrip(a);
    NameRoundTrip(b);
  }

  /** The suffix list each type is meant to have: its own table. */
  function SuffixList(t: FileType): (r: seq<string>)
    ensures |r| >= 1
  {
    match t
    case MPEG => MpegSuffix
    case OggVorbis => OggVorbisSuffix
    case FLAC => FlacSuffix
    case MPC => MpcSuffix
    case OggFlac => OggFlacSuffix
    case WavPack => WavPackSuffix
    case Speex => SpeexSuffix
    case TrueAudio => TrueAudioSuffix
    case MP4 => Mp4Suffix
    case ASF => AsfSuffix
    case AIFF => AiffSuffix
    case WAV => WavSuffix
    case APE => ApeSuffix
    case IT => ItSuffix
    case MOD => ModSuffix
    case S3M => S3mSuffix
    case XM => XmSuffix
    case OPUS => OpusSuffix
    case DSF => DsfSuffix
    case DFF => DffSuffix
  }

  /**
   * `FileType::suffix` as the code has it: every type answers its own table
   * except DFF, which answers the DSF table.
   */
  function Suffix(t: FileType): (r: seq<string>)
    ensures t != DFF ==> r == SuffixList(t)
    ensures t == DFF ==> r == SuffixList(DSF)
  {
    match t
    case DFF => DsfSuffix
    case _ => SuffixList(t)
  }

  /** The twenty tables in the order `all_suffix` merges them, DFF's own table last. */
  const MergedTables: seq<seq<string>> :=
    [MpegSuffix, OggVorbisSuffix, FlacSuffix, MpcSuffix, OggFlacSuffix,
     WavPackSuffix, SpeexSuffix, TrueAudioSuffix, Mp4Suffix, AsfSuffix,
     AiffSuffix, WavSuffix, ApeSuffix, ItSuffix, ModSuffix,
     S3mSuffix, XmSuffix, OpusSuffix, DsfSuffix, DffSuffix]

  /** `FileType::all_suffix`: every entry of every merged table, as a set; so every type's own table is in it. */
  function AllSuffix(): (r: set<string>)
    ensures forall t: FileType, s | s in SuffixList(t) :: s in r
  {
    var r := set k, s | 0 <= k < |MergedTables| && s in MergedTables[k] :: s;
    assert forall t: FileType, s | s in SuffixList(t) :: s in r by {
      MergedTablesAreSuffixLists();
      forall t: FileType, s | s in SuffixList(t)
        ensures s in r
      {
        assert t in AllTypes;
        var k :| 0 <= k < |AllTypes| && AllTypes[k] == t;
        assert s in MergedTables[k];
      }
    }
    r
  }

  /** The merged tables are exactly the intended per-type tables, type by type. */
  lemma MergedTablesAreSuffixLists()
    ensures |MergedTables| == |AllTypes|
    ensures forall k | 0 <= k < |AllTypes| :: MergedTables[k] == SuffixList(AllTypes[k])
  {
  }

  /**
   * The intended tables and the union agree: a suffix is in `AllSuffix`
   * exactly when some type's own table lists it.
   */
  lemma SuffixListCoversAll(s: string)
    ensures s in AllSuffix() <==> exists t | t in AllTypes :: s in SuffixList(t)
  {
    MergedTablesAreSuffixLists();
    if s in AllSuffix() {
      var k :| 0 <= k < |MergedTables| && s in MergedTables[k];
      assert s in SuffixList(AllTypes[k]);
    }
    if t :| t in AllTypes && s in SuffixList(t) {
      var k :| 0 <= k < |AllTypes| && AllTypes[k] == t;
      assert s in MergedTables[k];
    }
  }

  /**
   * As written, ".dff" is offered by `AllSuffix` but no type's `Suffix`
   * lists it, and DFF and DSF answer the same list.
   */
  lemma DffSuffixUnreachable()
    ensures ".dff" in AllSuffix()
    ensures forall t: FileType :: ".dff" !in Suffix(t)
    ensures Suffix(DFF) == Suffix(DSF)
  {
    SuffixListCoversAll(".dff");
    assert ".dff" in SuffixList(DFF);
  }

  /** With the intended tables, DFF lists ".dff" and no suffix of the union is orphaned. */
  lemma SuffixListClaimsDff()
    ensures ".dff" in SuffixList(DFF)
    ensures forall s | s in AllSuffix() :: exists t | t in AllTypes :: s in SuffixList(t)
  {
    forall s | s in AllSuffix()
      ensures exists t | t in AllTypes :: s in SuffixList(t)
    {
      SuffixListCoversAll(s);
    }
  }
}
