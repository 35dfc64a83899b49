/** The file checks of `useMovieStream`: `detectVideoFormat`, which hex-encodes
    the first bytes of a file and classifies them by ordered substring tests,
    and `validateVideoFile`, which matches the result against the allow-list
    of `VIDEO_CONSTRAINTS`. Reading the file is replaced by its bytes, and the
    browser's `canPlayType` is an input. */
module UseMovieStream {
  import opened Wrappers
  import opened Bytes

  // ---------------------------------------------------------------------
  // VIDEO_CONSTRAINTS

  /** `maxFileSize`: 3 GiB. */
  const MaxFileSize: nat := 3 * 1024 * 1024 * 1024

  datatype FormatEntry = FormatEntry(mime: string, codec: string)

  /** `allowedTypes`, in order. */
  const AllowedTypes: seq<FormatEntry> := [
    FormatEntry("video/mp4", "avc1.42E01E,mp4a.40.2"),
    FormatEntry("video/quicktime", "avc1.42E01E,mp4a.40.2"),
    FormatEntry("video/webm", "vp8,opus"),
    FormatEntry("video/x-matroska", "vp8,opus"),
    FormatEntry("video/x-m4v", "avc1.42E01E,mp4a.40.2"),
    FormatEntry("video/3gpp", "mp4v.20.8,mp4a.40.2")
  ]

  /** A `File`: its bytes (so `size` is their count) and its declared
      `type`. */
  datatype VideoFile = VideoFile(bytes: seq<byte>, mimeType: string)

  /** How many leading bytes are read and encoded. */
  const HeaderBytes: nat := 12

  // ---------------------------------------------------------------------
  // Strings

  predicate StartsWith(s: string, p: string)
  {
    |p| <= |s| && s[..|p|] == p
  }

  /** `t` occurs in `s` starting at index `i`. */
  ghost predicate OccursAt(s: string, t: string, i: nat)
  {
    i + |t| <= |s| && s[i..i + |t|] == t
  }

  /** `String.prototype.includes`. */
  function Contains(s: string, t: string): bool
    decreases |s|
  {
    StartsWith(s, t) || (|s| > 0 && Contains(s[1..], t))
  }

  /** `Contains` finds exactly the occurrences at some index, aligned or
      not. */
  lemma {:induction false} ContainsIff(s: string, t: string)
    ensures Contains(s, t) <==> exists i: nat :: OccursAt(s, t, i)
    decreases |s|
  {
    if StartsWith(s, t) {
      assert OccursAt(s, t, 0);
    } else {
      assert !OccursAt(s, t, 0);
      if |s| == 0 {
        forall i: nat ensures !OccursAt(s, t, i) {
        }
      } else {
        ContainsIff(s[1..], t);
        forall i: nat | i > 0 ensures OccursAt(s, t, i) <==> OccursAt(s[1..], t, i - 1) {
          if i + |t| <= |s| {
            assert s[1..][i - 1..i - 1 + |t|] == s[i..i + |t|];
          }
        }
        if exists i: nat :: OccursAt(s[1..], t, i) {
          var i: nat :| OccursAt(s[1..], t, i);
          assert OccursAt(s, t, i + 1);
        }
      }
    }
  }

  // ---------------------------------------------------------------------
  // Hex header

  /** `toString(16)` of one digit: lower-case. */
  function HexDigit(d: nat): (c: char)
    requires d < 16
  {
    if d < 10 then ('0' as int + d) as char else ('a' as int + d - 10) as char
  }

  function DigitValue(c: char): (d: nat)
    ensures d < 16
  {
    if '0' <= c <= '9' then c as int - '0' as int
    else if 'a' <= c <= 'f' then c as int - 'a' as int + 10
    else 0
  }

  /** `b.toString(16).padStart(2, '0')`. */
  function HexByte(b: byte): (h: string)
    ensures |h| == 2
  {
    [HexDigit(b / 16), HexDigit(b % 16)]
  }

  /** The concatenated two-digit encodings of `bs`. */
  function Hex(bs: seq<byte>): (h: string)
    ensures |h| == 2 * |bs|
    decreases |bs|
  {
    if bs == [] then [] else Hex(bs[..|bs| - 1]) + HexByte(bs[|bs| - 1])
  }

  /** The byte spelled by two hex digits. */
  function PairValue(hi: char, lo: char): byte
  {
    DigitValue(hi) * 16 + DigitValue(lo)
  }

  /** The inverse of `Hex`: one byte per pair of digits. */
  function FromHex(h: string): (bs: seq<byte>)
    requires |h| % 2 == 0
    ensures 2 * |bs| == |h|
  {
    var n := |h| / 2;
    seq(n, i requires 0 <= i < n => PairValue(h[2 * i], h[2 * i + 1]))
  }

  lemma DigitRoundTrip(d: nat)
    requires d < 16
    ensures DigitValue(HexDigit(d)) == d
  {
  }

  /** One byte's two digits decode back to the byte. */
  lemma ByteRoundTrip(b: byte)
    ensures PairValue(HexByte(b)[0], HexByte(b)[1]) == b
  {
    DigitRoundTrip(b / 16);
    DigitRoundTrip(b % 16);
  }

  /** Byte `i` is encoded at digits `2i` and `2i + 1`. */
  lemma {:induction false} HexAt(bs: seq<byte>, i: nat)
    requires i < |bs|
    ensures Hex(bs)[2 * i..2 * i + 2] == HexByte(bs[i])
    decreases |bs|
  {
    var k := |bs| - 1;
    var h := Hex(bs);
    assert h == Hex(bs[..k]) + HexByte(bs[k]);
    if i < k {
      HexAt(bs[..k], i);
      assert h[2 * i..2 * i + 2] == Hex(bs[..k])[2 * i..2 * i + 2];
    } else {
      assert h[2 * i..2 * i + 2] == HexByte(bs[k]);
    }
  }

  /** The header loses nothing: it decodes back to the bytes it encodes. */
  lemma HexRoundTrip(bs: seq<byte>)
    ensures FromHex(Hex(bs)) == bs
  {
    var h := Hex(bs);
    forall i | 0 <= i < |bs| ensures FromHex(h)[i] == bs[i] {
      HexAt(bs, i);
      ByteRoundTrip(bs[i]);
      assert h[2 * i] == HexByte(bs[i])[0] && h[2 * i + 1] == HexByte(bs[i])[1];
    }
  }

  /** `readAsArrayBuffer(file.slice(0, 12))`: at most the first 12 bytes. */
  function Head(bytes: seq<byte>): (h: seq<byte>)
    ensures |h| == if |bytes| < HeaderBytes then |bytes| else HeaderBytes
  {
    if |bytes| < HeaderBytes then bytes else bytes[..HeaderBytes]
  }

  /** The loop of `reader.onload` that builds `header`. */
  method HeaderHex(bytes: seq<byte>) returns (header: string)
    ensures header == Hex(Head(bytes))
    ensures FromHex(header) == Head(bytes) && |header| <= 2 * HeaderBytes
  {
    var arr := Head(bytes);
    header := "";
    var i := 0;
    while i < |arr|
      invariant 0 <= i <= |arr|
      invariant header == Hex(arr[..i])
    {
      assert arr[..i + 1][..i] == arr[..i];
      header := header + HexByte(arr[i]);
      i := i + 1;
    }
    assert arr[..|arr|] == arr;
    HexRoundTrip(arr);
  }

  // ---------------------------------------------------------------------
  // Classification

  const FtypMagic: string := "66747970"
  const QuickTimeSize: string := "0000001c"
  const QuickTimeBrand: string := "6674797071742020"
  const EbmlMagic: string := "1a45dfa3"
  const MatroskaMagic: string := "1f45dfa3"

  /** The format IIFE of `detectVideoFormat`: ordered tests on the hex
      header, then the declared type if it is a video type, else null. */
  function Classify(header: string, declared: string): (r: Option<string>)
    ensures r.Some? ==> StartsWith(r.value, "video/")
  {
    if Contains(header, FtypMagic) then Some("video/mp4")
    else if Contains(header, QuickTimeSize) || Contains(header, QuickTimeBrand) || StartsWith(header, "0000")
    then Some("video/quicktime")
    else if Contains(header, EbmlMagic) then Some("video/webm")
    else if Contains(header, MatroskaMagic) then Some("video/x-matroska")
    else if StartsWith(declared, "video/") then Some(declared)
    else None
  }

  /** The format `detectVideoFormat` resolves for a file. */
  function DetectedFormat(file: VideoFile): Option<string>
  {
    Classify(Hex(Head(file.bytes)), file.mimeType)
  }

  /** `detectVideoFormat`: build the header, then classify it. */
  method DetectVideoFormat(file: VideoFile) returns (format: Option<string>)
    ensures format == DetectedFormat(file)
    ensures format.Some? ==> StartsWith(format.value, "video/")
  {
    var header := HeaderHex(file.bytes);
    format := Classify(header, file.mimeType);
  }

  /** The QuickTime brand test never decides anything: the brand string
      begins with the `ftyp` pattern, which is checked first. */
  lemma QuickTimeBrandUnreachable(header: string)
    ensures Contains(header, QuickTimeBrand) ==> Contains(header, FtypMagic)
  {
    ContainsIff(header, QuickTimeBrand);
    ContainsIff(header, FtypMagic);
    if Contains(header, QuickTimeBrand) {
      var i: nat :| OccursAt(header, QuickTimeBrand, i);
      assert header[i..i + 8] == header[i..i + 16][..8];
      assert OccursAt(header, FtypMagic, i);
    }
  }

  /** An ISO base-media file, whose first box has type `ftyp` at bytes 4..8,
      is detected as MP4 whatever its declared type. */
  lemma FtypBoxIsMp4(file: VideoFile)
    requires |file.bytes| >= 8 && file.bytes[4..8] == [0x66, 0x74, 0x79, 0x70]
    ensures DetectedFormat(file) == Some("video/mp4")
  {
    var head := Head(file.bytes);
    assert head[4] == 0x66 && head[5] == 0x74 && head[6] == 0x79 && head[7] == 0x70;
    var h := Hex(head);
    HexAt(head, 4);
    HexAt(head, 5);
    HexAt(head, 6);
    HexAt(head, 7);
    assert h[8..10] == "66" && h[10..12] == "74" && h[12..14] == "79" && h[14..16] == "70";
    assert h[8..16] == h[8..10] + h[10..12] + h[12..14] + h[14..16];
    assert OccursAt(h, FtypMagic, 8);
    ContainsIff(h, FtypMagic);
  }

  /** The tests run on digits, not bytes: a header whose bytes are 06 67 47
      97 0a holds "66747970" from its second digit and is taken for MP4
      though no byte sequence `ftyp` is present. */
  lemma UnalignedMatchIsMp4(declared: string)
    ensures DetectedFormat(VideoFile([0x06, 0x67, 0x47, 0x97, 0x0a], declared)) == Some("video/mp4")
  {
    var bs: seq<byte> := [0x06, 0x67, 0x47, 0x97, 0x0a];
    var h := Hex(Head(bs));
    assert Head(bs) == bs;
    HexAt(bs, 0);
    HexAt(bs, 1);
    HexAt(bs, 2);
    HexAt(bs, 3);
    HexAt(bs, 4);
    assert h == h[0..2] + h[2..4] + h[4..6] + h[6..8] + h[8..10];
    assert h == "066747970a";
    assert h[1..9] == FtypMagic;
    assert OccursAt(h, FtypMagic, 1);
    ContainsIff(h, FtypMagic);
  }

  /** A header beginning with the EBML magic (as both WebM and Matroska files
      do) is never classified as Matroska. */
  lemma EbmlNeverMatroska(header: string, declared: string)
    requires StartsWith(header, EbmlMagic)
    ensures Classify(header, declared) != Some("video/x-matroska")
  {
    assert OccursAt(header, EbmlMagic, 0);
    ContainsIff(header, EbmlMagic);
  }

  /** Nothing is detected exactly when no magic pattern occurs and the
      declared type is not a video type. */
  lemma NothingDetectedIff(header: string, declared: string)
    ensures Classify(header, declared).None? <==>
      && !Contains(header, FtypMagic) && !Contains(header, QuickTimeSize) && !StartsWith(header, "0000")
      && !Contains(header, EbmlMagic) && !Contains(header, MatroskaMagic)
      && !StartsWith(declared, "video/")
  {
    QuickTimeBrandUnreachable(header);
  }

  // ---------------------------------------------------------------------
  // Validation

  /** The allow-list test of `find`: equal mime, or mime a prefix. */
  predicate Matches(entry: FormatEntry, format: string)
  {
    entry.mime == format || StartsWith(format, entry.mime)
  }

  /** `Array.prototype.find` over the allow-list. */
  function FindSupported(entries: seq<FormatEntry>, format: string): (r: Option<FormatEntry>)
    ensures r.Some? ==> r.value in entries && Matches(r.value, format)
    decreases |entries|
  {
    if entries == [] then None
    else if Matches(entries[0], format) then Some(entries[0])
    else FindSupported(entries[1..], format)
  }

  /** `find` fails exactly when no entry matches, and otherwise returns the
      first matching entry. */
  lemma {:induction false} FindSupportedFirst(entries: seq<FormatEntry>, format: string)
    ensures FindSupported(entries, format).None? <==> forall i :: 0 <= i < |entries| ==> !Matches(entries[i], format)
    ensures FindSupported(entries, format).Some? ==>
      exists i :: 0 <= i < |entries| && entries[i] == FindSupported(entries, format).value
        && forall j :: 0 <= j < i ==> !Matches(entries[j], format)
    decreases |entries|
  {
    if entries != [] && !Matches(entries[0], format) {
      FindSupportedFirst(entries[1..], format);
      var r := FindSupported(entries, format);
      if r.Some? {
        var i :| 0 <= i < |entries[1..]| && entries[1..][i] == r.value
          && forall j :: 0 <= j < i ==> !Matches(entries[1..][j], format);
        assert entries[i + 1] == r.value;
        forall j | 0 <= j < i + 1 ensures !Matches(entries[j], format) {
          if j > 0 {
            assert entries[j] == entries[1..][j - 1];
          }
        }
      } else {
        forall i | 0 <= i < |entries| ensures !Matches(entries[i], format) {
          if i > 0 {
            assert entries[i] == entries[1..][i - 1];
          }
        }
      }
    } else if entries != [] {
      assert entries[0] == FindSupported(entries, format).value;
    }
  }

  /** The argument of `canPlayType`: `${mime}; codecs="${codec}"`. */
  function Query(entry: FormatEntry): string
  {
    entry.mime + "; codecs=\"" + entry.codec + "\""
  }

  /** The errors `validateVideoFile` throws. */
  datatype ValidationError =
    | NoFileSelected
    | FileTooLarge
    | UnrecognizedFormat
    | UnsupportedFormat(format: string)
    | BrowserUnsupported(format: string)

  /** The thrown error's message. */
  function Message(e: ValidationError): string
  {
    match e
    case NoFileSelected => "No file selected"
    case FileTooLarge => "File too large (max 3GB)"
    case UnrecognizedFormat => "Unrecognized video format"
    case UnsupportedFormat(format) => "Unsupported video format: " + format
    case BrowserUnsupported(format) => "Browser does not support format: " + format
  }

  /** What `validateVideoFile` resolves to (`Ok`) or throws (`Err`), given
      what `detectVideoFormat` resolved for the file. */
  function Validation(file: Option<VideoFile>, detected: Option<string>, canPlayType: string -> string)
    : Result<FormatEntry, ValidationError>
  {
    if file.None? then Err(NoFileSelected)
    else if |file.value.bytes| > MaxFileSize then Err(FileTooLarge)
    else if detected.None? && !StartsWith(file.value.mimeType, "video/") then Err(UnrecognizedFormat)
    else
      var format := if detected.Some? then detected.value else file.value.mimeType;
      var supported := FindSupported(AllowedTypes, format);
      if supported.None? then Err(UnsupportedFormat(format))
      else if canPlayType(Query(supported.value)) == "" then Err(BrowserUnsupported(format))
      else Ok(supported.value)
  }

  /** `validateVideoFile`: the size check, then detection, then the
      allow-list and the browser. */
  method ValidateVideoFile(file: Option<VideoFile>, canPlayType: string -> string)
    returns (r: Result<FormatEntry, ValidationError>)
    ensures file.Some? ==> r == Validation(file, DetectedFormat(file.value), canPlayType)
    ensures file.None? ==> r == Err(NoFileSelected)
  {
    if file.None? {
      return Err(NoFileSelected);
    }
    if |file.value.bytes| > MaxFileSize {
      return Err(FileTooLarge);
    }
    var detectedFormat := DetectVideoFormat(file.value);
    var declaredFormat := file.value.mimeType;
    if detectedFormat.None? && !StartsWith(declaredFormat, "video/") {
      return Err(UnrecognizedFormat);
    }
    var format := if detectedFormat.Some? then detectedFormat.value else declaredFormat;
    var supportedFormat := FindSupported(AllowedTypes, format);
    if supportedFormat.None? {
      return Err(UnsupportedFormat(format));
    }
    var testSupport := canPlayType(Query(supportedFormat.value));
    if testSupport == "" {
      return Err(BrowserUnsupported(format));
    }
    return Ok(supportedFormat.value);
  }

  /** An accepted file is present, at most 3 GiB, has a format, and the
      result is the first allow-list entry matching that format, one the
      browser says it can play. */
  lemma AcceptedMeans(file: Option<VideoFile>, detected: Option<string>, canPlayType: string -> string)
    requires Validation(file, detected, canPlayType).Ok?
    ensures file.Some? && |file.value.bytes| <= MaxFileSize
    ensures detected.Some? || StartsWith(file.value.mimeType, "video/")
    ensures var format := if detected.Some? then detected.value else file.value.mimeType;
      var entry := Validation(file, detected, canPlayType).value;
      && entry == FindSupported(AllowedTypes, format).value
      && entry in AllowedTypes && Matches(entry, format)
      && canPlayType(Query(entry)) != ""
  {
  }

  /** The declared-type clause of the "Unrecognized" check adds nothing:
      detection already falls back to a declared video type, so a present
      file of allowed size is refused as unrecognized exactly when nothing
      is detected, and any other outcome is about the detected format. */
  lemma UnrecognizedIffUndetected(f: VideoFile, canPlayType: string -> string)
    requires |f.bytes| <= MaxFileSize
    ensures var r := Validation(Some(f), DetectedFormat(f), canPlayType);
      && (r == Err(UnrecognizedFormat) <==> DetectedFormat(f).None?)
      && (r.Err? && r.error.UnsupportedFormat? ==> r.error.format == DetectedFormat(f).value)
      && (r.Err? && r.error.BrowserUnsupported? ==> r.error.format == DetectedFormat(f).value)
  {
    NothingDetectedIff(Hex(Head(f.bytes)), f.mimeType);
  }

  /** Every format the magic numbers produce is on the allow-list under
      its own name: it is the mime of one of the first four entries, and
      `find` returns that entry. */
  lemma MagicFormatAllowed(header: string, declared: string)
    requires Classify(header, declared).Some? && !StartsWith(declared, "video/")
    ensures var format := Classify(header, declared).value;
      FindSupported(AllowedTypes, format).Some? && FindSupported(AllowedTypes, format).value.mime == format
  {
    var format := Classify(header, declared).value;
    if format == "video/mp4" {
      SkipsTo(AllowedTypes, format, 0);
    } else if format == "video/quicktime" {
      SkipsTo(AllowedTypes, format, 1);
    } else if format == "video/webm" {
      SkipsTo(AllowedTypes, format, 2);
    } else {
      SkipsTo(AllowedTypes, format, 3);
    }
  }

  /** Prefix matching admits declared types that are not on the list: a
      declared `video/3gpp2` is served as `video/3gpp`. */
  lemma PrefixMatchAdmits()
    ensures FindSupported(AllowedTypes, "video/3gpp2") == Some(FormatEntry("video/3gpp", "mp4v.20.8,mp4a.40.2"))
  {
    SkipsTo(AllowedTypes, "video/3gpp2", 5);
  }

  /** The first `k` entries differ from `format` in the first character
      after "video/". */
  predicate DiffersBefore(entries: seq<FormatEntry>, format: string, k: nat)
    requires k <= |entries| && |format| > 6
    decreases k
  {
    k == 0 || (|entries[0].mime| > 6 && entries[0].mime[6] != format[6] && DiffersBefore(entries[1..], format, k - 1))
  }

  /** `find` skips the entries that differ and returns entry `k`, which
      matches. */
  lemma {:induction false} SkipsTo(entries: seq<FormatEntry>, format: string, k: nat)
    requires k < |entries| && Matches(entries[k], format) && |format| > 6
    requires DiffersBefore(entries, format, k)
    ensures FindSupported(entries, format) == Some(entries[k])
    decreases k
  {
    if k > 0 {
      var mime := entries[0].mime;
      if |mime| <= |format| {
        assert format[..|mime|][6] == format[6];
      }
      assert !Matches(entries[0], format);
      SkipsTo(entries[1..], format, k - 1);
    }
  }
}
