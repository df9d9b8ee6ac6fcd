/** The JPEG/Exif capture-date extractor `parseExifDate` (src/lib/exifService.ts).

    The source reads the first 128 KiB of a file into a `DataView` and walks it with one
    mutable cursor: the JPEG start-of-image marker, the marker segments (skipped by their
    big-endian length, ITU-T T.81 Annex B.1.1.4), the first APP1 segment with its "Exif"
    identifier (Exif 2.2 section 4.5.4), the TIFF header (TIFF 6.0 section 2) and the 12-byte
    entries of one IFD, looking for tag 0x0132 DateTime with type ASCII and count 20.
    Every failure, including a read past the end of the buffer (a `RangeError` caught by the
    surrounding `try`), gives `null`, which is `None` here.

    The offsets are the source's own, not the standard's:
    - the IFD is read at (marker position) + 6 + firstIFDOffset, because the cursor is moved by
      `firstIFDOffset - 8` without first stepping over the 4-byte offset field;
    - the 19 date characters are read at `value + 6` as an ABSOLUTE buffer index;
    - only the four bytes "Exif" are compared, the two NULs after them are skipped unchecked;
    - any byte-order word other than 0x4949 ("II") means big-endian;
    - the APP1 length field is read (so it must be inside the buffer) and then ignored;
    - the high byte of a marker is never checked, and when the IFD holds no usable entry the
      scan goes on reading whatever follows as markers. */
module Exif {
  import opened Wrappers
  import opened DatePatterns

  /** A byte as the `DataView` reads it with `getUint8`. */
  type Byte = x: int | 0 <= x < 0x100

  type Bytes = seq<Byte>

  const JpegSoi: nat := 0xFFD8
  const App1Marker: nat := 0xFFE1
  const ExifIdCode: nat := 0x4578_6966
  const IntelByteOrder: nat := 0x4949
  const TiffMagic: nat := 0x002A
  const DateTimeTag: nat := 0x0132
  const AsciiType: nat := 2
  const DateTimeCount: nat := 20
  const EntrySize: nat := 12
  const DateTextLength: nat := 19
  /** `file.slice(0, 131072)`: only the first 128 KiB are read. */
  const ReadLimit: nat := 131072

  // ---------------------------------------------------------------- DataView reads

  /** `view.getUint8(pos)`; `None` is the `RangeError` for a position outside the buffer. */
  function ReadU8(b: Bytes, pos: nat): (r: Option<nat>)
    ensures r.Some? <==> pos < |b|
    ensures r.Some? ==> r.value < 0x100
  {
    if pos < |b| then Some(b[pos]) else None
  }

  /** `view.getUint16(pos, littleEndian)`. */
  function ReadU16(b: Bytes, pos: nat, littleEndian: bool): (r: Option<nat>)
    ensures r.Some? <==> pos + 2 <= |b|
    ensures r.Some? ==> r.value < 0x1_0000
  {
    if pos + 2 <= |b| then
      var first: nat, second: nat := b[pos], b[pos + 1];
      Some(if littleEndian then second * 0x100 + first else first * 0x100 + second)
    else None
  }

  /** `view.getUint32(pos, littleEndian)`: two 16-bit halves in the same byte order. */
  function ReadU32(b: Bytes, pos: nat, littleEndian: bool): (r: Option<nat>)
    ensures r.Some? <==> pos + 4 <= |b|
    ensures r.Some? ==> r.value < 0x1_0000_0000
  {
    if pos + 4 <= |b| then
      var first, second := ReadU16(b, pos, littleEndian).value, ReadU16(b, pos + 2, littleEndian).value;
      Some(if littleEndian then second * 0x1_0000 + first else first * 0x1_0000 + second)
    else None
  }

  /** `String.fromCharCode(byte)`: the character whose code is the byte's value. */
  function Latin1(x: Byte): (c: char)
    ensures c as int == x
  {
    x as char
  }

  /** The first `n` characters read with `getUint8` from `start` on, one per byte. */
  function Chars(b: Bytes, start: nat, n: nat): (r: string)
    requires start + n <= |b|
    ensures |r| == n
    ensures forall j :: 0 <= j < n ==> r[j] == Latin1(b[start + j])
  {
    if n == 0 then [] else Chars(b, start, n - 1) + [Latin1(b[start + n - 1])]
  }

  /** The 19 characters read one by one with `getUint8` from `start` on. */
  function DateText(b: Bytes, start: nat): (r: Option<string>)
    ensures r.Some? <==> start + DateTextLength <= |b|
    ensures r.Some? ==> |r.value| == DateTextLength
  {
    if start + DateTextLength <= |b| then Some(Chars(b, start, DateTextLength)) else None
  }

  // ---------------------------------------------------------------- the scan, as functions

  /** What one IFD entry does to the search (exifService.ts lines 90-112). */
  datatype EntryOutcome = EntryFound(date: string) | EntrySkipped | EntryFailed

  /** The entry at `pos`: a DateTime tag of type ASCII and count 20 whose text starts with
      `DDDD:DD:DD` ends the search; any other readable entry is skipped; a read past the end
      ends the whole parse with null. */
  function EntryStep(b: Bytes, pos: nat, le: bool): (r: EntryOutcome)
    ensures r.EntryFound? ==> IsIsoDate(r.date)
  {
    match ReadU16(b, pos, le)
    case None => EntryFailed
    case Some(tag) => if tag != DateTimeTag then EntrySkipped else DateTimeEntry(b, pos, le)
  }

  /** The rest of an entry whose tag is DateTime: type, count and value offset, then the text. */
  function DateTimeEntry(b: Bytes, pos: nat, le: bool): (r: EntryOutcome)
    ensures r.EntryFound? ==> IsIsoDate(r.date)
  {
    if pos + EntrySize > |b| then EntryFailed
    else
      var kind, count, value := ReadU16(b, pos + 2, le).value, ReadU32(b, pos + 4, le).value, ReadU32(b, pos + 8, le).value;
      if kind == AsciiType && count == DateTimeCount then DateTextEntry(b, value + 6) else EntrySkipped
  }

  /** The 19 characters at `valueOffset`: a date when they start with `DDDD:DD:DD`. */
  function DateTextEntry(b: Bytes, valueOffset: nat): (r: EntryOutcome)
    ensures r.EntryFound? ==> IsIsoDate(r.date)
  {
    match DateText(b, valueOffset)
    case None => EntryFailed
    case Some(text) => if HasExifDatePrefix(text) then EntryFound(ExifToIsoDate(text)) else EntrySkipped
  }

  /** Entry number `k` of the directory whose first entry is at `start`. */
  function EntryAt(b: Bytes, start: nat, k: nat, le: bool): EntryOutcome {
    EntryStep(b, start + 12 * k, le)
  }

  datatype IfdOutcome = IfdFound(date: string) | IfdFailed | IfdDone(next: nat)

  /** The `for` loop over entries `i` to `n - 1` (lines 89-113). When no entry matches, the
      cursor ends 12 bytes past the last entry. */
  function IfdScan(b: Bytes, start: nat, i: nat, n: nat, le: bool): (r: IfdOutcome)
    requires i <= n
    ensures r.IfdDone? ==> r.next == start + 12 * n
    ensures r.IfdFound? ==> IsIsoDate(r.date)
    decreases n - i
  {
    if i == n then IfdDone(start + 12 * n)
    else
      match EntryAt(b, start, i, le)
      case EntryFailed => IfdFailed
      case EntryFound(d) => IfdFound(d)
      case EntrySkipped => IfdScan(b, start, i + 1, n, le)
  }

  /** What processing the marker at `p` does: a date, a failure, or the next marker position. */
  datatype StepOutcome = Found(date: string) | Failed | Next(pos: nat)

  /** One iteration of the outer `while` loop (lines 52-116), with the marker at `p`. */
  function SegmentStep(b: Bytes, p: nat): (r: StepOutcome)
    ensures r.Next? ==> r.pos >= p + 2
    ensures r.Found? ==> IsIsoDate(r.date)
  {
    match ReadU16(b, p, false)
    case None => Failed
    case Some(marker) =>
      if marker == App1Marker then App1Step(b, p)
      else
        match ReadU16(b, p + 2, false)
        case None => Failed
        case Some(segmentLength) => Next(p + 2 + segmentLength)
  }

  /** Where the TIFF header of an APP1 segment leads: the byte order and the position of the
      IFD entry count. */
  datatype TiffHeader = TiffHeader(littleEndian: bool, ifd: nat)

  /** Lines 57-82 for the APP1 marker at `p`. The positions, as the cursor moves: length at
      p+2 (read, never used), identifier at p+4, byte order at p+10, magic at p+12, first-IFD
      offset F at p+14; the cursor then moves to p+14+F-8, that is p+6+F. */
  function HeaderAt(b: Bytes, p: nat): (r: Option<TiffHeader>)
    ensures r.Some? ==> r.value.ifd >= p + 6
    ensures r.Some? ==> ReadU16(b, p + 2, false).Some? && ReadU32(b, p + 4, false) == Some(ExifIdCode)
    ensures r.Some? ==>
      && ReadU16(b, p + 10, false).Some?
      && r.value.littleEndian == (ReadU16(b, p + 10, false).value == IntelByteOrder)
      && ReadU16(b, p + 12, r.value.littleEndian) == Some(TiffMagic)
  {
    if ReadU16(b, p + 2, false).None? then None
    else
      match ReadU32(b, p + 4, false)
      case None => None
      case Some(idCode) =>
        if idCode != ExifIdCode then None
        else
          match ReadU16(b, p + 10, false)
          case None => None
          case Some(order) =>
            var le := order == IntelByteOrder;
            match ReadU16(b, p + 12, le)
            case None => None
            case Some(magic) =>
              if magic != TiffMagic then None
              else
                match ReadU32(b, p + 14, le)
                case None => None
                case Some(firstIfdOffset) => Some(TiffHeader(le, p + 14 + firstIfdOffset - 8))
  }

  /** The APP1 branch (lines 56-113) for the marker at `p`: header, entry count at the IFD
      position, then the entries from two bytes further on. */
  function App1Step(b: Bytes, p: nat): (r: StepOutcome)
    ensures r.Next? ==> r.pos >= p + 8
    ensures r.Found? ==> IsIsoDate(r.date)
  {
    match HeaderAt(b, p)
    case None => Failed
    case Some(header) =>
      match ReadU16(b, header.ifd, header.littleEndian)
      case None => Failed
      case Some(entries) => FromIfd(IfdScan(b, header.ifd + 2, 0, entries, header.littleEndian))
  }

  /** A directory scan ends the segment step the same way; a miss moves on past the entries. */
  function FromIfd(r: IfdOutcome): StepOutcome {
    match r
    case IfdFound(d) => Found(d)
    case IfdFailed => Failed
    case IfdDone(next) => Next(next)
  }

  /** The outer loop from the marker position `p` on: `while (offset < length)`. */
  function ScanFrom(b: Bytes, p: nat): (r: Option<string>)
    ensures r.Some? ==> IsIsoDate(r.value)
    decreases |b| - p
  {
    if p >= |b| then None
    else
      match SegmentStep(b, p)
      case Found(d) => Some(d)
      case Failed => None
      case Next(q) => ScanFrom(b, q)
  }

  predicate StartsWithSoi(b: Bytes) {
    |b| >= 2 && b[0] == 0xFF && b[1] == 0xD8
  }

  /** What `parseExifDate` resolves with, for the bytes it read. */
  function ExifDate(b: Bytes): (r: Option<string>)
    ensures !StartsWithSoi(b) ==> r == None
    ensures r.Some? ==> IsIsoDate(r.value)
  {
    match ReadU16(b, 0, false)
    case None => None
    case Some(soi) => if soi != JpegSoi then None else ScanFrom(b, 2)
  }

  /** The bytes the `FileReader` is given: `file.slice(0, 131072)`. */
  function ReadPrefix(file: Bytes): (r: Bytes)
    ensures |r| <= ReadLimit
    ensures |file| <= ReadLimit ==> r == file
    ensures |file| > ReadLimit ==> r == file[..ReadLimit]
  {
    if |file| <= ReadLimit then file else file[..ReadLimit]
  }

  /** `parseExifDate(file)`, the read itself succeeding. */
  function FileExifDate(file: Bytes): (r: Option<string>)
    ensures r.Some? ==> IsIsoDate(r.value)
    ensures !StartsWithSoi(file) ==> r == None
  {
    ExifDate(ReadPrefix(file))
  }

  // ---------------------------------------------------------------- the scan, as the source runs it

  /** The 19 `getUint8` reads that build `dateStr` (lines 99-102). */
  method ReadDateText(view: Bytes, valueOffset: nat) returns (text: Option<string>)
    ensures text == DateText(view, valueOffset)
  {
    var dateStr := "";
    for j := 0 to DateTextLength
      invariant j > 0 ==> valueOffset + j <= |view|
      invariant j > 0 ==> dateStr == Chars(view, valueOffset, j)
      invariant j == 0 ==> dateStr == []
    {
      var code := ReadU8(view, valueOffset + j);
      if code.None? {
        return None;
      }
      dateStr := dateStr + [Latin1(view[valueOffset + j])];
    }
    return Some(dateStr);
  }

  /** One pass of the entry loop's body (lines 90-111) for the entry at `offset`. */
  method ReadEntry(view: Bytes, offset: nat, littleEndian: bool) returns (outcome: EntryOutcome)
    ensures outcome == EntryStep(view, offset, littleEndian)
  {
    var tag := ReadU16(view, offset, littleEndian);
    if tag.None? {
      return EntryFailed;
    }
    if tag.value == DateTimeTag {
      outcome := ReadDateTimeEntry(view, offset, littleEndian);
    } else {
      outcome := EntrySkipped;
    }
  }

  /** Lines 92-111, once the tag is known to be DateTime. */
  method ReadDateTimeEntry(view: Bytes, offset: nat, littleEndian: bool) returns (outcome: EntryOutcome)
    ensures outcome == DateTimeEntry(view, offset, littleEndian)
  {
    var kind := ReadU16(view, offset + 2, littleEndian);
    var numValues := ReadU32(view, offset + 4, littleEndian);
    var rawValue := ReadU32(view, offset + 8, littleEndian);
    if kind.None? || numValues.None? || rawValue.None? {
      return EntryFailed;
    }
    assert offset + EntrySize <= |view|;
    var valueOffset := rawValue.value + 6;
    if kind.value == AsciiType && numValues.value == DateTimeCount {
      outcome := ReadDateTextEntry(view, valueOffset);
    } else {
      outcome := EntrySkipped;
    }
  }

  /** Lines 99-111: read the text, then test it against `^\d{4}:\d{2}:\d{2}`. */
  method ReadDateTextEntry(view: Bytes, valueOffset: nat) returns (outcome: EntryOutcome)
    ensures outcome == DateTextEntry(view, valueOffset)
  {
    var dateStr := ReadDateText(view, valueOffset);
    if dateStr.None? {
      return EntryFailed;
    }
    if HasExifDatePrefix(dateStr.value) {
      return EntryFound(ExifToIsoDate(dateStr.value));
    }
    return EntrySkipped;
  }

  /** The `for` loop over the `entries` directory entries starting at `start` (lines 89-113). */
  method ScanEntries(view: Bytes, start: nat, entries: nat, littleEndian: bool) returns (outcome: IfdOutcome)
    ensures outcome == IfdScan(view, start, 0, entries, littleEndian)
  {
    var offset := start;
    for i := 0 to entries
      invariant offset == start + 12 * i
      invariant IfdScan(view, start, i, entries, littleEndian) == IfdScan(view, start, 0, entries, littleEndian)
    {
      var entry := ReadEntry(view, offset, littleEndian);
      match entry
      case EntryFailed =>
        return IfdFailed;
      case EntryFound(d) =>
        return IfdFound(d);
      case EntrySkipped =>
      offset := offset + EntrySize;
    }
    return IfdDone(offset);
  }

  /** Lines 57-82: the cursor `offset` stands just after an APP1 marker; the result says where
      the cursor ends (the IFD entry count) and which byte order the later reads use. */
  method ReadTiffHeader(view: Bytes, offset: nat) returns (header: Option<TiffHeader>)
    requires offset >= 2
    ensures header == HeaderAt(view, offset - 2)
  {
    var cursor := offset;
    var exifLength := ReadU16(view, cursor, false);
    if exifLength.None? {
      return None;
    }
    cursor := cursor + 2;
    var exifIdCode := ReadU32(view, cursor, false);
    if exifIdCode.None? || exifIdCode.value != ExifIdCode {
      return None;
    }
    cursor := cursor + 6;
    var order := ReadU16(view, cursor, false);
    if order.None? {
      return None;
    }
    var littleEndian := order.value == IntelByteOrder;
    cursor := cursor + 2;
    var magic := ReadU16(view, cursor, littleEndian);
    if magic.None? || magic.value != TiffMagic {
      return None;
    }
    cursor := cursor + 2;
    var firstIfdOffset := ReadU32(view, cursor, littleEndian);
    if firstIfdOffset.None? {
      return None;
    }
    cursor := cursor + firstIfdOffset.value - 8;
    return Some(TiffHeader(littleEndian, cursor));
  }

  /** The APP1 branch (lines 56-113) with the cursor just after the marker: header, entry
      count, entries. */
  method ReadApp1(view: Bytes, offset: nat) returns (outcome: StepOutcome)
    requires offset >= 2
    ensures outcome == App1Step(view, offset - 2)
  {
    var cursor := offset;
    var header := ReadTiffHeader(view, cursor);
    if header.None? {
      return Failed;
    }
    cursor := header.value.ifd;
    var littleEndian := header.value.littleEndian;
    var entries := ReadU16(view, cursor, littleEndian);
    if entries.None? {
      return Failed;
    }
    cursor := cursor + 2;
    var scanned := ScanEntries(view, cursor, entries.value, littleEndian);
    outcome := FromIfd(scanned);
  }

  /** The body of `reader.onload` (lines 39-118): a cursor advanced through the buffer; every
      `return None` below is a `resolve(null)` or a caught `RangeError`. */
  method ParseExifDate(view: Bytes) returns (result: Option<string>)
    ensures result == ExifDate(view)
  {
    var offset: nat := 0;
    var soi := ReadU16(view, 0, false);
    if soi.None? || soi.value != JpegSoi {
      return None;
    }
    var length := |view|;
    offset := offset + 2;
    while offset < length
      invariant ScanFrom(view, offset) == ExifDate(view)
      decreases length - offset
    {
      var marker := ReadU16(view, offset, false);
      if marker.None? {
        return None;
      }
      offset := offset + 2;
      if marker.value == App1Marker {
        var outcome := ReadApp1(view, offset);
        match outcome
        case Found(d) =>
          return Some(d);
        case Failed =>
          return None;
        case Next(next) =>
          offset := next;
      } else {
        var segmentLength := ReadU16(view, offset, false);
        if segmentLength.None? {
          return None;
        }
        offset := offset + segmentLength.value;
      }
    }
    return None;
  }
}
