/** What the EXIF scan promises, proved about the functions that specify `parseExifDate`. */
module ExifProperties {
  import opened Wrappers
  import opened DatePatterns
  import opened Exif

  /** Two base-256 digits determine the number they spell. */
  lemma Base256Unique(hi1: int, lo1: int, hi2: int, lo2: int)
    requires 0 <= lo1 < 0x100 && 0 <= lo2 < 0x100
    requires hi1 * 0x100 + lo1 == hi2 * 0x100 + lo2
    ensures hi1 == hi2 && lo1 == lo2
  {
  }

  /** Two base-65536 digits determine the number they spell. */
  lemma Base65536Unique(hi1: int, lo1: int, hi2: int, lo2: int)
    requires 0 <= lo1 < 0x1_0000 && 0 <= lo2 < 0x1_0000
    requires hi1 * 0x1_0000 + lo1 == hi2 * 0x1_0000 + lo2
    ensures hi1 == hi2 && lo1 == lo2
  {
  }

  /** A big-endian 16-bit read equals `0xHHLL` exactly when the two bytes are HH and LL. */
  lemma ReadU16BigEndianBytes(b: Bytes, pos: nat, hi: Byte, lo: Byte)
    requires pos + 2 <= |b|
    ensures ReadU16(b, pos, false) == Some(hi * 0x100 + lo) <==> (b[pos] == hi && b[pos + 1] == lo)
  {
    if ReadU16(b, pos, false) == Some(hi * 0x100 + lo) {
      Base256Unique(b[pos], b[pos + 1], hi, lo);
    }
  }

  /** The byte-order word selects little-endian exactly when it is "II" (0x49 0x49). */
  lemma ByteOrderSelection(b: Bytes, p: nat)
    requires HeaderAt(b, p).Some?
    ensures HeaderAt(b, p).value.littleEndian <==> (b[p + 10] == 0x49 && b[p + 11] == 0x49)
  {
    ReadU16BigEndianBytes(b, p + 10, 0x49, 0x49);
  }

  /** `getUint16(pos, true)` and `getUint16(pos, false)` read the same two bytes in the two
      orders. */
  lemma ReadU16Orders(b: Bytes, pos: nat)
    requires pos + 2 <= |b|
    ensures ReadU16(b, pos, true) == Some(b[pos] as int + 0x100 * (b[pos + 1] as int))
    ensures ReadU16(b, pos, false) == Some(0x100 * b[pos] as int + b[pos + 1])
  {
  }

  /** A non-APP1 segment is skipped exactly: the next marker is read at the position after the
      marker plus the value of the big-endian length field. */
  lemma NonApp1SegmentSkipped(b: Bytes, p: nat)
    requires p + 4 <= |b|
    requires !(b[p] == 0xFF && b[p + 1] == 0xE1)
    ensures ScanFrom(b, p) == ScanFrom(b, p + 2 + (b[p + 2] as int * 0x100 + b[p + 3]))
  {
    ReadU16BigEndianBytes(b, p, 0xFF, 0xE1);
  }

  /** A segment whose declared length runs to or past the end of the buffer ends the scan
      with null: the loop condition fails and nothing after it is read. */
  lemma OverlongSegmentIsNull(b: Bytes, p: nat)
    requires p + 4 <= |b|
    requires !(b[p] == 0xFF && b[p + 1] == 0xE1)
    requires p + 2 + (b[p + 2] as int * 0x100 + b[p + 3]) >= |b|
    ensures ScanFrom(b, p) == None
  {
    NonApp1SegmentSkipped(b, p);
  }

  /** A marker that starts on the last byte cannot be read: null. */
  lemma TruncatedMarkerIsNull(b: Bytes, p: nat)
    requires p + 1 == |b|
    ensures ScanFrom(b, p) == None
  {
  }

  /** The big-endian identifier read equals `0x45786966` exactly when the four bytes spell
      "Exif". */
  lemma ExifIdentifierBytes(b: Bytes, pos: nat)
    requires pos + 4 <= |b|
    ensures ReadU32(b, pos, false) == Some(ExifIdCode) <==> b[pos .. pos + 4] == [0x45, 0x78, 0x69, 0x66]
  {
    if ReadU32(b, pos, false) == Some(ExifIdCode) {
      Base65536Unique(ReadU16(b, pos, false).value, ReadU16(b, pos + 2, false).value, 0x4578, 0x6966);
      ReadU16BigEndianBytes(b, pos, 0x45, 0x78);
      ReadU16BigEndianBytes(b, pos + 2, 0x69, 0x66);
    }
  }

  /** At the first APP1 segment, four identifier bytes other than "Exif" give null, whatever
      follows: no later segment is examined. */
  lemma BadIdentifierIsNull(b: Bytes, p: nat)
    requires p + 8 <= |b|
    requires b[p] == 0xFF && b[p + 1] == 0xE1
    requires b[p + 4 .. p + 8] != [0x45, 0x78, 0x69, 0x66]
    ensures ScanFrom(b, p) == None
  {
    ReadU16BigEndianBytes(b, p, 0xFF, 0xE1);
    ExifIdentifierBytes(b, p + 4);
  }

  /** A TIFF magic number other than 42, read in the selected byte order, gives null. */
  lemma BadMagicIsNull(b: Bytes, p: nat, le: bool)
    requires p + 14 <= |b|
    requires b[p] == 0xFF && b[p + 1] == 0xE1
    requires ReadU32(b, p + 4, false) == Some(ExifIdCode)
    requires le <==> (b[p + 10] == 0x49 && b[p + 11] == 0x49)
    requires ReadU16(b, p + 12, le) != Some(TiffMagic)
    ensures ScanFrom(b, p) == None
  {
    ReadU16BigEndianBytes(b, p, 0xFF, 0xE1);
    ReadU16BigEndianBytes(b, p + 10, 0x49, 0x49);
  }

  /** The index of the first entry from `i` on that does not skip, or `n` when all of them
      skip. */
  function FirstStop(b: Bytes, start: nat, i: nat, n: nat, le: bool): (k: nat)
    requires i <= n
    ensures i <= k <= n
    ensures forall j :: i <= j < k ==> EntryAt(b, start, j, le) == EntrySkipped
    ensures k < n ==> EntryAt(b, start, k, le) != EntrySkipped
    decreases n - i
  {
    if i == n then n
    else if EntryAt(b, start, i, le) == EntrySkipped then FirstStop(b, start, i + 1, n, le)
    else i
  }

  /** The directory scan is decided by the first entry that does not skip, in entry order:
      a failure there fails the parse, a match there is the date; when every entry skips the
      cursor stands 12 bytes past the last entry. */
  lemma {:induction false} IfdScanFirstStop(b: Bytes, start: nat, i: nat, n: nat, le: bool)
    requires i <= n
    ensures var k := FirstStop(b, start, i, n, le);
      IfdScan(b, start, i, n, le) ==
        if k == n then IfdDone(start + 12 * n)
        else if EntryAt(b, start, k, le).EntryFailed? then IfdFailed
        else IfdFound(EntryAt(b, start, k, le).date)
    decreases n - i
  {
    if i < n && EntryAt(b, start, i, le) == EntrySkipped {
      IfdScanFirstStop(b, start, i + 1, n, le);
    }
  }

  /** The IFD position is the APP1 marker position plus 6 plus the first-IFD offset, rather
      than the TIFF header position plus the offset. */
  lemma HeaderIfdPosition(b: Bytes, p: nat)
    requires HeaderAt(b, p).Some?
    ensures HeaderAt(b, p).value.ifd == p + 6 + ReadU32(b, p + 14, HeaderAt(b, p).value.littleEndian).value
  {
  }

  /** When every entry of the IFD of an APP1 segment skips, the outer scan carries on and reads
      what follows the entries as the next marker. */
  lemma IfdMissResumesScan(b: Bytes, p: nat)
    requires p < |b|
    requires ReadU16(b, p, false) == Some(App1Marker)
    requires HeaderAt(b, p).Some?
    requires ReadU16(b, HeaderAt(b, p).value.ifd, HeaderAt(b, p).value.littleEndian).Some?
    requires var h := HeaderAt(b, p).value;
      FirstStop(b, h.ifd + 2, 0, ReadU16(b, h.ifd, h.littleEndian).value, h.littleEndian) ==
        ReadU16(b, h.ifd, h.littleEndian).value
    ensures var h := HeaderAt(b, p).value;
      ScanFrom(b, p) == ScanFrom(b, h.ifd + 2 + 12 * ReadU16(b, h.ifd, h.littleEndian).value)
  {
    var h := HeaderAt(b, p).value;
    var entries := ReadU16(b, h.ifd, h.littleEndian).value;
    IfdScanFirstStop(b, h.ifd + 2, 0, entries, h.littleEndian);
    assert App1Step(b, p) == Next(h.ifd + 2 + 12 * entries);
  }

  /** An entry is taken only when its tag is DateTime, its type ASCII, its count 20, all twelve
      bytes lie inside the buffer, and the 19 characters at its value offset plus 6 start with
      `DDDD:DD:DD`; the date is then those characters normalised. */
  lemma EntryFoundMeans(b: Bytes, pos: nat, le: bool)
    requires EntryStep(b, pos, le).EntryFound?
    ensures ReadU16(b, pos, le) == Some(DateTimeTag)
    ensures ReadU16(b, pos + 2, le) == Some(AsciiType)
    ensures ReadU32(b, pos + 4, le) == Some(DateTimeCount)
    ensures pos + EntrySize <= |b|
    ensures var text := DateText(b, ReadU32(b, pos + 8, le).value + 6);
      text.Some? && HasExifDatePrefix(text.value) && EntryStep(b, pos, le).date == ExifToIsoDate(text.value)
  {
  }

  /** An entry fails the whole parse exactly when one of its reads leaves the buffer: the tag,
      or, for a DateTime tag, the other fields or the 19 characters of an ASCII/20 entry. */
  lemma EntryFailedMeans(b: Bytes, pos: nat, le: bool)
    ensures EntryStep(b, pos, le).EntryFailed? <==>
      || pos + 2 > |b|
      || (ReadU16(b, pos, le) == Some(DateTimeTag) &&
          (pos + EntrySize > |b| ||
           (ReadU16(b, pos + 2, le) == Some(AsciiType) && ReadU32(b, pos + 4, le) == Some(DateTimeCount) &&
            DateText(b, ReadU32(b, pos + 8, le).value + 6).None?)))
  {
  }

  /** An entry whose tag is readable and is not DateTime is skipped; one whose tag cannot be
      read fails the parse. */
  lemma ForeignTagSkipped(b: Bytes, start: nat, k: nat, le: bool)
    requires ReadU16(b, start + 12 * k, le).Some? && ReadU16(b, start + 12 * k, le) != Some(DateTimeTag)
    ensures EntryAt(b, start, k, le) == EntrySkipped
  {
  }

  lemma TruncatedEntryFails(b: Bytes, start: nat, k: nat, le: bool)
    requires start + 12 * k + 2 > |b|
    ensures EntryAt(b, start, k, le) == EntryFailed
  {
  }

  /** A DateTime entry of type ASCII and count 20 whose text, read at the value offset plus 6,
      starts with `DDDD:DD:DD` is taken, whatever the entries after it hold. */
  lemma DateTimeEntryTaken(b: Bytes, pos: nat, le: bool, text: string)
    requires pos + EntrySize <= |b|
    requires ReadU16(b, pos, le) == Some(DateTimeTag)
    requires ReadU16(b, pos + 2, le) == Some(AsciiType)
    requires ReadU32(b, pos + 4, le) == Some(DateTimeCount)
    requires DateText(b, ReadU32(b, pos + 8, le).value + 6) == Some(text)
    requires HasExifDatePrefix(text)
    ensures EntryStep(b, pos, le) == EntryFound(ExifToIsoDate(text))
  {
  }

  /** An APP1 segment at byte 2 of a JPEG whose first directory entry yields a date makes
      that date the result. */
  lemma FirstEntryDate(b: Bytes, h: TiffHeader, n: nat, d: string)
    requires StartsWithSoi(b) && 4 <= |b|
    requires b[2] == 0xFF && b[3] == 0xE1
    requires HeaderAt(b, 2) == Some(h)
    requires ReadU16(b, h.ifd, h.littleEndian) == Some(n) && n > 0
    requires EntryAt(b, h.ifd + 2, 0, h.littleEndian) == EntryFound(d)
    ensures ExifDate(b) == Some(d)
  {
    assert IfdScan(b, h.ifd + 2, 0, n, h.littleEndian) == IfdFound(d);
    assert App1Step(b, 2) == Found(d);
    ReadU16BigEndianBytes(b, 0, 0xFF, 0xD8);
    ReadU16BigEndianBytes(b, 2, 0xFF, 0xE1);
  }

  /** The same segment whose directory scan fails makes the result null. */
  lemma FirstSegmentFails(b: Bytes, h: TiffHeader, n: nat)
    requires StartsWithSoi(b) && 4 <= |b|
    requires b[2] == 0xFF && b[3] == 0xE1
    requires HeaderAt(b, 2) == Some(h)
    requires ReadU16(b, h.ifd, h.littleEndian) == Some(n)
    requires IfdScan(b, h.ifd + 2, 0, n, h.littleEndian) == IfdFailed
    ensures ExifDate(b) == None
  {
    assert App1Step(b, 2) == Failed;
    ReadU16BigEndianBytes(b, 0, 0xFF, 0xD8);
    ReadU16BigEndianBytes(b, 2, 0xFF, 0xE1);
  }

  /** Bytes after the first 128 KiB never change the result. */
  lemma LaterBytesIgnored(file: Bytes, extra: Bytes)
    requires |file| >= ReadLimit
    ensures FileExifDate(file + extra) == FileExifDate(file)
  {
    if |extra| == 0 {
      assert file + extra == file;
    } else {
      assert (file + extra)[..ReadLimit] == file[..ReadLimit];
      if |file| == ReadLimit {
        assert file[..ReadLimit] == file;
      }
    }
  }
}

/** Concrete APP1 layouts and what the scan makes of them. */
module ExifExamples {
  import opened Wrappers
  import opened DatePatterns
  import opened Exif
  import opened ExifProperties

  /** "2025:01:01 00:00:00" and its terminating NUL, as a DateTime entry stores it. */
  function DateTimeBytes(): Bytes {
    [0x32, 0x30, 0x32, 0x35, 0x3A, 0x30, 0x31, 0x3A, 0x30, 0x31]
    + [0x20, 0x30, 0x30, 0x3A, 0x30, 0x30, 0x3A, 0x30, 0x30, 0x00]
  }

  /** SOI, then an APP1 segment laid out for the offsets the scan uses: first-IFD offset 12,
      so the entry count sits 6 + 12 bytes after the marker; one DateTime entry whose value
      offset 32 plus 6 is the absolute position of the text. Intel byte order. */
  function IntelExample(): Bytes {
    [0xFF, 0xD8, 0xFF, 0xE1, 0x00, 0x36, 0x45, 0x78, 0x69, 0x66]
    + [0x00, 0x00, 0x49, 0x49, 0x2A, 0x00, 0x0C, 0x00, 0x00, 0x00]
    + [0x01, 0x00, 0x32, 0x01, 0x02, 0x00, 0x14, 0x00, 0x00, 0x00]
    + [0x20, 0x00, 0x00, 0x00, 0x00, 0x00, 0x00, 0x00]
    + DateTimeBytes()
  }

  /** The same layout in Motorola byte order. */
  function MotorolaExample(): Bytes {
    [0xFF, 0xD8, 0xFF, 0xE1, 0x00, 0x36, 0x45, 0x78, 0x69, 0x66]
    + [0x00, 0x00, 0x4D, 0x4D, 0x00, 0x2A, 0x00, 0x00, 0x00, 0x0C]
    + [0x00, 0x01, 0x01, 0x32, 0x00, 0x02, 0x00, 0x00, 0x00, 0x14]
    + [0x00, 0x00, 0x00, 0x20, 0x00, 0x00, 0x00, 0x00]
    + DateTimeBytes()
  }

  /** A conventional TIFF layout: first-IFD offset 8 and value offset 26, both relative to the
      TIFF header, which puts the IFD at byte 20 and the text at byte 38. */
  function StandardExample(): Bytes {
    [0xFF, 0xD8, 0xFF, 0xE1, 0x00, 0x36, 0x45, 0x78, 0x69, 0x66]
    + [0x00, 0x00, 0x49, 0x49, 0x2A, 0x00, 0x08, 0x00, 0x00, 0x00]
    + [0x01, 0x00, 0x32, 0x01, 0x02, 0x00, 0x14, 0x00, 0x00, 0x00]
    + [0x1A, 0x00, 0x00, 0x00, 0x00, 0x00, 0x00, 0x00]
    + DateTimeBytes()
  }

  /** The text at byte 38. */
  lemma DateTimeText(b: Bytes)
    requires |b| == 58 && b[38..] == DateTimeBytes()
    ensures DateText(b, 38) == Some("2025:01:01 00:00:00")
  {
    var text := Chars(b, 38, 19);
    assert forall j :: 0 <= j < 19 ==> b[38 + j] == DateTimeBytes()[j];
    assert text == "2025:01:01 00:00:00";
  }

  /** The date the pattern makes of that text. */
  lemma DateTimeNormalised()
    ensures HasExifDatePrefix("2025:01:01 00:00:00")
    ensures ExifToIsoDate("2025:01:01 00:00:00") == "2025-01-01"
  {
  }

  lemma IntelHeader()
    ensures HeaderAt(IntelExample(), 2) == Some(TiffHeader(true, 20))
  {
    var b := IntelExample();
    assert ReadU32(b, 6, false) == Some(ExifIdCode);
    assert ReadU16(b, 12, false) == Some(IntelByteOrder);
    assert ReadU16(b, 14, true) == Some(TiffMagic);
    assert ReadU32(b, 16, true) == Some(12);
  }

  lemma IntelFields()
    ensures ReadU16(IntelExample(), 22, true) == Some(DateTimeTag)
    ensures ReadU16(IntelExample(), 24, true) == Some(AsciiType)
    ensures ReadU32(IntelExample(), 26, true) == Some(DateTimeCount)
    ensures ReadU32(IntelExample(), 30, true) == Some(32)
  {
  }

  lemma IntelText()
    ensures DateText(IntelExample(), 38) == Some("2025:01:01 00:00:00")
  {
    var b := IntelExample();
    assert |b| == 58 && b[38..] == DateTimeBytes();
    DateTimeText(b);
  }

  lemma IntelEntry()
    ensures EntryAt(IntelExample(), 22, 0, true) == EntryFound("2025-01-01")
  {
    IntelFields();
    IntelText();
    DateTimeNormalised();
    DateTimeEntryTaken(IntelExample(), 22, true, "2025:01:01 00:00:00");
  }

  /** The Intel layout yields the normalised date. */
  lemma IntelExampleParses()
    ensures ExifDate(IntelExample()) == Some("2025-01-01")
  {
    var b := IntelExample();
    assert ReadU16(b, 20, true) == Some(1);
    assert StartsWithSoi(b) && b[2] == 0xFF && b[3] == 0xE1;
    IntelHeader();
    IntelEntry();
    FirstEntryDate(b, TiffHeader(true, 20), 1, "2025-01-01");
  }

  lemma MotorolaHeader()
    ensures HeaderAt(MotorolaExample(), 2) == Some(TiffHeader(false, 20))
  {
    var b := MotorolaExample();
    assert ReadU32(b, 6, false) == Some(ExifIdCode);
    assert ReadU16(b, 12, false) == Some(0x4D4D);
    assert ReadU16(b, 14, false) == Some(TiffMagic);
    assert ReadU32(b, 16, false) == Some(12);
  }

  lemma MotorolaFields()
    ensures ReadU16(MotorolaExample(), 22, false) == Some(DateTimeTag)
    ensures ReadU16(MotorolaExample(), 24, false) == Some(AsciiType)
    ensures ReadU32(MotorolaExample(), 26, false) == Some(DateTimeCount)
    ensures ReadU32(MotorolaExample(), 30, false) == Some(32)
  {
  }

  lemma MotorolaText()
    ensures DateText(MotorolaExample(), 38) == Some("2025:01:01 00:00:00")
  {
    var b := MotorolaExample();
    assert |b| == 58 && b[38..] == DateTimeBytes();
    DateTimeText(b);
  }

  lemma MotorolaEntry()
    ensures EntryAt(MotorolaExample(), 22, 0, false) == EntryFound("2025-01-01")
  {
    MotorolaFields();
    MotorolaText();
    DateTimeNormalised();
    DateTimeEntryTaken(MotorolaExample(), 22, false, "2025:01:01 00:00:00");
  }

  /** The Motorola layout yields the normalised date. */
  lemma MotorolaExampleParses()
    ensures ExifDate(MotorolaExample()) == Some("2025-01-01")
  {
    var b := MotorolaExample();
    assert ReadU16(b, 20, false) == Some(1);
    assert StartsWithSoi(b) && b[2] == 0xFF && b[3] == 0xE1;
    MotorolaHeader();
    MotorolaEntry();
    FirstEntryDate(b, TiffHeader(false, 20), 1, "2025-01-01");
  }

  lemma StandardHeader()
    ensures HeaderAt(StandardExample(), 2) == Some(TiffHeader(true, 16))
  {
    var b := StandardExample();
    assert ReadU32(b, 6, false) == Some(ExifIdCode);
    assert ReadU16(b, 12, false) == Some(IntelByteOrder);
    assert ReadU16(b, 14, true) == Some(TiffMagic);
    assert ReadU32(b, 16, true) == Some(8);
  }

  /** Entries 0 to 3 of the misplaced directory at byte 18 carry tags 0x0000, 0x001A, 0x303A
      and 0x303A; entry 4 would start at byte 66. */
  lemma StandardEntries()
    ensures EntryAt(StandardExample(), 18, 0, true) == EntrySkipped
    ensures EntryAt(StandardExample(), 18, 1, true) == EntrySkipped
    ensures EntryAt(StandardExample(), 18, 2, true) == EntrySkipped
    ensures EntryAt(StandardExample(), 18, 3, true) == EntrySkipped
    ensures EntryAt(StandardExample(), 18, 4, true) == EntryFailed
  {
    var b := StandardExample();
    assert |b| == 58;
    assert ReadU16(b, 18, true) == Some(0x0000);
    assert ReadU16(b, 30, true) == Some(0x001A);
    assert ReadU16(b, 42, true) == Some(0x303A);
    assert ReadU16(b, 54, true) == Some(0x303A);
    ForeignTagSkipped(b, 18, 0, true);
    ForeignTagSkipped(b, 18, 1, true);
    ForeignTagSkipped(b, 18, 2, true);
    ForeignTagSkipped(b, 18, 3, true);
    TruncatedEntryFails(b, 18, 4, true);
  }

  /** With header-relative offsets the scan reads the entry count at byte 16 (8 entries),
      skips the four entries that fit, and runs off the end on the fifth: null. */
  lemma StandardExampleNotFound()
    ensures ExifDate(StandardExample()) == None
  {
    var b := StandardExample();
    assert ReadU16(b, 16, true) == Some(8);
    assert StartsWithSoi(b) && b[2] == 0xFF && b[3] == 0xE1;
    StandardHeader();
    StandardEntries();
    assert FirstStop(b, 18, 4, 8, true) == 4;
    assert FirstStop(b, 18, 2, 8, true) == 4;
    assert FirstStop(b, 18, 0, 8, true) == 4;
    IfdScanFirstStop(b, 18, 0, 8, true);
    FirstSegmentFails(b, TiffHeader(true, 16), 8);
  }
}
