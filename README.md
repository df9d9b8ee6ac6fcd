# Anniversary site: a Dafny model of its client and route logic

The site is a Next.js anniversary page with several parts:

- a "together for" counter;
- a rotating background and falling petals;
- a music player fed by a metadata route;
- a memory timeline whose events carry images. Its form pre-fills the date from a photo's
  JPEG/Exif capture time.
- a letter panel and a gift panel, both editable behind a shared password. A thirty-minute
  token spares the password.

This project models the decision logic of those parts.

At the centre is `parseExifDate`, the byte-level JPEG/APP1/TIFF/IFD scan:

- method `Exif.ParseExifDate` keeps the source's cursor and loops;
- that method is proved equal to the recursive specification `Exif.ExifDate`;
- the listed properties are proved about `Exif.ExifDate` in `ExifProperties`;
- `ExifExamples` holds concrete buffers.

The scan is modelled as written. In particular:

- the IFD is found at (APP1 marker position) + 6 + first-IFD offset;
- the date text is read at value offset + 6, taken as an absolute position;
- only the four bytes "Exif" are compared;
- any byte-order word other than "II" means big-endian;
- when the IFD holds no usable entry, the scan goes on reading the bytes after the entries as
  markers.

So the scan can miss a file laid out the conventional way: `ExifExamples.StandardExampleNotFound` proves it for one such file.

How the source's forms are modelled:

- Stateful components become classes whose fields are the React state. Their handlers are
  methods with `modifies` clauses.
- Pure computations become functions and lemmas. These are the filters, the list edits, the
  layout split, the song-info extraction and the token validity.
- Loops stay loops:
  - the EXIF scan;
  - the song collection of `getLocalSongs`;
  - the record loop of the metadata route's `GET`;
  - the image-delete requests of `deleteEvent`.
- The clock (`Date.now()`, `new Date()`, the zone offset) is an integer parameter.
- Network and file results are parameters: responses, request failures, directory listings and
  the lookup chain of the metadata route. A request is a total function from its input to its
  outcome.
- A callback such as `onVerify` or `onSubmit` is modelled as the value the method returns.

Modules:

| module | models |
|---|---|
| `Wrappers` | `Option` |
| `JsString` | the JavaScript string operations in use: `startsWith`, `endsWith`, ASCII `toLowerCase`, `trim`, `split`, `lastIndexOf`, number to decimal text |
| `JsMath` | the truncating `%` and the cyclic next/previous index |
| `DatePatterns` | the two date regular expressions |
| `Exif`, `ExifProperties`, `ExifExamples` | `src/lib/exifService.ts` |
| `PasswordService`, `SharedPassword` | `src/lib/passwordService.ts`, and the shared password `241214` |
| `BackgroundService` | `src/lib/backgroundService.ts` |
| `HomePage` | `src/app/page.tsx` |
| `HeaderClock` | `src/components/ui/Header.tsx` |
| `Petals` | `src/components/ui/PetalsFalling.tsx` |
| `Slider` | `src/components/ui/BackgroundSlider.tsx` |
| `MusicApi` | `src/lib/musicApi.ts` |
| `MusicMetadata` | `src/app/api/music/metadata/route.ts` |
| `MusicPlayer` | `src/components/MusicPlayer.tsx` |
| `TimelineItem` | `src/components/timeline/TimelineItem.tsx` |
| `PasswordModal` | `src/components/timeline/PasswordModal.tsx` |
| `Timeline` | `src/components/timeline/Timeline.tsx` |
| `TimelineForm` | `src/components/timeline/TimelineForm.tsx` |
| `Envelope` | `src/components/ui/Envelope.tsx` |
| `Gift` | `src/components/ui/Gift.tsx` |

Points where the model makes a reading of the source explicit:

- The empty-password bypass. With a valid token, the timeline's password dialog calls
  `onVerify('')`. The timeline page compares that string with `241214` and rejects it, so a
  valid token does not spare the password on the timeline: see `Timeline.BypassRejected`. Only
  the gift panel really skips the prompt.
- A stored token whose `expires` is missing or not a number never expires, because
  `now > undefined` is false.
- `handleSongEnd` with an empty playlist computes the index `NaN` and selects `undefined`.
- `path.extname` gives "" for a name whose only dot is its first character, so `.mp3` alone is
  not listed.

## Model

| member | source | states |
|---|---|---|
| JsMath.JsRem | src/components/timeline/TimelineItem.tsx:33-35 | JavaScript's `%` for a positive divisor: the non-negative Euclidean remainder for a non-negative dividend, minus the remainder of the absolute value for a negative one |
| JsMath.CyclicNext | src/components/timeline/TimelineItem.tsx:33-35 | `(i + 1) % n` stays in [0, n) from any i in [-1, n), is i + 1 below the last index, and wraps the last index to 0 |
| JsMath.CyclicPrev | src/components/timeline/TimelineItem.tsx:41-43 | `(i - 1 + n) % n` stays in [0, n), is i - 1 above 0, and wraps 0 to n - 1 |
| JsMath.PrevNextInverse | src/components/timeline/TimelineItem.tsx:31-44 | previous after next, and next after previous, give back the index |
| JsString.ToLower | src/app/api/music/metadata/route.ts:132 | `toLowerCase()` keeps the length and lowers each ASCII letter in place |
| JsString.TrimStartMeans | src/lib/musicApi.ts:32 | the start-trimmed text is a suffix with no leading whitespace, and only whitespace was removed |
| JsString.TrimEndMeans | src/lib/musicApi.ts:32 | the end-trimmed text is a prefix with no trailing whitespace, and only whitespace was removed |
| JsString.TrimMeans | src/lib/musicApi.ts:32 | `trim()` leaves no whitespace at either end and does not change text that has none |
| JsString.SplitPiecesFree | src/lib/musicApi.ts:32 | no piece of `split('-')` contains a `-` |
| JsString.JoinSplit | src/lib/musicApi.ts:32 | joining the pieces of `split(c)` with `c` gives back the text |
| JsString.SplitCount | src/lib/musicApi.ts:32 | `split(c)` gives one piece more than there are `c` characters |
| JsString.SplitFirst | src/lib/musicApi.ts:32-35 | the first piece is the text before the first separator, and the remaining pieces are those of the text after it |
| JsString.LastIndexOf | src/app/api/music/metadata/route.ts:132 | -1 or the position of the last occurrence: the character is there and nowhere after it |
| JsString.NatToString | src/components/timeline/Timeline.tsx:108 | `toString()` of a natural number is non-empty decimal digits with no leading zero |
| JsString.NatToStringValue | src/components/timeline/Timeline.tsx:108 | the decimal text of `n` denotes `n` |
| JsString.NatToStringInjective | src/components/timeline/Timeline.tsx:108 | two numbers have the same decimal text exactly when they are equal |
| DatePatterns.ExifToIsoDate | src/lib/exifService.ts:105-107 | the three captured groups joined with `-` always match `^\d{4}-\d{2}-\d{2}$` |
| DatePatterns.ExifToIsoDateDigits | src/lib/exifService.ts:105-107 | the normalised date keeps the eight digits in place and replaces only the two colons with `-` |
| Exif.ReadU8 | src/lib/exifService.ts:101 | `getUint8` succeeds exactly when the position is inside the buffer, and yields a byte |
| Exif.ReadU16 | src/lib/exifService.ts:43 | `getUint16` succeeds exactly when both bytes are inside the buffer, and yields a 16-bit value |
| Exif.ReadU32 | src/lib/exifService.ts:61 | `getUint32` succeeds exactly when the four bytes are inside the buffer, and yields a 32-bit value |
| Exif.DateText | src/lib/exifService.ts:99-102 | the 19 `getUint8` reads succeed exactly when they stay inside the buffer, and give 19 characters |
| Exif.DateTextEntry | src/lib/exifService.ts:99-109 | a text whose reads all succeed and that starts with `DDDD:DD:DD` yields a `YYYY-MM-DD` date; an unreadable text fails the parse |
| Exif.DateTimeEntry | src/lib/exifService.ts:93-109 | a DateTime entry of type 2 and count 20 that is taken yields a `YYYY-MM-DD` date |
| Exif.EntryStep | src/lib/exifService.ts:90-112 | an entry that is taken yields a `YYYY-MM-DD` date |
| Exif.IfdScan | src/lib/exifService.ts:89-113 | a directory with no usable entry leaves the cursor 12 bytes per entry further; a found date has the `YYYY-MM-DD` form |
| Exif.SegmentStep | src/lib/exifService.ts:51-116 | an iteration that goes on moves the cursor at least 2 bytes forward, so the scan ends; a found date has the `YYYY-MM-DD` form |
| Exif.HeaderAt | src/lib/exifService.ts:57-86 | an accepted header had a readable length field and the identifier `0x45786966`, and its IFD lies at least 6 bytes past the marker |
| Exif.App1Step | src/lib/exifService.ts:56-113 | an APP1 step that goes on moves the cursor at least 8 bytes forward |
| Exif.ScanFrom | src/lib/exifService.ts:51-118 | the marker scan from a position ends, and any date it finds has the form `YYYY-MM-DD` |
| Exif.ExifDate | src/lib/exifService.ts:43-46 | no result without the `FF D8` start-of-image marker (or when fewer than 2 bytes were read); every result has the form `YYYY-MM-DD` |
| Exif.ReadPrefix | src/lib/exifService.ts:131 | `file.slice(0, 131072)`: the whole file up to 128 KiB, else its first 131072 bytes |
| Exif.FileExifDate | src/lib/exifService.ts:130-132 | the date of a file is that of its first 128 KiB, and has the form `YYYY-MM-DD` |
| Exif.ReadDateText | src/lib/exifService.ts:99-102 | the character loop gives the text of `DateText` |
| Exif.ReadEntry | src/lib/exifService.ts:90-112 | the loop body gives the outcome of `EntryStep` |
| Exif.ReadDateTimeEntry | src/lib/exifService.ts:93-111 | the DateTime branch gives the outcome of `DateTimeEntry` |
| Exif.ReadDateTextEntry | src/lib/exifService.ts:99-109 | the text read and the pattern test give the outcome of `DateTextEntry` |
| Exif.ScanEntries | src/lib/exifService.ts:89-113 | the entry `for` loop gives the outcome of `IfdScan` |
| Exif.ReadTiffHeader | src/lib/exifService.ts:57-86 | the cursor moves of the APP1 header give the header of `HeaderAt` |
| Exif.ReadApp1 | src/lib/exifService.ts:56-113 | the APP1 branch gives the outcome of `App1Step` |
| Exif.ParseExifDate | src/lib/exifService.ts:39-122 | the cursor loop of `reader.onload` resolves with exactly `ExifDate` of the bytes read; every failed read is `null` |
| ExifProperties.ReadU16BigEndianBytes | src/lib/exifService.ts:52 | a big-endian 16-bit read equals `0xHHLL` exactly when the bytes are HH and LL |
| ExifProperties.ByteOrderSelection | src/lib/exifService.ts:70 | the later reads are little-endian exactly when the byte-order word is `II` |
| ExifProperties.ReadU16Orders | src/lib/exifService.ts:70-74 | the two byte orders read the same two bytes, least or most significant first |
| ExifProperties.NonApp1SegmentSkipped | src/lib/exifService.ts:114-116 | a non-APP1 segment is skipped exactly: the next marker is read at the position after the marker plus its big-endian length |
| ExifProperties.OverlongSegmentIsNull | src/lib/exifService.ts:51-118 | a segment length that reaches the end of the buffer ends the scan with `null` |
| ExifProperties.TruncatedMarkerIsNull | src/lib/exifService.ts:52-122 | a marker that starts on the last byte cannot be read: `null` |
| ExifProperties.ExifIdentifierBytes | src/lib/exifService.ts:61-62 | the identifier read equals `0x45786966` exactly when the four bytes spell "Exif" |
| ExifProperties.BadIdentifierIsNull | src/lib/exifService.ts:56-65 | at the first APP1 segment, an identifier other than "Exif" gives `null` whatever follows |
| ExifProperties.BadMagicIsNull | src/lib/exifService.ts:74-77 | a TIFF magic other than 42, in the selected byte order, gives `null` |
| ExifProperties.FirstStop | src/lib/exifService.ts:89-113 | the index of the first entry that does not skip: every entry before it skips |
| ExifProperties.IfdScanFirstStop | src/lib/exifService.ts:89-113 | the directory scan is decided by the first entry that does not skip, in entry order; when all skip, the cursor ends 12 bytes past the last |
| ExifProperties.HeaderIfdPosition | src/lib/exifService.ts:78-86 | the entry count is read at marker position + 6 + first-IFD offset, not at TIFF header + offset |
| ExifProperties.IfdMissResumesScan | src/lib/exifService.ts:89-117 | when every entry skips, the outer scan reads the bytes after the entries as the next marker |
| ExifProperties.EntryFoundMeans | src/lib/exifService.ts:90-109 | an entry is taken only with tag 0x0132, type 2 and count 20, all its reads inside the buffer, and text at value offset + 6 starting with `DDDD:DD:DD`; the date is that text normalised |
| ExifProperties.EntryFailedMeans | src/lib/exifService.ts:90-122 | an entry fails the parse exactly when one of its reads leaves the buffer |
| ExifProperties.ForeignTagSkipped | src/lib/exifService.ts:90-112 | a readable tag other than DateTime is skipped; an unreadable tag fails the parse |
| ExifProperties.TruncatedEntryFails | src/lib/exifService.ts:90-122 | an entry whose tag lies past the end of the buffer fails the parse |
| ExifProperties.DateTimeEntryTaken | src/lib/exifService.ts:93-108 | a well-formed DateTime entry is taken whatever the later entries hold |
| ExifProperties.FirstEntryDate | src/lib/exifService.ts:43-113 | an APP1 segment at byte 2 whose first entry yields a date makes that date the result |
| ExifProperties.FirstSegmentFails | src/lib/exifService.ts:43-122 | the same segment with a failing directory scan makes the result `null` |
| ExifProperties.LaterBytesIgnored | src/lib/exifService.ts:130-132 | bytes after the first 131072 never change the result |
| ExifExamples.DateTimeText | src/lib/exifService.ts:99-102 | the example's 19 characters at byte 38 are `2025:01:01 00:00:00` |
| ExifExamples.DateTimeNormalised | src/lib/exifService.ts:105-107 | that text normalises to `2025-01-01` |
| ExifExamples.IntelHeader | src/lib/exifService.ts:57-86 | the little-endian example's header is accepted, with its IFD where the scan looks |
| ExifExamples.IntelFields | src/lib/exifService.ts:90-96 | the fields of its one entry read as DateTime, ASCII, count 20 |
| ExifExamples.IntelText | src/lib/exifService.ts:99-102 | its text is read at value offset + 6 |
| ExifExamples.IntelEntry | src/lib/exifService.ts:90-109 | its entry is taken |
| ExifExamples.IntelExampleParses | src/lib/exifService.ts:39-118 | a little-endian file laid out for the source's offsets yields `2025-01-01` |
| ExifExamples.MotorolaHeader | src/lib/exifService.ts:57-86 | the big-endian example's header is accepted |
| ExifExamples.MotorolaFields | src/lib/exifService.ts:90-96 | the fields of its entry read as DateTime, ASCII, count 20 in big-endian order |
| ExifExamples.MotorolaText | src/lib/exifService.ts:99-102 | its text is read at value offset + 6 |
| ExifExamples.MotorolaEntry | src/lib/exifService.ts:90-109 | its entry is taken |
| ExifExamples.MotorolaExampleParses | src/lib/exifService.ts:39-118 | the same layout in big-endian order yields `2025-01-01` |
| ExifExamples.StandardHeader | src/lib/exifService.ts:57-86 | a conventionally laid-out file's header is accepted, but its IFD is taken to be at byte 16 |
| ExifExamples.StandardEntries | src/lib/exifService.ts:89-113 | the misplaced directory's first four entries are skipped and the fifth runs off the buffer |
| ExifExamples.StandardExampleNotFound | src/lib/exifService.ts:78-113 | a file with header-relative offsets, as TIFF 6.0 section 2 lays them out, yields `null` |
| PasswordService.TokenSetAt | src/lib/passwordService.ts:3-10 | the stored token expires at the setting time plus 1 800 000 ms |
| PasswordService.Expired | src/lib/passwordService.ts:19-21 | `Date.now() > token.expires`, false when `expires` is missing; its meaning is stated by `ValidUntilExpiry` |
| PasswordService.TokenValid | src/lib/passwordService.ts:13-28 | the result of `checkPasswordToken`: a parsed, unexpired token; stated by `ValidUntilExpiry` and `SetThenCheck` |
| PasswordService.SlotAfterCheck | src/lib/passwordService.ts:13-28 | after a check the slot is empty exactly when the check failed, and holds the old token otherwise |
| PasswordService.TokenStore.constructor | src/lib/passwordService.ts:2 | the slot starts empty |
| PasswordService.TokenStore.SetPasswordToken | src/lib/passwordService.ts:5-10 | the slot holds a token expiring 30 minutes after `now` |
| PasswordService.TokenStore.CheckPasswordToken | src/lib/passwordService.ts:13-28 | the result is the token's validity at `now`; an expired or unparsable token is removed, anything else kept |
| PasswordService.TokenStore.ClearPasswordToken | src/lib/passwordService.ts:30-32 | the slot is empty afterwards |
| PasswordService.ValidUntilExpiry | src/lib/passwordService.ts:19-23 | a parsed token is valid exactly while `now <= expires`, the boundary instant included |
| PasswordService.SetThenCheck | src/lib/passwordService.ts:5-23 | a token set at t passes every check from t to t + 30 minutes, and fails every later one |
| PasswordService.CheckOutcome | src/lib/passwordService.ts:19-27 | a check keeps a valid slot and empties an invalid one, so a failed check is never followed by a passing one without a new set |
| PasswordService.MissingFailsUnchanged | src/lib/passwordService.ts:14-15 | with nothing stored the check fails and changes nothing |
| PasswordService.UnparsableRemoved | src/lib/passwordService.ts:24-27 | an unparsable value is removed and reported invalid |
| PasswordService.UndefinedExpiryValid | src/lib/passwordService.ts:19 | a parsed value without a numeric `expires` never expires |
| PasswordService.CheckResults | src/lib/passwordService.ts:13-32 | one result per check in a sequence of set, check and clear operations |
| PasswordService.FailedCheckIsFinal | src/lib/passwordService.ts:19-32 | once a check fails, every later check fails until the next set |
| PasswordService.ChecksWithinWindowPass | src/lib/passwordService.ts:5-23 | a token set at t and never cleared passes every check made within 30 minutes of t |
| SharedPassword.PasswordAccepted | src/components/timeline/Timeline.tsx:13 | only the six-character password `241214` is accepted |
| BackgroundService.AddCacheBuster | src/lib/backgroundService.ts:2-6 | "" is returned as it is; otherwise the URL is a prefix of the result, followed by `&` when it has a `?` and by `?` when not, then `t=<now>` |
| BackgroundService.CacheBusterQueryMark | src/lib/backgroundService.ts:4-5 | the result always has a `?`, and a URL that already had one gets no second one |
| BackgroundService.GetBackgrounds | src/lib/backgroundService.ts:9-23 | `[]` on a non-ok response, on a thrown error, or with no `backgrounds` field; the stored list otherwise |
| BackgroundService.Count | src/lib/backgroundService.ts:52 | an element's occurrence count is 0 exactly when it is absent |
| BackgroundService.CountAppend | src/lib/backgroundService.ts:53 | counts add up over a concatenation |
| BackgroundService.RemoveAll | src/lib/backgroundService.ts:67 | the filter leaves no copy of the URL and adds nothing |
| BackgroundService.RemoveAllCounts | src/lib/backgroundService.ts:67 | every other element keeps its number of occurrences |
| BackgroundService.RemoveAllLength | src/lib/backgroundService.ts:67-68 | the length drops by the number of copies, so it is unchanged exactly when the URL is absent, in which case the list is too |
| BackgroundService.RemoveAllAppend | src/lib/backgroundService.ts:67 | the filter works piecewise, so the rest keeps its order |
| BackgroundService.AddBackground | src/lib/backgroundService.ts:49-61 | a URL already present saves nothing and gives true; otherwise the old list plus the URL at the end is saved, with the save's result |
| BackgroundService.RemoveBackground | src/lib/backgroundService.ts:64-76 | a present URL saves the filtered list, with the save's result; an absent one saves nothing and gives true |
| BackgroundService.AddedExactlyOnce | src/lib/backgroundService.ts:52-54 | after an add the URL occurs exactly once and every other element as often as before |
| BackgroundService.RemoveUndoesAdd | src/lib/backgroundService.ts:49-71 | removing a URL just added restores the list |
| HomePage.FilterBackgrounds | src/app/page.tsx:25-28 | every kept path satisfies the validity test |
| HomePage.FilterMembership | src/app/page.tsx:25-28 | a path is kept exactly when it was loaded and is non-empty, under `/backgrounds/` and ends case-sensitively in one of the five image suffixes |
| HomePage.FilterIsSubsequence | src/app/page.tsx:25 | the kept paths are an order-preserving subsequence of the loaded ones |
| HomePage.FilterIdempotent | src/app/page.tsx:25-28 | filtering twice is filtering once |
| HomePage.LoadBackgrounds | src/app/page.tsx:22-30 | the state is replaced by the valid paths only when the loaded list is non-empty |
| HeaderClock.DecomposeNonNegative | src/components/ui/Header.tsx:21-24 | for an elapsed time D >= 0: d = D div 86 400 000, hours < 24, minutes and seconds < 60, and the parts recompose D to within the dropped milliseconds |
| HeaderClock.DecomposeNegative | src/components/ui/Header.tsx:21-24 | before the start the day count is negative and the other fields are zero or negative, because `%` truncates |
| HeaderClock.Decompose | src/components/ui/Header.tsx:21-24 | the day count is non-negative exactly from the start on, and hours lie in [-24, 24), minutes and seconds in [-60, 60) on either side of it |
| HeaderClock.ZeroAtStart | src/components/ui/Header.tsx:15-19 | at 2024-12-14T00:00:00 local time, in any zone, the counter reads zero |
| Petals.PetalCount | src/components/ui/PetalsFalling.tsx:98-101 | the count is in [15, 30] and equals floor(width / 50) whenever that is in range, 15 below and 30 above |
| Petals.PetalIndices | src/components/ui/PetalsFalling.tsx:103 | the petal list is exactly 0, 1, …, count - 1 |
| Petals.PetalsFor | src/components/ui/PetalsFalling.tsx:98-111 | mounting and every resize give 15 to 30 petals numbered from 0 |
| Petals.PetalCountMonotone | src/components/ui/PetalsFalling.tsx:98-101 | a wider window never has fewer petals |
| Slider.BackgroundSlider.constructor | src/components/ui/BackgroundSlider.tsx:19-20 | the index starts at 0, not loaded |
| Slider.BackgroundSlider.RotationScheduled | src/components/ui/BackgroundSlider.tsx:27 | the timer runs only with more than one image; used by `Tick` |
| Slider.BackgroundSlider.Tick | src/components/ui/BackgroundSlider.tsx:27-42 | with more than one image a tick moves to `(i + 1) % n` and clears `isLoaded`; with one or none nothing happens |
| Slider.BackgroundSlider.HandleImageLoad | src/components/ui/BackgroundSlider.tsx:45-47 | `isLoaded` becomes true and the index stays |
| Slider.BackgroundSlider.Rendered | src/components/ui/BackgroundSlider.tsx:52 | nothing is drawn exactly when there are no images; otherwise the current image |
| Slider.IndexAfterTicks | src/components/ui/BackgroundSlider.tsx:31 | from the first image, k ticks show image k mod n |
| MusicApi.StripExtensionMeans | src/lib/musicApi.ts:31 | `replace(/\.[^/.]+$/, '')` removes exactly a final dot-extension free of `/` and `.`, and nothing when there is none |
| MusicApi.StripExtension | src/lib/musicApi.ts:31 | the stem is a prefix of the name and, when shorter, is followed by a dot |
| MusicApi.ExtractSongInfo | src/lib/musicApi.ts:30-38 | there is an artist exactly when the stem contains a `-`; the parts are stated by `NoDashTitleOnly` and `ArtistAndTitle` |
| MusicApi.TrimAll | src/lib/musicApi.ts:32 | one trimmed part per piece |
| MusicApi.NoDashTitleOnly | src/lib/musicApi.ts:37 | with no `-`, the title is the whole trimmed stem and there is no artist |
| MusicApi.ArtistAndTitle | src/lib/musicApi.ts:32-36 | with a `-`, the artist is the trimmed text before the first one and the title the trimmed text up to the next one; later parts are dropped |
| MusicApi.SearchQuery | src/lib/musicApi.ts:44 | the query is `title artist` when the artist is non-empty, else the title |
| MusicApi.ArtistOrDefault | src/lib/musicApi.ts:64 | the artist, or `未知艺术家` when it is missing or empty; never empty |
| MusicApi.SearchSongMetadata | src/lib/musicApi.ts:41-71 | `null` exactly when the request threw; every record has id `local_` + filename and url `/music/` + filename; a top match gives its name, artist and cover |
| MusicApi.FallbackRecord | src/lib/musicApi.ts:61-66 | with no match, the record's name is the title, its artist defaults, and it has no cover |
| MusicApi.GetSongDetail | src/lib/musicApi.ts:114-136 | for an id without `local_`, a song exactly when the detail request succeeds, with the response's id, name, first artist and cover, streamed from the API's `/song/url?id=` + that id |
| MusicApi.LocalDetailLooksUpFile | src/lib/musicApi.ts:117-119 | `getSongDetail("local_" + f)` is the metadata search for file f |
| MusicApi.LocalIdRoundTrip | src/lib/musicApi.ts:117-119 | the detail of a local record's id gives back the same record |
| MusicApi.Lookups | src/lib/musicApi.ts:84-85 | one lookup per file |
| MusicApi.LookupsAt | src/lib/musicApi.ts:85 | the k-th lookup is the search for the k-th file |
| MusicApi.Present | src/lib/musicApi.ts:86-88 | keeping the non-null results never gives more songs than files |
| MusicApi.PresentAppend | src/lib/musicApi.ts:84-89 | the kept results of a concatenation are the concatenation of the kept results |
| MusicApi.LookupsAppend | src/lib/musicApi.ts:84-85 | the lookups of a concatenation are the concatenation of the lookups |
| MusicApi.CollectSongsAppend | src/lib/musicApi.ts:84-89 | the collected songs of a concatenation are, in file order, those of each part |
| MusicApi.PresentAllSome | src/lib/musicApi.ts:86-88 | when no result is null, every one is kept in order |
| MusicApi.CollectSongsAllFound | src/lib/musicApi.ts:84-89 | when every search succeeds, one song per file in file order |
| MusicApi.CollectSongsStep | src/lib/musicApi.ts:84-89 | one more file adds its song, if any, at the end |
| MusicApi.GetLocalSongs | src/lib/musicApi.ts:73-96 | a failed request or a missing or non-array `files` gives `[]`; otherwise the non-null metadata of the files, in file order |
| MusicMetadata.AudioFileIff | src/app/api/music/metadata/route.ts:131-134 | a file is listed exactly when it is longer than four characters and its last four are, ignoring ASCII case, `.mp3`, `.wav`, `.ogg` or `.m4a` |
| MusicMetadata.Extname | src/app/api/music/metadata/route.ts:132 | a non-empty extension is a proper suffix of the name that starts with its only dot |
| MusicMetadata.HasAudioExtension | src/app/api/music/metadata/route.ts:131-134 | the `GET` filter; stated by `AudioFileIff` |
| MusicMetadata.AudioFiles | src/app/api/music/metadata/route.ts:131-134 | the listed files are exactly the audio files of the directory |
| MusicMetadata.Fallback | src/app/api/music/metadata/route.ts:113-118 | id `local_` + filename, name the title, artist defaulting to `未知艺术家`, no cover and no song id |
| MusicMetadata.FromLookup | src/app/api/music/metadata/route.ts:94-100 | a found song's record has id `local_` + filename and a non-empty song id |
| MusicMetadata.GetOrUpdate | src/app/api/music/metadata/route.ts:48-125 | the file afterwards holds the returned record; a record with a song id is reused with at most its cover changed, unchanged when it has one; otherwise a new record with id `local_` + filename gets a song id exactly when the lookup found a song |
| MusicMetadata.CoverRefreshed | src/app/api/music/metadata/route.ts:58-73 | a reused record without a cover gets the downloaded cover when the download succeeds, and keeps its cover otherwise |
| MusicMetadata.FallbackNotReused | src/app/api/music/metadata/route.ts:112-124 | a failed lookup stores the fallback, which has no song id, so the next request searches again |
| MusicMetadata.FoundIsReused | src/app/api/music/metadata/route.ts:57-106 | a record built from a found song with a cover is returned unchanged by every later request, with no new search |
| MusicMetadata.GetAll | src/app/api/music/metadata/route.ts:136-139 | the loop of `GET`: each file's `getOrUpdateMetadata` sees the metadata file the previous calls left; stated by `GetAllFrame` and `GetAllEntries` |
| MusicMetadata.GetAllFrame | src/app/api/music/metadata/route.ts:136-139 | one response record per listed file, the same record stored for it, and the records of unlisted files unchanged |
| MusicMetadata.GetOrUpdateLocal | src/app/api/music/metadata/route.ts:48-125 | `getOrUpdateMetadata(f)` depends only on the stored record of f |
| MusicMetadata.GetAllEntries | src/app/api/music/metadata/route.ts:130-139 | with distinct names, each response record is what `getOrUpdateMetadata` gives its file on the metadata file as it was before the `GET` |
| MusicMetadata.AudioFilesDistinct | src/app/api/music/metadata/route.ts:130-134 | filtering a listing without repeats leaves none |
| MusicMetadata.MetadataStore.constructor | src/app/api/music/metadata/route.ts:50 | no records yet |
| MusicMetadata.MetadataStore.GetOrUpdateMetadata | src/app/api/music/metadata/route.ts:48-125 | the method updates the stored records exactly as `GetOrUpdate` says and returns its record |
| MusicMetadata.MetadataStore.Get | src/app/api/music/metadata/route.ts:128-146 | a failed listing answers `{ error: '获取元数据失败' }` and changes nothing; otherwise the records and the metadata file are those of `GetAll` over the audio files, one record per audio file, and with distinct names each record is what `getOrUpdateMetadata` gives that file on the metadata file as it was |
| MusicPlayer.SongList | src/components/MusicPlayer.tsx:70-76 | one song per entry, in entry order, each the `SongOf` its key and value |
| MusicPlayer.SongOf | src/components/MusicPlayer.tsx:70-76 | url `/music/` + key; a record's id, name, artist and cover are copied, and a non-record value gives all four `undefined` |
| MusicPlayer.BodyEntries | src/components/MusicPlayer.tsx:67-70 | `Object.entries` of the route's body: the single entry `("error", message)` for the error body, and one entry per stored file, in storing order, for a records body |
| MusicPlayer.ErrorBodyPlaylist | src/app/api/music/metadata/route.ts:144 | the error body becomes a one-song playlist served from `/music/error` with no id, name, artist or cover |
| MusicPlayer.RecordsPlaylist | src/components/MusicPlayer.tsx:70-76 | a records body gives, at each position, the song of that file with its record's id, name, artist and cover |
| MusicPlayer.FindIndex | src/components/MusicPlayer.tsx:107 | the first position whose id is the current song's, an absent id matching an absent one, or -1 when there is none |
| MusicPlayer.NextSong | src/components/MusicPlayer.tsx:106-110 | `undefined` exactly for an empty playlist, else a song of the playlist |
| MusicPlayer.FindIndexDistinct | src/components/MusicPlayer.tsx:107 | with distinct ids, the song at i is found at i |
| MusicPlayer.NextSongInOrder | src/components/MusicPlayer.tsx:107-109 | with distinct ids, after the song at i comes the song at (i + 1) mod n; the last wraps to the first |
| MusicPlayer.NextSongUnknown | src/components/MusicPlayer.tsx:107-108 | when the current id is not found, the first song is next |
| MusicPlayer.Player.constructor | src/components/MusicPlayer.tsx:32-35 | no songs, no current song, no interaction |
| MusicPlayer.Player.HandleInteraction | src/components/MusicPlayer.tsx:40-46 | `hasInteracted` becomes true, and no handler sets it back |
| MusicPlayer.Player.LoadSongs | src/components/MusicPlayer.tsx:62-89 | a thrown request or JSON parse changes nothing; otherwise the list is the mapped entries, whatever the body was, and the first song becomes current exactly when there is one |
| MusicPlayer.Player.HandleSongEnd | src/components/MusicPlayer.tsx:106-110 | the current song becomes `NextSong` of the playlist and the old current song |
| MusicPlayer.Player.ShouldAutoplay | src/components/MusicPlayer.tsx:93 | playback is attempted only with a current song after an interaction |
| TimelineItem.SmallTiles | src/components/timeline/TimelineItem.tsx:101-152 | the sliced tiles keep their images and open the lightbox at their own position; the badge is on position 3 exactly when there are more than four images, and counts n - 4 |
| TimelineItem.LayoutTiles | src/components/timeline/TimelineItem.tsx:47-158 | the grid shows the first min(n, 4) images in order, each opening the lightbox at its own index; the "+k" badge, k = n - 4, is only on the fourth tile and only when n > 4 |
| TimelineItem.LayoutKinds | src/components/timeline/TimelineItem.tsx:48-139 | none for 0 images, one tile for 1, two for 2, a large one with `slice(1, 3)` for 3 and with `slice(1, 4)` for more |
| TimelineItem.ImageLayout | src/components/timeline/TimelineItem.tsx:47-159 | there is no layout exactly when there are no images; the tiles are stated by `LayoutTiles` and `LayoutKinds` |
| TimelineItem.Lightbox.constructor | src/components/timeline/TimelineItem.tsx:16-17 | closed, at index 0 |
| TimelineItem.Lightbox.OpenLightbox | src/components/timeline/TimelineItem.tsx:20-23 | the lightbox opens at the given image index |
| TimelineItem.Lightbox.CloseLightbox | src/components/timeline/TimelineItem.tsx:26-28 | the lightbox closes and the index stays |
| TimelineItem.Lightbox.NextImage | src/components/timeline/TimelineItem.tsx:31-36 | with images the index becomes (i + 1) mod n and stays in range; without images nothing changes |
| TimelineItem.Lightbox.PrevImage | src/components/timeline/TimelineItem.tsx:39-44 | with images the index becomes (i - 1 + n) mod n and stays in range; without images nothing changes |
| TimelineItem.Lightbox.SelectImage | src/components/timeline/TimelineItem.tsx:252-255 | an indicator dot selects its own image |
| TimelineItem.Lightbox.Shown | src/components/timeline/TimelineItem.tsx:198-235 | an image is shown exactly when the lightbox is open and there are images, and it is the current one |
| PasswordModal.ActionTextsDistinct | src/components/timeline/PasswordModal.tsx:37-48 | add, edit and delete get three different captions (添加, 编辑, 删除), none of them the fallback 操作 |
| PasswordModal.ActionText | src/components/timeline/PasswordModal.tsx:37-48 | the caption of each action; stated by `ActionTextsDistinct` |
| PasswordModal.Modal.constructor | src/components/timeline/PasswordModal.tsx:15 | the password field starts empty |
| PasswordModal.Modal.Mount | src/components/timeline/PasswordModal.tsx:19-28 | with a valid token `onVerify('')` is called, and nothing otherwise; the check may remove the token |
| PasswordModal.Modal.TypePassword | src/components/timeline/PasswordModal.tsx:15 | the field holds the typed text |
| PasswordModal.Modal.HandleSubmit | src/components/timeline/PasswordModal.tsx:31-34 | the typed password goes to `onVerify` unchanged |
| Timeline.WithId | src/components/timeline/Timeline.tsx:106-109 | the event carries the given id and the submitted fields |
| Timeline.ReplaceById | src/components/timeline/Timeline.tsx:120-122 | the length is kept, and exactly the events with the updated id are replaced, in place |
| Timeline.ReplaceIdempotent | src/components/timeline/Timeline.tsx:120-122 | updating twice with the same event is updating once |
| Timeline.ReplaceAbsentId | src/components/timeline/Timeline.tsx:120-122 | an update whose id matches no event changes nothing |
| Timeline.RemoveById | src/components/timeline/Timeline.tsx:152 | the filter never lengthens the list |
| Timeline.RemoveByIdMembers | src/components/timeline/Timeline.tsx:152 | exactly the events with the deleted id are gone |
| Timeline.RemoveByIdAppend | src/components/timeline/Timeline.tsx:152 | the filter works piecewise, so the kept events keep their order |
| Timeline.RemoveAbsentId | src/components/timeline/Timeline.tsx:152 | nothing is removed when no event has the id |
| Timeline.Uploads | src/components/timeline/Timeline.tsx:138-139 | no more requests than images |
| Timeline.UploadsMembers | src/components/timeline/Timeline.tsx:138-147 | requests go to exactly the images under `/uploads/` |
| Timeline.SendDeleteRequests | src/components/timeline/Timeline.tsx:136-149 | the loop reports a throw exactly when some uploaded image's request throws; without one, every uploaded image was requested in order; with one, it stops at the first request that throws |
| Timeline.VerifyOutcome | src/components/timeline/Timeline.tsx:90-102 | a password other than `241214` is rejected; the right one opens the delete confirmation exactly for a delete with an event, and the form otherwise |
| Timeline.BypassRejected | src/components/timeline/Timeline.tsx:91-100 | the dialog's `onVerify('')` after a valid token is rejected |
| Timeline.StatusAfterSave | src/components/timeline/Timeline.tsx:44-63 | `success` exactly when the save returned true; `error` when it returned false or threw |
| Timeline.AddedAtEnd | src/components/timeline/Timeline.tsx:105-111 | an added event is last, its id is the time, and the events before it are the old ones |
| Timeline.DistinctInstantsDistinctIds | src/components/timeline/Timeline.tsx:105-109 | events added at different instants get different ids |
| Timeline.TimelinePage.constructor | src/components/timeline/Timeline.tsx:16-24 | no events, everything closed, action `add`, status `idle` |
| Timeline.TimelinePage.LoadEvents | src/components/timeline/Timeline.tsx:27-41 | the loaded list replaces the events; a failed load keeps them; no other field changes |
| Timeline.TimelinePage.SaveEvents | src/components/timeline/Timeline.tsx:44-63 | the status after the save is `StatusAfterSave` of its outcome; no other field changes |
| Timeline.TimelinePage.ResetSaveStatus | src/components/timeline/Timeline.tsx:51-60 | the timer puts the status back to `idle`; no other field changes |
| Timeline.TimelinePage.HandleAddClick | src/components/timeline/Timeline.tsx:66-71 | action `add`, both selections cleared, the prompt open; no other field changes |
| Timeline.TimelinePage.HandleEditClick | src/components/timeline/Timeline.tsx:74-79 | action `edit`, the event being edited selected and the deleted one cleared, the prompt open; no other field changes |
| Timeline.TimelinePage.HandleDeleteClick | src/components/timeline/Timeline.tsx:82-87 | action `delete`, the event to delete selected and the edited one cleared, the prompt open; no other field changes |
| Timeline.TimelinePage.CancelPassword | src/components/timeline/Timeline.tsx:239 | the prompt closes and no other field changes |
| Timeline.TimelinePage.CancelDelete | src/components/timeline/Timeline.tsx:265 | the confirmation closes, the event stays selected; no other field changes |
| Timeline.TimelinePage.CancelForm | src/components/timeline/Timeline.tsx:302 | the form closes; no other field changes |
| Timeline.TimelinePage.HandlePasswordVerify | src/components/timeline/Timeline.tsx:90-102 | a wrong password changes no state; the right one closes the prompt and opens the confirmation or the form as `VerifyOutcome` says |
| Timeline.TimelinePage.AddEvent | src/components/timeline/Timeline.tsx:105-116 | the old events plus the new one, with id `Date.now().toString()`, at the end; the form closed; the status that of the save; no other field changes |
| Timeline.TimelinePage.UpdateEvent | src/components/timeline/Timeline.tsx:119-129 | the events with the updated id are replaced; form closed, no edited event; the status that of the save; no other field changes |
| Timeline.TimelinePage.DeleteEvent | src/components/timeline/Timeline.tsx:132-163 | with no event selected, or with an image request that throws, no field changes; otherwise the uploaded images were requested in order, the events with that id are removed, the confirmation is closed, the selection cleared and the status is that of the save; the prompt, the action, the form and the edited event never change |
| Timeline.TimelinePage.HandleFormSubmit | src/components/timeline/Timeline.tsx:166-172 | `add` appends the event with id `now`, closes the form and sets the save status; `edit` with an edited event replaces it keeping its id, closes the form, clears the edited event and sets the save status; anything else changes nothing; the prompt, the action, the deleted event and the confirmation never change |
| TimelineForm.Validation | src/components/timeline/TimelineForm.tsx:57-75 | the date has no error exactly when it matches `^\d{4}-\d{2}-\d{2}$`, with "请选择日期" when empty and "日期格式不正确" when malformed; title and content have no error exactly when non-empty |
| TimelineForm.ValidIff | src/components/timeline/TimelineForm.tsx:57-78 | the form is valid exactly when the date matches the pattern and title and content are non-empty; month and day ranges are not checked |
| TimelineForm.ImageUrlShape | src/components/timeline/TimelineForm.tsx:157 | an accepted URL has a dot four or five characters from its end, so the empty URL is never accepted |
| TimelineForm.ImageUrlIgnoresCase | src/components/timeline/TimelineForm.tsx:157 | the image test ignores ASCII case |
| TimelineForm.RemoveAt | src/components/timeline/TimelineForm.tsx:190 | the filtered list is one shorter, with the elements before the index in place and those after it moved down by one |
| TimelineForm.RemoveAtMultiset | src/components/timeline/TimelineForm.tsx:190 | exactly the element at the index is taken out |
| TimelineForm.NewUrls | src/components/timeline/TimelineForm.tsx:136 | `data.urls` when present (even empty), else `[data.url]` |
| TimelineForm.Prefilled | src/components/timeline/TimelineForm.tsx:108-111 | the EXIF date replaces the date only when there is one and the date is empty |
| TimelineForm.PrefillKeepsDateValid | src/components/timeline/TimelineForm.tsx:108-111 | a prefilled date is still empty or of the `YYYY-MM-DD` shape |
| TimelineForm.Form.constructor | src/components/timeline/TimelineForm.tsx:32-36 | the fields come from `initialData` when given, and are empty otherwise |
| TimelineForm.Form.OnDateChange | src/components/timeline/TimelineForm.tsx:230-237 | an input is taken only when empty or matching the pattern; otherwise the date stays; no other field changes |
| TimelineForm.Form.TypeTitle | src/components/timeline/TimelineForm.tsx:33 | the title holds the typed text; no other field changes |
| TimelineForm.Form.TypeContent | src/components/timeline/TimelineForm.tsx:34 | the content holds the typed text; no other field changes |
| TimelineForm.Form.TypeImageUrl | src/components/timeline/TimelineForm.tsx:36 | the URL field holds the typed text; no other field changes |
| TimelineForm.Form.HandleSubmit | src/components/timeline/TimelineForm.tsx:81-92 | the errors are shown, and `onSubmit` gets the four fields exactly when the form is valid; no other field changes |
| TimelineForm.Form.HandleAddImageUrl | src/components/timeline/TimelineForm.tsx:153-166 | an empty URL or one that fails the image test leaves the images and the field as they were (the latter alerts); an image URL is appended at the end and the field cleared; no other field changes |
| TimelineForm.Form.HandleRemoveImage | src/components/timeline/TimelineForm.tsx:169-195 | the image at the index is removed unless its delete request (sent only for `/uploads/` images) throws; no other field changes |
| TimelineForm.Form.HandleFileChange | src/components/timeline/TimelineForm.tsx:95-150 | no files do nothing; otherwise the first file's EXIF date fills an empty date, even when the upload then fails, and a successful upload appends its URLs after the existing images; no other field changes |
| Envelope.Letter.constructor | src/components/ui/Envelope.tsx:13-20 | closed, empty, not editing, no prompt, empty password |
| Envelope.Letter.Open | src/components/ui/Envelope.tsx:132 | the letter opens; no other field changes |
| Envelope.Letter.Close | src/components/ui/Envelope.tsx:173 | the letter closes; no other field changes |
| Envelope.Letter.ShouldFetch | src/components/ui/Envelope.tsx:41 | the letter is fetched only while open and empty; used by `FetchLetter` |
| Envelope.Letter.FetchLetter | src/components/ui/Envelope.tsx:25-44 | a fetch happens exactly when the letter is open and has no content; an ok response's content is taken; no other field changes |
| Envelope.Letter.ClickOutsideLetter | src/components/ui/Envelope.tsx:47-63 | a click outside closes the letter only when it is not edited and the prompt is closed; no other field changes |
| Envelope.Letter.ClosePasswordModal | src/components/ui/Envelope.tsx:66-80 | a click outside the prompt, or its cancel button, closes it; no other field changes |
| Envelope.Letter.HandleEdit | src/components/ui/Envelope.tsx:83-85 | editing always opens the prompt first; no other field changes |
| Envelope.Letter.TypePassword | src/components/ui/Envelope.tsx:272 | the field holds the typed text; no other field changes |
| Envelope.Letter.TypeEditContent | src/components/ui/Envelope.tsx:209 | the editor holds the typed text; no other field changes |
| Envelope.Letter.HandleVerifyPassword | src/components/ui/Envelope.tsx:88-97 | `241214` closes the prompt, copies the letter into the editor, starts editing and clears the field; any other password changes nothing; no other field changes |
| Envelope.Letter.HandleSave | src/components/ui/Envelope.tsx:100-122 | an ok save adopts the edited text and ends editing; a failed one changes neither; no other field changes |
| Envelope.Letter.HandleCancel | src/components/ui/Envelope.tsx:125-127 | editing ends and the letter keeps its text; no other field changes |
| Gift.GiftPanel.constructor | src/components/ui/Gift.tsx:20-27 | closed, empty, not editing, no prompt, empty password |
| Gift.GiftPanel.ModalChange | src/components/ui/Gift.tsx:32-36 | the parent is told the panel is up exactly when it or the prompt is open |
| Gift.GiftPanel.DisplayedContent | src/components/ui/Gift.tsx:245-257 | the content, or the built-in text when it is empty, so the panel is never blank |
| Gift.GiftPanel.Open | src/components/ui/Gift.tsx:152 | the panel opens and the parent is told so; no other field changes |
| Gift.GiftPanel.Close | src/components/ui/Gift.tsx:194 | the panel closes; no other field changes |
| Gift.GiftPanel.ShouldFetch | src/components/ui/Gift.tsx:55 | the content is fetched only while the panel is open and empty; used by `FetchGift` |
| Gift.GiftPanel.FetchGift | src/components/ui/Gift.tsx:39-58 | a fetch happens exactly when the panel is open and has no content; an ok response's content is taken; no other field changes |
| Gift.GiftPanel.ClickOutsideGift | src/components/ui/Gift.tsx:61-77 | a click outside closes the panel only when it is not edited and the prompt is closed; no other field changes |
| Gift.GiftPanel.ClosePasswordModal | src/components/ui/Gift.tsx:80-94 | a click outside the prompt closes it; no other field changes |
| Gift.GiftPanel.HandleEdit | src/components/ui/Gift.tsx:97-104 | with a valid token editing starts at once on the current content and no prompt opens; otherwise the prompt opens; no other field changes |
| Gift.GiftPanel.TypePassword | src/components/ui/Gift.tsx:295 | the field holds the typed text; no other field changes |
| Gift.GiftPanel.TypeEditContent | src/components/ui/Gift.tsx:230 | the editor holds the typed text; no other field changes |
| Gift.GiftPanel.HandleVerifyPassword | src/components/ui/Gift.tsx:107-117 | `241214` stores a fresh token, closes the prompt, starts editing on the current content and clears the field; any other password changes nothing, the token included; no other field changes |
| Gift.GiftPanel.HandleSave | src/components/ui/Gift.tsx:120-142 | an ok save adopts the edited text and ends editing; a failed one changes neither; no other field changes |
| Gift.GiftPanel.HandleCancel | src/components/ui/Gift.tsx:145-147 | editing ends and the content keeps its text; no other field changes |

## Left out

- The `FileReader`, `Blob.slice` and Promise plumbing around the EXIF scan, and the reader's `onerror`, which is one more `null`. The scan is a function of the bytes read.
- The `exif-js` import and its type declarations: the library is never called.
- All HTTP and file I/O: `fetch`, `axios`, `fs`, and the Next.js routes that store a JSON or Markdown file unchanged (`api/gift`, `api/letter`, `api/timeline`, `api/backgrounds`, `api/upload`, `api/upload/delete`, `api/music`). Their outcomes are parameters.
- `downloadCover` and the song-detail lookup of the metadata route: their combined outcome is the `refresh` and `lookup` parameters. A failed write of `metadata.json`, and a `metadata.json` that does not parse, are not modelled.
- `searchSong` in `src/lib/musicApi.ts`: no component calls it.
- The clocks and timers: `Date.now`, `new Date`, `setInterval`, `setTimeout`. An instant is a parameter. The 3-second status reset is the method `ResetSaveStatus`.
- React rendering, JSX, framer-motion, DOM listeners, focus and scrolling, body-style toggling, `alert`, `console`, and the audio element's `play()`.
- `Math.random` in the petals and in upload file names.
- `src/components/ui/BackgroundUploader.tsx`, `src/app/layout.tsx` and `src/components/ui/Footer.tsx`: no decision logic beyond what is modelled elsewhere.
- The `isLoading`, `isUploading` and `uploadProgress` flags: they only drive spinners and progress bars.
- The transient `saving` status and `isSaving` flag. They are set and cleared within one modelled call.
- JavaScript's Unicode case mapping: `toLowerCase` and the regular expression `i` flag are modelled on ASCII letters only. This is exact for the four audio extensions and five image extensions, which are ASCII.
- `path.extname` for names containing a path separator: directory entries have none.
- The default branch of `getActionText`: the action type admits only the three actions.
- An event without an `images` field behaves like one with `[]`. An upload answer without `urls` or `url` would append `undefined`; the model's `url` field is always a string.
- The order of `Object.entries` on the metadata response is a parameter of `BodyEntries` (the order in which the route stored the files), not derived from JavaScript's property-order rules.
- Concurrency: overlapping asynchronous handlers, and a response arriving after unmount.
- MusicPlayer.Player.HandleInteraction: the removal of the three listeners is not modelled. It only ensures the latch stays set thereafter.
