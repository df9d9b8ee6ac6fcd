/** Song metadata for the local music files (src/lib/musicApi.ts): the file-name parser shared
    with the metadata route, the fallback record and the collection of the playlist. The
    search and detail requests of the music API are parameters: a total function from the
    request's text to what the response held. */
module MusicApi {
  import opened Wrappers
  import opened JsString

  const ApiBaseUrl: string := "http://168.138.247.174:3168"
  const LocalPrefix: string := "local_"
  const MusicPath: string := "/music/"
  /** The artist shown when a file name names none. */
  const UnknownArtist: string := "未知艺术家"

  /** `/\.[^/.]+$/` matches at `p`: a dot followed by at least one character, none of them a
      slash or another dot, up to the end. */
  predicate IsExtensionAt(name: string, p: int) {
    0 <= p < |name| - 1 && name[p] == '.' &&
    forall j :: p < j < |name| ==> name[j] != '/' && name[j] != '.'
  }

  /** `filename.replace(/\.[^/.]+$/, '')`. */
  function StripExtension(name: string): (r: string)
    ensures r <= name
    ensures r != name ==> name[|r|] == '.'
  {
    var p := LastIndexOf(name, '.');
    if 0 <= p < |name| - 1 && (forall j :: p < j < |name| ==> name[j] != '/') then name[..p]
    else name
  }

  /** The replacement removes the text the pattern matches, and only that; a name the
      pattern does not match is left whole. */
  lemma StripExtensionMeans(name: string)
    ensures forall p :: IsExtensionAt(name, p) ==> StripExtension(name) == name[..p]
    ensures (forall p :: !IsExtensionAt(name, p)) ==> StripExtension(name) == name
  {
    var p := LastIndexOf(name, '.');
    if 0 <= p < |name| - 1 && (forall j :: p < j < |name| ==> name[j] != '/') {
      assert IsExtensionAt(name, p);
    }
  }

  /** The title and optional artist read off a file name. */
  datatype SongInfo = SongInfo(title: string, artist: Option<string>)

  /** `parts.map(part => part.trim())`. */
  function TrimAll(parts: seq<string>): (r: seq<string>)
    ensures |r| == |parts|
  {
    if parts == [] then [] else [Trim(parts[0])] + TrimAll(parts[1..])
  }

  lemma {:induction false} TrimAllAt(parts: seq<string>, k: nat)
    requires k < |parts|
    ensures TrimAll(parts)[k] == Trim(parts[k])
  {
    if k > 0 {
      TrimAllAt(parts[1..], k - 1);
    }
  }

  /** `extractSongInfo`: "artist - title.ext" or "title.ext". */
  function ExtractSongInfo(filename: string): (info: SongInfo)
    ensures info.artist.Some? <==> '-' in StripExtension(filename)
  {
    SplitCount(StripExtension(filename), '-');
    var parts := TrimAll(Split(StripExtension(filename), '-'));
    if |parts| > 1 then SongInfo(parts[1], Some(parts[0])) else SongInfo(parts[0], None)
  }

  /** With no dash in the stem, the whole trimmed stem is the title and there is no artist. */
  lemma NoDashTitleOnly(filename: string)
    requires '-' !in StripExtension(filename)
    ensures ExtractSongInfo(filename) == SongInfo(Trim(StripExtension(filename)), None)
  {
    SplitCount(StripExtension(filename), '-');
    TrimAllAt(Split(StripExtension(filename), '-'), 0);
  }

  /** With a dash at `i` (the first one) and the next dash at `j` (or the end), the artist is
      the trimmed text before `i` and the title the trimmed text between `i` and `j`; whatever
      follows `j` is dropped. */
  lemma {:induction false} ArtistAndTitle(filename: string, i: nat, j: nat)
    requires i < j <= |StripExtension(filename)|
    requires StripExtension(filename)[i] == '-'
    requires forall k :: 0 <= k < i ==> StripExtension(filename)[k] != '-'
    requires forall k :: i < k < j ==> StripExtension(filename)[k] != '-'
    requires j == |StripExtension(filename)| || StripExtension(filename)[j] == '-'
    ensures ExtractSongInfo(filename).artist == Some(Trim(StripExtension(filename)[..i]))
    ensures ExtractSongInfo(filename).title == Trim(StripExtension(filename)[i + 1..j])
  {
    var stem := StripExtension(filename);
    SplitFirst(stem, '-', i);
    var rest := stem[i + 1..];
    SplitFirst(rest, '-', j - i - 1);
    assert rest[..j - i - 1] == stem[i + 1..j];
    var pieces := Split(stem, '-');
    assert pieces[1..] == Split(rest, '-');
    assert |pieces| > 1;
    assert pieces[1] == Split(rest, '-')[0];
    TrimAllAt(pieces, 0);
    TrimAllAt(pieces, 1);
  }

  /** JavaScript truthiness of an optional string: present and non-empty. */
  predicate Truthy(s: Option<string>) {
    s.Some? && s.value != ""
  }

  /** `` artist ? `${title} ${artist}` : title ``. */
  function SearchQuery(info: SongInfo): (q: string)
    ensures Truthy(info.artist) ==> q == info.title + " " + info.artist.value
    ensures !Truthy(info.artist) ==> q == info.title
  {
    if Truthy(info.artist) then info.title + " " + info.artist.value else info.title
  }

  /** `artist || '未知艺术家'`. */
  function ArtistOrDefault(info: SongInfo): (a: string)
    ensures a != ""
    ensures Truthy(info.artist) ==> a == info.artist.value
  {
    if Truthy(info.artist) then info.artist.value else UnknownArtist
  }

  datatype Song = Song(id: string, name: string, artist: string, url: string, cover: Option<string>)

  /** What a search request yields: it threw (network error, or a missing `result` or
      `artists` field), it found no song, or the first song's name, first artist and album
      cover. */
  datatype SearchResult = SearchFailed | NoSongs | TopSong(name: string, artist: string, cover: Option<string>)

  /** `searchSongMetadata(filename)`, with the search request's response as `search`. */
  function SearchSongMetadata(filename: string, search: string -> SearchResult): (r: Option<Song>)
    ensures r.None? <==> search(SearchQuery(ExtractSongInfo(filename))).SearchFailed?
    ensures r.Some? ==> r.value.id == LocalPrefix + filename && r.value.url == MusicPath + filename
    ensures var found := search(SearchQuery(ExtractSongInfo(filename)));
      found.TopSong? ==> r.Some? && r.value.name == found.name && r.value.artist == found.artist &&
                         r.value.cover == found.cover
  {
    var info := ExtractSongInfo(filename);
    match search(SearchQuery(info))
    case SearchFailed => None
    case NoSongs => Some(Song(LocalPrefix + filename, info.title, ArtistOrDefault(info), MusicPath + filename, None))
    case TopSong(name, artist, cover) => Some(Song(LocalPrefix + filename, name, artist, MusicPath + filename, cover))
  }

  /** Without a match the record falls back to the file name: its title, the artist or the
      default artist, and no cover. */
  lemma FallbackRecord(filename: string, search: string -> SearchResult)
    requires search(SearchQuery(ExtractSongInfo(filename))).NoSongs?
    ensures SearchSongMetadata(filename, search).Some?
    ensures SearchSongMetadata(filename, search).value.name == ExtractSongInfo(filename).title
    ensures SearchSongMetadata(filename, search).value.artist == ArtistOrDefault(ExtractSongInfo(filename))
    ensures SearchSongMetadata(filename, search).value.cover.None?
  {
  }

  /** What a song-detail request yields: it threw, or the song's id, name, first artist and
      album cover. */
  datatype DetailResult = DetailFailed | DetailSong(id: string, name: string, artist: string, cover: Option<string>)

  /** `getSongDetail(id)`. A `local_` id is stripped of its prefix (the first occurrence that
      `replace` removes is the leading one) and looked up as a file name. */
  function GetSongDetail(id: string, search: string -> SearchResult, detail: string -> DetailResult): (r: Option<Song>)
    ensures !StartsWith(id, LocalPrefix) ==> (r.Some? <==> detail(id).DetailSong?)
    ensures !StartsWith(id, LocalPrefix) && r.Some? ==>
      r.value.id == detail(id).id && r.value.name == detail(id).name && r.value.artist == detail(id).artist &&
      r.value.cover == detail(id).cover && r.value.url == ApiBaseUrl + "/song/url?id=" + r.value.id
  {
    if StartsWith(id, LocalPrefix) then SearchSongMetadata(id[|LocalPrefix|..], search)
    else
      match detail(id)
      case DetailFailed => None
      case DetailSong(songId, name, artist, cover) =>
        Some(Song(songId, name, artist, ApiBaseUrl + "/song/url?id=" + songId, cover))
  }

  /** `getSongDetail("local_" + f)` is the metadata lookup of the file `f`. */
  lemma LocalDetailLooksUpFile(f: string, search: string -> SearchResult, detail: string -> DetailResult)
    ensures GetSongDetail(LocalPrefix + f, search, detail) == SearchSongMetadata(f, search)
  {
    var id := LocalPrefix + f;
    assert id[..|LocalPrefix|] == LocalPrefix;
    assert id[|LocalPrefix|..] == f;
  }

  /** The ids `searchSongMetadata` hands out lead back to the same file: asking for the
      detail of such an id repeats the lookup of that file. */
  lemma LocalIdRoundTrip(filename: string, search: string -> SearchResult, detail: string -> DetailResult)
    requires SearchSongMetadata(filename, search).Some?
    ensures GetSongDetail(SearchSongMetadata(filename, search).value.id, search, detail) ==
      SearchSongMetadata(filename, search)
  {
    LocalDetailLooksUpFile(filename, search, detail);
  }

  /** The record `searchSongMetadata` yields for each listed file, in file order. */
  function Lookups(files: seq<string>, search: string -> SearchResult): (r: seq<Option<Song>>)
    ensures |r| == |files|
  {
    if files == [] then []
    else Lookups(files[..|files| - 1], search) + [SearchSongMetadata(files[|files| - 1], search)]
  }

  lemma {:induction false} LookupsAt(files: seq<string>, search: string -> SearchResult, k: nat)
    requires k < |files|
    ensures Lookups(files, search)[k] == SearchSongMetadata(files[k], search)
    decreases |files|
  {
    if k < |files| - 1 {
      LookupsAt(files[..|files| - 1], search, k);
    }
  }

  /** The records that are not null, in order (the `if (metadata) songs.push(metadata)`). */
  function Present(results: seq<Option<Song>>): (songs: seq<Song>)
    ensures |songs| <= |results|
  {
    if results == [] then []
    else
      var earlier := Present(results[..|results| - 1]);
      match results[|results| - 1]
      case None => earlier
      case Some(song) => earlier + [song]
  }

  /** The songs of `getLocalSongs` for the listed files. */
  function CollectSongs(files: seq<string>, search: string -> SearchResult): seq<Song> {
    Present(Lookups(files, search))
  }

  /** Keeping the present records distributes over a split of the list, so the songs of
      earlier files come before those of later ones. */
  lemma {:induction false} PresentAppend(a: seq<Option<Song>>, b: seq<Option<Song>>)
    ensures Present(a + b) == Present(a) + Present(b)
    decreases |b|
  {
    if b != [] {
      var b' := b[..|b| - 1];
      assert (a + b)[..|a + b| - 1] == a + b';
      assert (a + b)[|a + b| - 1] == b[|b| - 1];
      PresentAppend(a, b');
    } else {
      assert a + b == a;
    }
  }

  /** A record is kept exactly when it is present: with every record present, each one is
      kept at its own position. */
  lemma {:induction false} PresentAllSome(results: seq<Option<Song>>)
    requires forall k :: 0 <= k < |results| ==> results[k].Some?
    ensures |Present(results)| == |results|
    ensures forall k :: 0 <= k < |results| ==> Present(results)[k] == results[k].value
    decreases |results|
  {
    if results != [] {
      var init := results[..|results| - 1];
      assert forall k :: 0 <= k < |init| ==> init[k] == results[k];
      PresentAllSome(init);
    }
  }

  /** The songs of earlier files come before those of later ones. */
  lemma CollectSongsAppend(a: seq<string>, b: seq<string>, search: string -> SearchResult)
    ensures CollectSongs(a + b, search) == CollectSongs(a, search) + CollectSongs(b, search)
  {
    LookupsAppend(a, b, search);
    PresentAppend(Lookups(a, search), Lookups(b, search));
  }

  lemma {:induction false} LookupsAppend(a: seq<string>, b: seq<string>, search: string -> SearchResult)
    ensures Lookups(a + b, search) == Lookups(a, search) + Lookups(b, search)
    decreases |b|
  {
    if b != [] {
      var b' := b[..|b| - 1];
      assert (a + b)[..|a + b| - 1] == a + b';
      assert (a + b)[|a + b| - 1] == b[|b| - 1];
      LookupsAppend(a, b', search);
    } else {
      assert a + b == a;
    }
  }

  /** When no search fails, every file gives exactly one song, at its own position. */
  lemma CollectSongsAllFound(files: seq<string>, search: string -> SearchResult)
    requires forall k :: 0 <= k < |files| ==> SearchSongMetadata(files[k], search).Some?
    ensures |CollectSongs(files, search)| == |files|
    ensures forall k :: 0 <= k < |files| ==>
      CollectSongs(files, search)[k] == SearchSongMetadata(files[k], search).value
  {
    var results := Lookups(files, search);
    forall k | 0 <= k < |files| ensures results[k] == SearchSongMetadata(files[k], search) {
      LookupsAt(files, search, k);
    }
    PresentAllSome(results);
  }

  lemma CollectSongsStep(files: seq<string>, i: nat, search: string -> SearchResult)
    requires i < |files|
    ensures CollectSongs(files[..i + 1], search) == CollectSongs(files[..i], search) +
      (if SearchSongMetadata(files[i], search).Some? then [SearchSongMetadata(files[i], search).value] else [])
  {
    assert files[..i + 1][..i] == files[..i];
  }

  /** The `files` field of the `/api/music` response: the request or its JSON threw, the
      field is missing or not an array, or the listed file names. */
  datatype FileList = ListFailed | NotAList | Files(names: seq<string>)

  /** `getLocalSongs`, with the file list response and the search responses as parameters. */
  method GetLocalSongs(list: FileList, search: string -> SearchResult) returns (songs: seq<Song>)
    ensures !list.Files? ==> songs == []
    ensures list.Files? ==> songs == CollectSongs(list.names, search)
  {
    if !list.Files? {
      return [];
    }
    var files := list.names;
    songs := [];
    for i := 0 to |files|
      invariant songs == CollectSongs(files[..i], search)
    {
      CollectSongsStep(files, i, search);
      var metadata := SearchSongMetadata(files[i], search);
      if metadata.Some? {
        songs := songs + [metadata.value];
      }
    }
    assert files[..|files|] == files;
  }
}
