/** The music metadata route (src/app/api/music/metadata/route.ts): the audio-file filter of
    `GET`, and `getOrUpdateMetadata`'s rule for reusing, refreshing or rebuilding the cached
    record of a file. The metadata file is a field of `MetadataStore`; what the search, detail
    and download requests return are parameters. The route's `extractSongInfo` is the same
    text as the client's and is `MusicApi.ExtractSongInfo` here. */
module MusicMetadata {
  import opened Wrappers
  import opened JsString
  import opened MusicApi

  /** The extensions `GET` lists, compared after `toLowerCase()`. */
  const AudioExtensions: seq<string> := [".mp3", ".wav", ".ogg", ".m4a"]

  /** `path.extname(name)` for a directory entry (no `/`): from the last dot to the end,
      or "" when there is no dot, the only dot starts the name, or the name is "..". */
  function Extname(name: string): (ext: string)
    ensures ext != "" ==> |ext| < |name| && name[|name| - |ext|..] == ext && ext[0] == '.' && '.' !in ext[1..]
  {
    var p := LastIndexOf(name, '.');
    if p <= 0 || name == ".." then "" else name[p..]
  }

  /** The filter of `GET`. */
  predicate HasAudioExtension(name: string) {
    ToLower(Extname(name)) in AudioExtensions
  }

  lemma LowerDot(c: char)
    ensures LowerAscii(c) == '.' <==> c == '.'
  {
  }

  /** A file is listed exactly when it is longer than its extension and its last four
      characters are, ignoring ASCII case, one of the four audio extensions. */
  lemma AudioFileIff(name: string)
    ensures HasAudioExtension(name) <==> |name| > 4 && ToLower(name[|name| - 4..]) in AudioExtensions
  {
    var p := LastIndexOf(name, '.');
    if |name| > 4 && ToLower(name[|name| - 4..]) in AudioExtensions {
      var tail := name[|name| - 4..];
      var low := ToLower(tail);
      assert low[0] == '.' && low[1] != '.' && low[2] != '.' && low[3] != '.';
      LowerDot(tail[0]);
      LowerDot(tail[1]);
      LowerDot(tail[2]);
      LowerDot(tail[3]);
      assert name[|name| - 4] == '.';
      assert p == |name| - 4;
    }
    if HasAudioExtension(name) {
      assert |ToLower(Extname(name))| == 4;
      assert p == |name| - 4;
    }
  }

  /** The files `GET` lists, in directory order. */
  function AudioFiles(files: seq<string>): (r: seq<string>)
    ensures |r| <= |files|
    ensures forall f :: f in r <==> f in files && HasAudioExtension(f)
  {
    if files == [] then []
    else
      var rest := AudioFiles(files[1..]);
      assert forall f :: f in files <==> f == files[0] || f in files[1..];
      if HasAudioExtension(files[0]) then [files[0]] + rest else rest
  }

  /** A cached record. `cover` and `neteaseSongId` are optional fields. */
  datatype Metadata = Metadata(id: string, name: string, artist: string, cover: Option<string>, neteaseSongId: Option<string>)

  /** `metadata[filename] && metadata[filename].neteaseSongId`: a cached record is reused
      without a new search exactly when it carries a song id. */
  predicate Reusable(songs: map<string, Metadata>, filename: string) {
    filename in songs && Truthy(songs[filename].neteaseSongId)
  }

  /** What the search-then-detail-then-download chain of a new lookup yields: a request threw
      or no song matched, or the first match's numeric id, name and first artist with the
      downloaded cover path ("" when there was no cover URL or the download failed). */
  datatype Lookup = LookupFailed | Found(songId: nat, name: string, artist: string, coverPath: string)

  /** The record built from the file name alone, with no cover and no song id. */
  function Fallback(filename: string): (m: Metadata)
    ensures m.id == LocalPrefix + filename && m.cover.None? && m.neteaseSongId.None?
    ensures m.name == ExtractSongInfo(filename).title
    ensures m.artist == ArtistOrDefault(ExtractSongInfo(filename))
  {
    var info := ExtractSongInfo(filename);
    Metadata(LocalPrefix + filename, info.title, ArtistOrDefault(info), None, None)
  }

  /** The record built from a found song; `song.id.toString()` becomes its song id. */
  function FromLookup(filename: string, songId: nat, name: string, artist: string, coverPath: string): (m: Metadata)
    ensures m.id == LocalPrefix + filename && Truthy(m.neteaseSongId)
  {
    Metadata(LocalPrefix + filename, name, artist, Some(coverPath), Some(NatToString(songId)))
  }

  /** The metadata file after a call, and the record the call returns. */
  datatype Update = Update(songs: map<string, Metadata>, entry: Metadata)

  /** `getOrUpdateMetadata(filename)` on the cached records `songs`. `refresh` gives the cover
      path downloaded for a song id ("" when the detail request threw, had no cover URL, or
      the download failed); `lookup` gives the outcome of a new search for a query. */
  function GetOrUpdate(songs: map<string, Metadata>, filename: string,
                       refresh: string -> string, lookup: string -> Lookup): (u: Update)
    ensures u.songs == songs[filename := u.entry]
    ensures Reusable(songs, filename) ==> u.entry.(cover := songs[filename].cover) == songs[filename]
    ensures Reusable(songs, filename) && Truthy(songs[filename].cover) ==> u.entry == songs[filename]
    ensures !Reusable(songs, filename) ==> u.entry.id == LocalPrefix + filename
    ensures !Reusable(songs, filename) ==>
      (Truthy(u.entry.neteaseSongId) <==> lookup(SearchQuery(ExtractSongInfo(filename))).Found?)
  {
    if Reusable(songs, filename) then
      var m := songs[filename];
      if !Truthy(m.cover) && refresh(m.neteaseSongId.value) != "" then
        var m' := m.(cover := Some(refresh(m.neteaseSongId.value)));
        Update(songs[filename := m'], m')
      else
        Update(songs, m)
    else
      match lookup(SearchQuery(ExtractSongInfo(filename)))
      case Found(songId, name, artist, coverPath) =>
        var m := FromLookup(filename, songId, name, artist, coverPath);
        Update(songs[filename := m], m)
      case LookupFailed =>
        Update(songs[filename := Fallback(filename)], Fallback(filename))
  }

  /** A record without a cover is given the downloaded one when the download succeeds, and
      is otherwise returned as it was. */
  lemma CoverRefreshed(songs: map<string, Metadata>, filename: string,
                       refresh: string -> string, lookup: string -> Lookup)
    requires Reusable(songs, filename) && !Truthy(songs[filename].cover)
    ensures var path := refresh(songs[filename].neteaseSongId.value);
      GetOrUpdate(songs, filename, refresh, lookup).entry.cover ==
        (if path != "" then Some(path) else songs[filename].cover)
  {
  }

  /** A fallback record carries no song id, so the next request searches again. */
  lemma FallbackNotReused(songs: map<string, Metadata>, filename: string,
                          refresh: string -> string, lookup: string -> Lookup)
    requires !Reusable(songs, filename)
    requires lookup(SearchQuery(ExtractSongInfo(filename))).LookupFailed?
    ensures GetOrUpdate(songs, filename, refresh, lookup).entry == Fallback(filename)
    ensures !Reusable(GetOrUpdate(songs, filename, refresh, lookup).songs, filename)
  {
  }

  /** A record built from a found song is reused by every later request: the next call
      returns it again, searching nothing, once it has a cover. */
  lemma FoundIsReused(songs: map<string, Metadata>, filename: string,
                      refresh: string -> string, lookup: string -> Lookup,
                      refresh': string -> string, lookup': string -> Lookup)
    requires !Reusable(songs, filename)
    requires lookup(SearchQuery(ExtractSongInfo(filename))).Found?
    requires lookup(SearchQuery(ExtractSongInfo(filename))).coverPath != ""
    ensures var u := GetOrUpdate(songs, filename, refresh, lookup);
      Reusable(u.songs, filename) && GetOrUpdate(u.songs, filename, refresh', lookup') == Update(u.songs, u.entry)
  {
    var u := GetOrUpdate(songs, filename, refresh, lookup);
    assert u.songs[filename] == u.entry;
    assert u.songs[filename := u.entry] == u.songs;
  }

  /** The message of `GET`'s error body. */
  const MetadataError: string := "获取元数据失败"

  /** The JSON body `GET` answers with: the records keyed by file name, or `{ error }`. */
  datatype Response = Records(records: map<string, Metadata>) | ErrorBody(error: string)

  /** The metadata file after a `GET`, and the records of its response. */
  datatype Listing = Listing(songs: map<string, Metadata>, response: map<string, Metadata>)

  /** `GET`'s loop over `files`: `getOrUpdateMetadata` for each file in turn, each call
      seeing the metadata file the previous ones left. */
  function GetAll(songs: map<string, Metadata>, files: seq<string>,
                  refresh: string -> string, lookup: string -> Lookup): (r: Listing)
    decreases |files|
  {
    if files == [] then Listing(songs, map[])
    else
      var before := GetAll(songs, files[..|files| - 1], refresh, lookup);
      var u := GetOrUpdate(before.songs, files[|files| - 1], refresh, lookup);
      Listing(u.songs, before.response[files[|files| - 1] := u.entry])
  }

  /** The response has one entry per listed file, the metadata file then holds the same
      record for it, and the records of the files not listed stay as they were. */
  lemma {:induction false} GetAllFrame(songs: map<string, Metadata>, files: seq<string>,
                                      refresh: string -> string, lookup: string -> Lookup)
    ensures var r := GetAll(songs, files, refresh, lookup);
      && r.response.Keys == (set f | f in files)
      && (forall f :: f in r.response ==> f in r.songs && r.songs[f] == r.response[f])
      && (forall f :: f !in files ==> (f in r.songs <==> f in songs) && (f in songs ==> r.songs[f] == songs[f]))
    decreases |files|
  {
    if files != [] {
      var prefix := files[..|files| - 1];
      GetAllFrame(songs, prefix, refresh, lookup);
      assert files == prefix + [files[|files| - 1]];
    }
  }

  /** `getOrUpdateMetadata(filename)` depends only on the record of `filename`. */
  lemma GetOrUpdateLocal(s: map<string, Metadata>, t: map<string, Metadata>, filename: string,
                         refresh: string -> string, lookup: string -> Lookup)
    requires filename in s <==> filename in t
    requires filename in s ==> s[filename] == t[filename]
    ensures GetOrUpdate(s, filename, refresh, lookup).entry == GetOrUpdate(t, filename, refresh, lookup).entry
  {
  }

  predicate Distinct(files: seq<string>) {
    forall i, j :: 0 <= i < j < |files| ==> files[i] != files[j]
  }

  /** With distinct file names (a directory listing), each file's response record is what
      `getOrUpdateMetadata` gives it on the metadata file as it was before the `GET`. */
  lemma {:induction false} GetAllEntries(songs: map<string, Metadata>, files: seq<string>,
                                        refresh: string -> string, lookup: string -> Lookup)
    requires Distinct(files)
    ensures var r := GetAll(songs, files, refresh, lookup);
      forall f :: f in files ==> f in r.response && r.response[f] == GetOrUpdate(songs, f, refresh, lookup).entry
    decreases |files|
  {
    if files != [] {
      var prefix, last := files[..|files| - 1], files[|files| - 1];
      assert files == prefix + [last];
      assert last !in prefix;
      GetAllEntries(songs, prefix, refresh, lookup);
      GetAllFrame(songs, prefix, refresh, lookup);
      GetOrUpdateLocal(GetAll(songs, prefix, refresh, lookup).songs, songs, last, refresh, lookup);
    }
  }

  /** The audio files of a listing without repeats have none either. */
  lemma {:induction false} AudioFilesDistinct(files: seq<string>)
    requires Distinct(files)
    ensures Distinct(AudioFiles(files))
  {
    if files != [] {
      AudioFilesDistinct(files[1..]);
      assert files[0] !in files[1..];
    }
  }

  /** The metadata file `metadata.json`, as the map under its `songs` key. */
  class MetadataStore {
    var songs: map<string, Metadata>

    /** No metadata file yet. */
    constructor()
      ensures songs == map[]
    {
      songs := map[];
    }

    /** `getOrUpdateMetadata(filename)`: reads the records, then reuses, refreshes or
        rebuilds the one for `filename`, writing the file back whenever it changes it. */
    method GetOrUpdateMetadata(filename: string, refresh: string -> string, lookup: string -> Lookup)
      returns (entry: Metadata)
      modifies this
      ensures Update(songs, entry) == GetOrUpdate(old(songs), filename, refresh, lookup)
      ensures songs == old(songs)[filename := entry]
    {
      if filename in songs && Truthy(songs[filename].neteaseSongId) {
        if !Truthy(songs[filename].cover) {
          var coverPath := refresh(songs[filename].neteaseSongId.value);
          if coverPath != "" {
            songs := songs[filename := songs[filename].(cover := Some(coverPath))];
          }
        }
        return songs[filename];
      }
      var info := ExtractSongInfo(filename);
      var found := lookup(SearchQuery(info));
      if found.Found? {
        entry := FromLookup(filename, found.songId, found.name, found.artist, found.coverPath);
        songs := songs[filename := entry];
        return entry;
      }
      entry := Metadata(LocalPrefix + filename, info.title, ArtistOrDefault(info), None, None);
      songs := songs[filename := entry];
    }

    /** `GET`: `listing` is the music directory (`None` when reading it threw, which gives
        the error body). The records are those of `GetAll` over the audio files, and the
        metadata file ends up as `GetAll` leaves it. */
    method Get(listing: Option<seq<string>>, refresh: string -> string, lookup: string -> Lookup)
      returns (response: Response)
      modifies this
      ensures listing.None? ==> response == ErrorBody(MetadataError) && songs == old(songs)
      ensures listing.Some? ==>
        var r := GetAll(old(songs), AudioFiles(listing.value), refresh, lookup);
        response == Records(r.response) && songs == r.songs
      ensures listing.Some? ==> response.records.Keys == (set f | f in listing.value && HasAudioExtension(f))
      ensures listing.Some? && Distinct(listing.value) ==>
        forall f :: f in response.records ==> response.records[f] == GetOrUpdate(old(songs), f, refresh, lookup).entry
    {
      if listing.None? {
        return ErrorBody(MetadataError);
      }
      var files := AudioFiles(listing.value);
      var metadata: map<string, Metadata> := map[];
      for i := 0 to |files|
        invariant Listing(songs, metadata) == GetAll(old(songs), files[..i], refresh, lookup)
      {
        assert files[..i + 1][..i] == files[..i];
        var entry := GetOrUpdateMetadata(files[i], refresh, lookup);
        metadata := metadata[files[i] := entry];
      }
      assert files[..|files|] == files;
      GetAllFrame(old(songs), files, refresh, lookup);
      if Distinct(listing.value) {
        AudioFilesDistinct(listing.value);
        GetAllEntries(old(songs), files, refresh, lookup);
      }
      return Records(metadata);
    }
  }
}
