/** The floating music player (src/components/MusicPlayer.tsx): the playlist built from the
    metadata response, the first-song selection, the wrap-around to the next song and the
    `hasInteracted` latch that gates autoplay. */
module MusicPlayer {
  import opened Wrappers
  import opened JsMath
  import opened MusicApi
  import opened MusicMetadata

  /** The fields of one value of the `/api/music/metadata` response that the player reads. */
  datatype PlayerMetadata = PlayerMetadata(id: string, name: string, artist: string, cover: Option<string>)

  /** One value of the parsed response: a metadata record, or something else (the error
      body's message string), whose fields all read as `undefined`. */
  datatype MetadataValue = Record(meta: PlayerMetadata) | NotRecord

  /** A playlist entry; `None` is a field that reads as `undefined`. */
  datatype PlayerSong = PlayerSong(id: Option<string>, name: Option<string>, artist: Option<string>,
                                   url: string, cover: Option<string>)

  /** The fields `loadSongs` copies from one value. */
  function SongOf(filename: string, value: MetadataValue): (song: PlayerSong)
    ensures song.url == MusicPath + filename
    ensures value.Record? ==> song == PlayerSong(Some(value.meta.id), Some(value.meta.name),
                                                  Some(value.meta.artist), MusicPath + filename, value.meta.cover)
    ensures value.NotRecord? ==> song.id.None? && song.name.None? && song.artist.None? && song.cover.None?
  {
    match value
    case Record(meta) => PlayerSong(Some(meta.id), Some(meta.name), Some(meta.artist), MusicPath + filename, meta.cover)
    case NotRecord => PlayerSong(None, None, None, MusicPath + filename, None)
  }

  /** `Object.entries(metadata).map(...)`: one song per entry, in entry order, served from
      `/music/` + the key. */
  function SongList(entries: seq<(string, MetadataValue)>): (songs: seq<PlayerSong>)
    ensures |songs| == |entries|
    ensures forall k :: 0 <= k < |entries| ==> songs[k] == SongOf(entries[k].0, entries[k].1)
  {
    if entries == [] then []
    else [SongOf(entries[0].0, entries[0].1)] + SongList(entries[1..])
  }

  /** The fields of a route record that the player reads. */
  function ToPlayer(m: Metadata): PlayerMetadata {
    PlayerMetadata(m.id, m.name, m.artist, m.cover)
  }

  /** `Object.entries` of the route's response body, with `order` the order in which `GET`
      stored its keys. */
  function BodyEntries(body: Response, order: seq<string>): (entries: seq<(string, MetadataValue)>)
    requires body.Records? ==> forall k :: 0 <= k < |order| ==> order[k] in body.records
    ensures body.ErrorBody? ==> entries == [("error", NotRecord)]
    ensures body.Records? ==> |entries| == |order|
    ensures body.Records? ==> forall k :: 0 <= k < |order| ==>
      entries[k] == (order[k], Record(ToPlayer(body.records[order[k]])))
  {
    match body
    case ErrorBody(_) => [("error", NotRecord)]
    case Records(records) =>
      if order == [] then []
      else [(order[0], Record(ToPlayer(records[order[0]])))] + BodyEntries(body, order[1..])
  }

  /** The route's error body is read as one entry, so the playlist becomes a single song
      served from `/music/error` with no id, name, artist or cover. */
  lemma ErrorBodyPlaylist(error: string, order: seq<string>)
    ensures SongList(BodyEntries(ErrorBody(error), order)) == [PlayerSong(None, None, None, MusicPath + "error", None)]
  {
  }

  /** A records body gives one song per stored file, in storing order, carrying the record's
      id, name, artist and cover. */
  lemma RecordsPlaylist(records: map<string, Metadata>, order: seq<string>, k: nat)
    requires forall j :: 0 <= j < |order| ==> order[j] in records
    requires k < |order|
    ensures var m := records[order[k]];
      SongList(BodyEntries(Records(records), order))[k] ==
        PlayerSong(Some(m.id), Some(m.name), Some(m.artist), MusicPath + order[k], m.cover)
  {
  }

  /** `currentSong?.id`. */
  function CurrentId(current: Option<PlayerSong>): Option<string> {
    if current.Some? then current.value.id else None
  }

  /** `songs.findIndex(song => song.id === id)`: the first position with that id, or -1. An
      absent id (`undefined`) matches a song whose id is absent too. */
  function FindIndex(songs: seq<PlayerSong>, id: Option<string>): (k: int)
    ensures -1 <= k < |songs|
    ensures k >= 0 ==> songs[k].id == id
    ensures forall j :: 0 <= j < |songs| && (k == -1 || j < k) ==> songs[j].id != id
  {
    if songs == [] then -1
    else if songs[0].id == id then 0
    else
      var k := FindIndex(songs[1..], id);
      if k == -1 then -1 else k + 1
  }

  /** The song `handleSongEnd` selects: `songs[(k + 1) % songs.length]`. With no songs the
      index is `NaN` and the selection is `undefined`. */
  function NextSong(songs: seq<PlayerSong>, current: Option<PlayerSong>): (next: Option<PlayerSong>)
    ensures next.None? <==> |songs| == 0
    ensures next.Some? ==> next.value in songs
  {
    if |songs| == 0 then None
    else Some(songs[CyclicNext(FindIndex(songs, CurrentId(current)), |songs|)])
  }

  predicate DistinctIds(songs: seq<PlayerSong>) {
    forall i, j :: 0 <= i < j < |songs| ==> songs[i].id != songs[j].id
  }

  /** With distinct ids, the song at `i` is found at `i`. */
  lemma FindIndexDistinct(songs: seq<PlayerSong>, i: nat)
    requires i < |songs| && DistinctIds(songs)
    ensures FindIndex(songs, songs[i].id) == i
  {
  }

  /** With distinct ids the playlist is played in order: after the song at `i` comes the
      song at `(i + 1) mod n`, so the last song is followed by the first. */
  lemma NextSongInOrder(songs: seq<PlayerSong>, i: nat)
    requires i < |songs| && DistinctIds(songs)
    ensures NextSong(songs, Some(songs[i])) == Some(songs[(i + 1) % |songs|])
    ensures i == |songs| - 1 ==> NextSong(songs, Some(songs[i])) == Some(songs[0])
  {
    FindIndexDistinct(songs, i);
  }

  /** When no song has the current id (or there is no current song), the first song is
      next. */
  lemma NextSongUnknown(songs: seq<PlayerSong>, current: Option<PlayerSong>)
    requires |songs| > 0
    requires forall j :: 0 <= j < |songs| ==> songs[j].id != CurrentId(current)
    ensures NextSong(songs, current) == Some(songs[0])
  {
  }

  /** The player's state: the playlist, the current song and whether the user has
      interacted with the page. */
  class Player {
    var songs: seq<PlayerSong>
    var currentSong: Option<PlayerSong>
    var hasInteracted: bool

    constructor()
      ensures songs == [] && currentSong.None? && !hasInteracted
    {
      songs := [];
      currentSong := None;
      hasInteracted := false;
    }

    /** The first click, touch or key press: the latch is set (and the listeners removed,
        so it is never cleared). */
    method HandleInteraction()
      modifies this
      ensures hasInteracted
      ensures songs == old(songs) && currentSong == old(currentSong)
    {
      hasInteracted := true;
    }

    /** `loadSongs`: `response` is the parsed metadata, or `None` when the request or its
        JSON threw, which changes nothing. The first song is selected only when there is one. */
    method LoadSongs(response: Option<seq<(string, MetadataValue)>>)
      modifies this
      ensures response.None? ==> songs == old(songs) && currentSong == old(currentSong)
      ensures response.Some? ==> songs == SongList(response.value)
      ensures response.Some? && |songs| > 0 ==> currentSong == Some(songs[0])
      ensures response.Some? && |songs| == 0 ==> currentSong == old(currentSong)
      ensures hasInteracted == old(hasInteracted)
    {
      if response.None? {
        return;
      }
      var songList := SongList(response.value);
      songs := songList;
      if |songList| > 0 {
        currentSong := Some(songList[0]);
      }
    }

    /** `handleSongEnd`. */
    method HandleSongEnd()
      modifies this
      ensures currentSong == NextSong(old(songs), old(currentSong))
      ensures songs == old(songs) && hasInteracted == old(hasInteracted)
    {
      var currentIndex := FindIndex(songs, CurrentId(currentSong));
      if |songs| == 0 {
        currentSong := None;
      } else {
        currentSong := Some(songs[JsRem(currentIndex + 1, |songs|)]);
      }
    }

    /** The autoplay effect tries to play only with a current song after an interaction. */
    predicate ShouldAutoplay()
      reads this
    {
      currentSong.Some? && hasInteracted
    }
  }
}
