// The database helpers the scanners rely on: query dispatch, the artist, album and track
// tables with their insert-or-ignore helpers, the validity flag as stored, the folder
// rewrite and cover lookup of an album, and the first-column projection of a result.
module DatabaseHelper {
  import opened Wrappers
  import PyStr
  import PyPath

  // ---------------------------------------------------------------------------
  // execute_query

  /** What running a statement gives: an exception, or its result rows. */
  datatype Outcome<R> = Raised | Rows(rows: seq<R>)

  /** The value `execute_query` returns: None, one row, or all rows. */
  datatype Fetched<R> = Nothing | One(row: R) | All(rows: seq<R>)

  /**
   * `execute_query(cursor, query, params, fetch_one, fetch_all)`: the fetched value and
   * whether the connection was rolled back.
   */
  function ExecuteQuery<R>(outcome: Outcome<R>, fetchOne: bool, fetchAll: bool): (r: (Fetched<R>, bool))
    ensures r.1 <==> outcome.Raised?
    ensures outcome.Raised? ==> r.0 == Nothing
    ensures outcome.Rows? && fetchOne ==> r.0 == if outcome.rows == [] then Nothing else One(outcome.rows[0])
    ensures outcome.Rows? && !fetchOne && fetchAll ==> r.0 == All(outcome.rows)
    ensures !fetchOne && !fetchAll ==> r.0 == Nothing
  {
    match outcome
    case Raised => (Nothing, true)
    case Rows(rows) =>
      if fetchOne then (if rows == [] then Nothing else One(rows[0]), false)
      else if fetchAll then (All(rows), false)
      else (Nothing, false)
  }

  /** Asking for one row and for all rows at once gives the one row: `fetch_one` wins. */
  lemma FetchOneFirst<R>(rows: seq<R>)
    requires rows != []
    ensures ExecuteQuery(Rows(rows), true, true) == (One(rows[0]), false)
    ensures ExecuteQuery(Rows(rows), false, true) == (All(rows), false)
  {
  }

  // ---------------------------------------------------------------------------
  // The validity flag

  /** The `is_musicbrainz_valid` column as the insert helpers write it. */
  function DbValid(valid: bool): (r: string)
    ensures r == "TRUE" <==> valid
    ensures r == "FALSE" <==> !valid
  {
    if valid then "TRUE" else "FALSE"
  }

  // ---------------------------------------------------------------------------
  // The artist, album and track tables

  datatype ArtistRow = ArtistRow(name: string, mbid: string, valid: string)
  datatype AlbumRow = AlbumRow(name: string, artistId: nat, mbid: string, valid: string, folder: string)
  datatype TrackRow = TrackRow(title: string, artistId: nat, albumId: nat, path: string, mbid: string, valid: string)

  /** The three tables (a row's id is its position plus one) and the number of commits so far. */
  datatype Db = Db(artists: seq<ArtistRow>, albums: seq<AlbumRow>, tracks: seq<TrackRow>, commits: nat)

  function ArtistKey(a: ArtistRow): string { a.mbid }
  function AlbumKey(a: AlbumRow): string { a.mbid }
  function TrackKey(t: TrackRow): string { t.mbid }

  /**
   * `SELECT ..._id FROM ... WHERE musicbrainz_..._id = ?`: the id of the first row from
   * position `i` on with that MusicBrainz id. A missing id is SQL NULL and matches nothing.
   */
  function FindFrom<R>(rows: seq<R>, key: R -> string, mbid: Option<string>, i: nat): (r: Option<nat>)
    requires i <= |rows|
    ensures r.Some? ==> mbid.Some? && i < r.value <= |rows| && key(rows[r.value - 1]) == mbid.value
    ensures r.Some? ==> forall k :: i <= k < r.value - 1 ==> key(rows[k]) != mbid.value
    ensures r.None? ==> mbid.None? || forall k :: i <= k < |rows| ==> key(rows[k]) != mbid.value
    decreases |rows| - i
  {
    if mbid.None? || i == |rows| then None
    else if key(rows[i]) == mbid.value then Some(i + 1)
    else FindFrom(rows, key, mbid, i + 1)
  }

  function Find<R>(rows: seq<R>, key: R -> string, mbid: Option<string>): (r: Option<nat>)
    ensures r.Some? <==> mbid.Some? && exists k :: 0 <= k < |rows| && key(rows[k]) == mbid.value
    ensures r.Some? ==> 1 <= r.value <= |rows| && key(rows[r.value - 1]) == mbid.value
  {
    FindFrom(rows, key, mbid, 0)
  }

  /** A row appended with a new MusicBrainz id is found at the end, and the earlier ids are found where they were. */
  lemma FindAppended<R>(rows: seq<R>, key: R -> string, row: R, mbid: Option<string>)
    requires Find(rows, key, Some(key(row))).None?
    ensures Find(rows + [row], key, Some(key(row))) == Some(|rows| + 1)
    ensures Find(rows, key, mbid).Some? ==> Find(rows + [row], key, mbid) == Find(rows, key, mbid)
  {
    FindFromAppended(rows, key, row, Some(key(row)), 0);
    if Find(rows, key, mbid).Some? {
      FindFromAppended(rows, key, row, mbid, 0);
    }
  }

  lemma {:induction false} FindFromAppended<R>(rows: seq<R>, key: R -> string, row: R, mbid: Option<string>, i: nat)
    requires i <= |rows|
    ensures FindFrom(rows, key, mbid, i).Some? ==> FindFrom(rows + [row], key, mbid, i) == FindFrom(rows, key, mbid, i)
    ensures FindFrom(rows, key, mbid, i).None? && mbid == Some(key(row)) ==> FindFrom(rows + [row], key, mbid, i) == Some(|rows| + 1)
    decreases |rows| - i
  {
    var longer := rows + [row];
    if mbid.Some? && i < |rows| {
      assert longer[i] == rows[i];
      if key(rows[i]) != mbid.value {
        FindFromAppended(rows, key, row, mbid, i + 1);
      }
    } else if mbid.Some? {
      assert longer[i] == row;
    }
  }

  /** `insert_artist`: INSERT OR IGNORE keyed by the MusicBrainz id. */
  function WithArtist(db: Db, name: string, mbid: string, valid: bool): (r: Db)
    ensures Find(db.artists, ArtistKey, Some(mbid)).Some? ==> r == db
    ensures Find(db.artists, ArtistKey, Some(mbid)).None? ==> r == db.(artists := db.artists + [ArtistRow(name, mbid, DbValid(valid))])
  {
    if Find(db.artists, ArtistKey, Some(mbid)).Some? then db
    else db.(artists := db.artists + [ArtistRow(name, mbid, DbValid(valid))])
  }

  /** `insert_album`: INSERT OR IGNORE keyed by the MusicBrainz id. */
  function WithAlbum(db: Db, name: string, artistId: nat, mbid: string, valid: bool, folder: string): (r: Db)
    ensures Find(db.albums, AlbumKey, Some(mbid)).Some? ==> r == db
    ensures Find(db.albums, AlbumKey, Some(mbid)).None? ==>
      r == db.(albums := db.albums + [AlbumRow(name, artistId, mbid, DbValid(valid), folder)])
  {
    if Find(db.albums, AlbumKey, Some(mbid)).Some? then db
    else db.(albums := db.albums + [AlbumRow(name, artistId, mbid, DbValid(valid), folder)])
  }

  /** `insert_track`: INSERT OR IGNORE keyed by the MusicBrainz id. */
  function WithTrack(db: Db, title: string, artistId: nat, albumId: nat, path: string, mbid: string, valid: bool): (r: Db)
    ensures Find(db.tracks, TrackKey, Some(mbid)).Some? ==> r == db
    ensures Find(db.tracks, TrackKey, Some(mbid)).None? ==>
      r == db.(tracks := db.tracks + [TrackRow(title, artistId, albumId, path, mbid, DbValid(valid))])
  {
    if Find(db.tracks, TrackKey, Some(mbid)).Some? then db
    else db.(tracks := db.tracks + [TrackRow(title, artistId, albumId, path, mbid, DbValid(valid))])
  }

  /** After an insert-or-ignore the id is always found: `SELECT ... WHERE musicbrainz_*_id = ?` returns the row. */
  lemma InsertedFound(db: Db, name: string, artistId: nat, albumId: nat, path: string, mbid: string, valid: bool, folder: string)
    ensures Find(WithArtist(db, name, mbid, valid).artists, ArtistKey, Some(mbid)).Some?
    ensures Find(WithAlbum(db, name, artistId, mbid, valid, folder).albums, AlbumKey, Some(mbid)).Some?
    ensures Find(WithTrack(db, name, artistId, albumId, path, mbid, valid).tracks, TrackKey, Some(mbid)).Some?
  {
    if Find(db.artists, ArtistKey, Some(mbid)).None? {
      FindAppended(db.artists, ArtistKey, ArtistRow(name, mbid, DbValid(valid)), Some(mbid));
    }
    if Find(db.albums, AlbumKey, Some(mbid)).None? {
      FindAppended(db.albums, AlbumKey, AlbumRow(name, artistId, mbid, DbValid(valid), folder), Some(mbid));
    }
    if Find(db.tracks, TrackKey, Some(mbid)).None? {
      FindAppended(db.tracks, TrackKey, TrackRow(name, artistId, albumId, path, mbid, DbValid(valid)), Some(mbid));
    }
  }

  /** Every album names an artist row, and every track an artist row and an album row. */
  predicate Linked(db: Db)
  {
    (forall k :: 0 <= k < |db.albums| ==> 1 <= db.albums[k].artistId <= |db.artists|) &&
    (forall k :: 0 <= k < |db.tracks| ==>
      1 <= db.tracks[k].artistId <= |db.artists| && 1 <= db.tracks[k].albumId <= |db.albums|)
  }

  /** The database behind the shared cursor. */
  class Catalogue {
    var artists: seq<ArtistRow>
    var albums: seq<AlbumRow>
    var tracks: seq<TrackRow>
    var commits: nat

    function State(): Db
      reads this
    {
      Db(artists, albums, tracks, commits)
    }

    constructor (db: Db)
      ensures State() == db
    {
      artists := db.artists;
      albums := db.albums;
      tracks := db.tracks;
      commits := db.commits;
    }

    /** `insert_artist(cursor, name, mbid, valid)`: the row is added unless the id is known; its id is returned. */
    method InsertArtist(name: string, mbid: string, valid: bool) returns (id: nat)
      modifies this`artists
      ensures State() == WithArtist(old(State()), name, mbid, valid)
      ensures Find(artists, ArtistKey, Some(mbid)) == Some(id)
    {
      var found := Find(artists, ArtistKey, Some(mbid));
      if found.None? {
        FindAppended(artists, ArtistKey, ArtistRow(name, mbid, DbValid(valid)), Some(mbid));
        artists := artists + [ArtistRow(name, mbid, DbValid(valid))];
      }
      id := Find(artists, ArtistKey, Some(mbid)).value;
    }

    /** `insert_album(cursor, name, artist_id, mbid, ..., valid, folder)`. */
    method InsertAlbum(name: string, artistId: nat, mbid: string, valid: bool, folder: string) returns (id: nat)
      modifies this`albums
      ensures State() == WithAlbum(old(State()), name, artistId, mbid, valid, folder)
      ensures Find(albums, AlbumKey, Some(mbid)) == Some(id)
    {
      var found := Find(albums, AlbumKey, Some(mbid));
      if found.None? {
        var row := AlbumRow(name, artistId, mbid, DbValid(valid), folder);
        FindAppended(albums, AlbumKey, row, Some(mbid));
        albums := albums + [row];
      }
      id := Find(albums, AlbumKey, Some(mbid)).value;
    }

    /** `insert_track(cursor, title, artist_id, album_id, ..., path, mbid, valid)`. */
    method InsertTrack(title: string, artistId: nat, albumId: nat, path: string, mbid: string, valid: bool) returns (id: nat)
      modifies this`tracks
      ensures State() == WithTrack(old(State()), title, artistId, albumId, path, mbid, valid)
      ensures Find(tracks, TrackKey, Some(mbid)) == Some(id)
    {
      var found := Find(tracks, TrackKey, Some(mbid));
      if found.None? {
        var row := TrackRow(title, artistId, albumId, path, mbid, DbValid(valid));
        FindAppended(tracks, TrackKey, row, Some(mbid));
        tracks := tracks + [row];
      }
      id := Find(tracks, TrackKey, Some(mbid)).value;
    }

    /** `commit()`. */
    method Commit()
      modifies this`commits
      ensures State() == old(State()).(commits := old(State()).commits + 1)
    {
      commits := commits + 1;
    }
  }

  // ---------------------------------------------------------------------------
  // get_cover_by_album_id

  /** The `local_translate_audio_path` section of the configuration. */
  datatype Translate = Translate(fields: seq<string>, source: string, target: string)

  /** The album folder as the player sees it: a folder under `source` is moved under `target`. */
  function LocalFolder(folder: string, translate: Translate): (r: string)
    ensures "albums.folder_path" in translate.fields && PyStr.StartsWith(folder, translate.source) ==>
      r == translate.target + folder[|translate.source|..]
    ensures "albums.folder_path" !in translate.fields || !PyStr.StartsWith(folder, translate.source) ==> r == folder
  {
    if "albums.folder_path" in translate.fields && PyStr.StartsWith(folder, translate.source) then
      PyStr.ReplaceFirst(folder, translate.source, translate.target)
    else folder
  }

  /** A folder moved from `source` to `target` comes back by the opposite move. */
  lemma LocalFolderBack(folder: string, translate: Translate)
    requires "albums.folder_path" in translate.fields && PyStr.StartsWith(folder, translate.source)
    ensures LocalFolder(LocalFolder(folder, translate), Translate(translate.fields, translate.target, translate.source)) == folder
  {
    var moved := LocalFolder(folder, translate);
    assert moved[..|translate.target|] == translate.target;
    assert moved[|translate.target|..] == folder[|translate.source|..];
    assert translate.source + folder[|translate.source|..] == folder;
  }

  /**
   * `get_cover_by_album_id`: the album's (translated) folder, then cover.jpg if it exists,
   * else cover.png if it exists, else None. An album id with no row fails on `result[0]`.
   */
  function CoverByAlbum(folder: Option<string>, translate: Translate, exists_: string -> bool): (r: Result<Option<string>>)
    ensures folder.None? <==> r.Err?
    ensures r.Err? ==> r.error == TypeError
    ensures r.Ok? && r.value.Some? ==> exists_(r.value.value)
    ensures r.Ok? && exists_(PyPath.Join(LocalFolder(folder.value, translate), "cover.jpg")) ==>
      r.value == Some(PyPath.Join(LocalFolder(folder.value, translate), "cover.jpg"))
    ensures r.Ok? && r.value.None? ==>
      !exists_(PyPath.Join(LocalFolder(folder.value, translate), "cover.jpg")) &&
      !exists_(PyPath.Join(LocalFolder(folder.value, translate), "cover.png"))
  {
    if folder.None? then Err(TypeError)
    else
      var local := LocalFolder(folder.value, translate);
      var jpg := PyPath.Join(local, "cover.jpg");
      var png := PyPath.Join(local, "cover.png");
      if exists_(jpg) then Ok(Some(jpg))
      else if exists_(png) then Ok(Some(png))
      else Ok(None)
  }

  // ---------------------------------------------------------------------------
  // get_tracks_between_by_genre

  /** `[row[0] for row in rows]`: fails on an empty row. */
  function FirstColumn<T>(rows: seq<seq<T>>): (r: Result<seq<T>>)
    ensures r.Err? <==> exists k :: 0 <= k < |rows| && rows[k] == []
    ensures r.Ok? ==> |r.value| == |rows| && forall k :: 0 <= k < |rows| ==> r.value[k] == rows[k][0]
  {
    if rows == [] then Ok([])
    else if rows[0] == [] then Err(IndexError)
    else match FirstColumn(rows[1..])
      case Err(e) => Err(e)
      case Ok(rest) => Ok([rows[0][0]] + rest)
  }
}
