// The audio-file updater: which files of the music folder are read, the values taken from
// their tags, and which artist, album and track rows a scanned file adds to the database.
module AudioFiles {
  import opened Wrappers
  import PyStr
  import PyArith
  import PyPath
  import Importer
  import DataTable
  import Updater
  import opened DatabaseHelper

  // ---------------------------------------------------------------------------
  // Which files are read

  /** `file.lower().endswith((".mp3", ".flac", ".wav", ".aac", ".ogg", ".m4a"))`. */
  predicate Listed(name: string)
  {
    AudioSuffix(PyStr.Lower(name))
  }

  /** One of the six audio extensions ends `lower`. */
  predicate AudioSuffix(lower: string)
  {
    PyStr.EndsWith(lower, ".mp3") || PyStr.EndsWith(lower, ".flac") || PyStr.EndsWith(lower, ".wav") ||
    PyStr.EndsWith(lower, ".aac") || PyStr.EndsWith(lower, ".ogg") || PyStr.EndsWith(lower, ".m4a")
  }

  /** The three formats a tag reader exists for. */
  datatype Format = M4a | Mp3 | Flac

  /** The reader a file goes to: the first of .m4a, .mp3 and .flac its lower-cased name ends with. */
  function FormatOf(name: string): Option<Format>
  {
    SuffixFormat(PyStr.Lower(name))
  }

  function SuffixFormat(lower: string): Option<Format>
  {
    if PyStr.EndsWith(lower, ".m4a") then Some(M4a)
    else if PyStr.EndsWith(lower, ".mp3") then Some(Mp3)
    else if PyStr.EndsWith(lower, ".flac") then Some(Flac)
    else None
  }

  /** Only the audio extensions have a reader, and of them exactly .wav, .aac and .ogg lack one. */
  lemma SuffixFormatAudio(lower: string)
    ensures SuffixFormat(lower).Some? ==> AudioSuffix(lower)
    ensures AudioSuffix(lower) && SuffixFormat(lower).None? <==>
      PyStr.EndsWith(lower, ".wav") || PyStr.EndsWith(lower, ".aac") || PyStr.EndsWith(lower, ".ogg")
  {
    if PyStr.EndsWith(lower, ".wav") || PyStr.EndsWith(lower, ".aac") || PyStr.EndsWith(lower, ".ogg") {
      var n := |lower|;
      assert n >= 4 && lower[n - 1] in {'v', 'c', 'g'} && lower[n - 4] == '.';
      assert !PyStr.EndsWith(lower, ".m4a") by { assert n < 4 || lower[n - 1] != ".m4a"[3]; }
      assert !PyStr.EndsWith(lower, ".mp3") by { assert n < 4 || lower[n - 1] != ".mp3"[3]; }
      assert !PyStr.EndsWith(lower, ".flac") by { assert n < 5 || lower[n - 4] != ".flac"[1]; }
    }
  }

  /** A file with a reader is a listed one; a listed file has none exactly when it is .wav, .aac or .ogg. */
  lemma FormatOfListed(name: string)
    ensures FormatOf(name).Some? ==> Listed(name)
    ensures Listed(name) && FormatOf(name).None? <==>
      var lower := PyStr.Lower(name);
      PyStr.EndsWith(lower, ".wav") || PyStr.EndsWith(lower, ".aac") || PyStr.EndsWith(lower, ".ogg")
  {
    SuffixFormatAudio(PyStr.Lower(name));
  }

  /** Whether a file is read: listed, not yet in the tracks table, and with a reader. */
  predicate Kept(root: string, name: string, inTracks: string -> bool)
  {
    Listed(name) && !inTracks(PyPath.Join(root, name)) && FormatOf(name).Some?
  }

  /** What the tag reader gives for one file of a directory, if the file is kept; `extract` stands for the format's reader. */
  function Reading<M>(root: string, name: string, inTracks: string -> bool, extract: (Format, string) -> M): (r: Option<M>)
    ensures r.Some? <==> Kept(root, name, inTracks)
    ensures r.Some? ==> r.value == extract(FormatOf(name).value, PyPath.Join(root, name))
  {
    if Kept(root, name, inTracks) then Some(extract(FormatOf(name).value, PyPath.Join(root, name))) else None
  }

  /** The metadata of one directory's files, in listing order. */
  function ScannedIn<M>(root: string, names: seq<string>, inTracks: string -> bool, extract: (Format, string) -> M): (r: seq<M>)
    ensures |r| <= |names|
  {
    if names == [] then []
    else
      var init := ScannedIn(root, names[..|names| - 1], inTracks, extract);
      match Reading(root, names[|names| - 1], inTracks, extract)
      case Some(x) => init + [x]
      case None => init
  }

  /** The metadata of a whole walk, directory by directory. */
  function Scanned<M>(walk: seq<PyPath.WalkEntry>, inTracks: string -> bool, extract: (Format, string) -> M): seq<M>
  {
    if walk == [] then []
    else Scanned(walk[..|walk| - 1], inTracks, extract) + ScannedIn(walk[|walk| - 1].root, walk[|walk| - 1].files, inTracks, extract)
  }

  /** Whether `x` is what the reader gives for some kept file of the directory. */
  ghost predicate ReadIn<M>(root: string, names: seq<string>, inTracks: string -> bool, extract: (Format, string) -> M, x: M)
  {
    exists j :: 0 <= j < |names| && Reading(root, names[j], inTracks, extract) == Some(x)
  }

  /** The last file of a directory adds its reading, if any, to the scan of the files before it. */
  lemma ScannedInLast<M>(root: string, names: seq<string>, inTracks: string -> bool, extract: (Format, string) -> M, x: M)
    requires names != []
    ensures x in ScannedIn(root, names, inTracks, extract) <==>
      x in ScannedIn(root, names[..|names| - 1], inTracks, extract) || Reading(root, names[|names| - 1], inTracks, extract) == Some(x)
  {
  }

  /** A file of the directory is either one of the files before the last, or the last. */
  lemma ReadInLast<M>(root: string, names: seq<string>, inTracks: string -> bool, extract: (Format, string) -> M, x: M)
    requires names != []
    ensures ReadIn(root, names, inTracks, extract, x) <==>
      ReadIn(root, names[..|names| - 1], inTracks, extract, x) || Reading(root, names[|names| - 1], inTracks, extract) == Some(x)
  {
    if ReadIn(root, names[..|names| - 1], inTracks, extract, x) {
      ReadInPrefix(root, names, inTracks, extract, x);
    }
    if ReadIn(root, names, inTracks, extract, x) {
      ReadInSplit(root, names, inTracks, extract, x);
    }
  }

  /** A reading among the files before the last is one of the directory's. */
  lemma ReadInPrefix<M>(root: string, names: seq<string>, inTracks: string -> bool, extract: (Format, string) -> M, x: M)
    requires names != [] && ReadIn(root, names[..|names| - 1], inTracks, extract, x)
    ensures ReadIn(root, names, inTracks, extract, x)
  {
    var init := names[..|names| - 1];
    var j :| 0 <= j < |init| && Reading(root, init[j], inTracks, extract) == Some(x);
    assert names[j] == init[j];
  }

  /** A reading of the directory comes from a file before the last or from the last. */
  lemma ReadInSplit<M>(root: string, names: seq<string>, inTracks: string -> bool, extract: (Format, string) -> M, x: M)
    requires names != [] && ReadIn(root, names, inTracks, extract, x)
    ensures ReadIn(root, names[..|names| - 1], inTracks, extract, x) || Reading(root, names[|names| - 1], inTracks, extract) == Some(x)
  {
    var init := names[..|names| - 1];
    var j :| 0 <= j < |names| && Reading(root, names[j], inTracks, extract) == Some(x);
    if j < |init| {
      assert Reading(root, init[j], inTracks, extract) == Some(x);
    } else {
      assert j == |names| - 1;
    }
  }

  /** The scan yields exactly the readings of the kept files of the directory. */
  lemma {:induction false} ScannedInMembers<M>(root: string, names: seq<string>, inTracks: string -> bool, extract: (Format, string) -> M, x: M)
    ensures x in ScannedIn(root, names, inTracks, extract) <==> ReadIn(root, names, inTracks, extract, x)
  {
    if names != [] {
      ScannedInMembers(root, names[..|names| - 1], inTracks, extract, x);
      ScannedInLast(root, names, inTracks, extract, x);
      ReadInLast(root, names, inTracks, extract, x);
    }
  }

  /** The scan of a walk yields exactly the readings of the kept files of its directories. */
  lemma {:induction false} ScannedMembers<M>(walk: seq<PyPath.WalkEntry>, inTracks: string -> bool, extract: (Format, string) -> M, x: M)
    ensures x in Scanned(walk, inTracks, extract) <==>
      exists i :: 0 <= i < |walk| && ReadIn(walk[i].root, walk[i].files, inTracks, extract, x)
  {
    if walk != [] {
      var init := walk[..|walk| - 1];
      var last := walk[|walk| - 1];
      ScannedMembers(init, inTracks, extract, x);
      ScannedInMembers(last.root, last.files, inTracks, extract, x);
      if exists i :: 0 <= i < |init| && ReadIn(init[i].root, init[i].files, inTracks, extract, x) {
        var i :| 0 <= i < |init| && ReadIn(init[i].root, init[i].files, inTracks, extract, x);
        assert walk[i] == init[i];
      }
      if exists i :: 0 <= i < |walk| && ReadIn(walk[i].root, walk[i].files, inTracks, extract, x) {
        var i :| 0 <= i < |walk| && ReadIn(walk[i].root, walk[i].files, inTracks, extract, x);
        if i < |init| {
          assert init[i] == walk[i];
        }
      }
    }
  }

  /**
   * `scan_filesystem(directory, cursor)` over the walk: `inTracks` answers
   * `path_exists_in_tracks`, `extract` stands for the readers of the three formats.
   */
  method ScanFilesystem<M>(walk: seq<PyPath.WalkEntry>, inTracks: string -> bool, extract: (Format, string) -> M)
    returns (metadatas: seq<M>)
    ensures metadatas == Scanned(walk, inTracks, extract)
  {
    metadatas := [];
    for i := 0 to |walk|
      invariant metadatas == Scanned(walk[..i], inTracks, extract)
    {
      var found := ScanDirectory(walk[i].root, walk[i].files, inTracks, extract);
      metadatas := metadatas + found;
      assert walk[..i + 1][..i] == walk[..i];
    }
    assert walk[..|walk|] == walk;
  }

  /** The inner loop of `scan_filesystem` over one directory's files, in listing order. */
  method ScanDirectory<M>(root: string, files: seq<string>, inTracks: string -> bool, extract: (Format, string) -> M)
    returns (found: seq<M>)
    ensures found == ScannedIn(root, files, inTracks, extract)
  {
    found := [];
    for j := 0 to |files|
      invariant found == ScannedIn(root, files[..j], inTracks, extract)
    {
      var file := files[j];
      assert files[..j + 1][..j] == files[..j];
      if Listed(file) {
        var audioFile := PyPath.Join(root, file);
        if !inTracks(audioFile) {
          var format := FormatOf(file);
          if format.Some? {
            found := found + [extract(format.value, audioFile)];
          }
        }
      }
    }
    assert files[..|files|] == files;
  }

  // ---------------------------------------------------------------------------
  // Values read from the tags

  /**
   * `f"{int(L // 60)}:{int(L % 60)}"` on the length in seconds: whole minutes, a colon,
   * whole seconds, without zero padding (both quotient and remainder are whole or
   * non-negative, so `int()` is the floor here).
   */
  function LengthText(seconds: real): string
  {
    PyStr.IntToString(PyArith.FloorDivReal(seconds, 60.0)) + ":" +
    PyStr.IntToString(PyArith.Floor(PyArith.FloorModReal(seconds, 60.0)))
  }

  /** The length text splits into minutes and seconds, 0 <= seconds < 60, adding up to the whole seconds. */
  lemma LengthFields(seconds: real)
    ensures var parts := PyStr.Split(LengthText(seconds), {':'});
      |parts| == 2 &&
      PyStr.ParseInt(parts[0]).Some? && PyStr.ParseInt(parts[1]).Some? &&
      0 <= PyStr.ParseInt(parts[1]).value < 60 &&
      60 * PyStr.ParseInt(parts[0]).value + PyStr.ParseInt(parts[1]).value == PyArith.Floor(seconds)
  {
    var m := PyArith.FloorDivReal(seconds, 60.0);
    var rem := PyArith.FloorModReal(seconds, 60.0);
    PyArith.FloorModRealBounds(seconds, 60.0);
    var s := PyArith.Floor(rem);
    assert 0 <= s < 60;
    assert rem == seconds - 60.0 * m as real;
    var n := 60 * m + s;
    assert n as real <= seconds < n as real + 1.0;
    assert PyArith.Floor(seconds) == n;
    var a := PyStr.IntToString(m);
    var b := PyStr.IntToString(s);
    Updater.IntStringNoColon(m);
    Updater.IntStringNoColon(s);
    assert LengthText(seconds) == a + [':'] + b;
    PyStr.SplitTwo(a, ':', b, {':'});
    PyStr.ParseIntOfIntToString(m);
    PyStr.ParseIntOfIntToString(s);
  }

  /** Unlike the MusicBrainz updater's "M:SS", seconds below ten keep one digit: 185 s is "3:5", not "3:05". */
  lemma LengthUnpadded()
    ensures LengthText(185.0) == "3:5"
    ensures Updater.FormatLength(Some(185000)) == Some("3:05")
  {
    assert 3.0 <= 185.0 / 60.0 < 4.0;
    assert PyArith.FloorDivReal(185.0, 60.0) == 3;
    assert PyArith.FloorModReal(185.0, 60.0) == 5.0;
    assert PyArith.Floor(5.0) == 5;
    assert PyArith.FloorDiv(185000, 1000) == 185;
    assert PyArith.FloorDiv(185, 60) == 3 && PyArith.FloorMod(185, 60) == 5;
    assert PyStr.IntToString(3) == "3" && PyStr.IntToString(5) == "5";
    assert PyStr.ZeroPad2(5) == "05";
    assert Updater.FormatLength(Some(185000)) == Some("3" + ":" + "05");
    assert "3" + ":" + "05" == "3:05";
  }

  /** The FLAC track number `f"{tracknumber}/{totaltracks}"`. */
  function FlacTrackNumber(trackNumber: string, totalTracks: string): (r: string)
    requires forall k :: 0 <= k < |trackNumber| ==> trackNumber[k] != '/'
    requires forall k :: 0 <= k < |totalTracks| ==> totalTracks[k] != '/'
    ensures PyStr.Split(r, {'/'}) == [trackNumber, totalTracks]
  {
    PyStr.SplitTwo(trackNumber, '/', totalTracks, {'/'});
    trackNumber + ['/'] + totalTracks
  }

  /** A FLAC track number is in the "n/total" form the playlist table pads: "3" of "12" is shown as "03/12". */
  lemma FlacTrackNumberShown(trackNumber: string, totalTracks: string, n: int)
    requires forall k :: 0 <= k < |trackNumber| ==> trackNumber[k] != '/'
    requires forall k :: 0 <= k < |totalTracks| ==> totalTracks[k] != '/'
    requires PyStr.ParseInt(trackNumber) == Some(n)
    ensures DataTable.FormatTrackNumber(FlacTrackNumber(trackNumber, totalTracks)) == Ok(PyStr.ZeroPad2(n) + "/" + totalTracks)
  {
    assert trackNumber + ['/'] + totalTracks == trackNumber + "/" + totalTracks;
    DataTable.FormatTrackNumberOf(trackNumber, totalTracks, n);
  }

  /**
   * An MP3 field: `tags.get(frame, [default])[0] if frame in tags else tags.get(plain, [default])[0]`,
   * the tags given by each key's text list; an empty list fails on `[0]`.
   */
  function Mp3Field(tags: map<string, seq<string>>, frameKey: string, plainKey: string, default: Option<string>): (r: Result<Option<string>>)
    ensures frameKey in tags ==> (r.Ok? <==> tags[frameKey] != []) && (r.Ok? ==> r.value == Some(tags[frameKey][0]))
    ensures frameKey !in tags && plainKey in tags ==> (r.Ok? <==> tags[plainKey] != []) && (r.Ok? ==> r.value == Some(tags[plainKey][0]))
    ensures frameKey !in tags && plainKey !in tags ==> r == Ok(default)
    ensures r.Err? ==> r.error == IndexError
  {
    var key := if frameKey in tags then frameKey else plainKey;
    if key !in tags then Ok(default)
    else if tags[key] == [] then Err(IndexError)
    else Ok(Some(tags[key][0]))
  }

  /** The artist comes from TPE1, else from "artist", else it is "Unknown Artist"; a TPE1 frame hides "artist". */
  lemma Mp3ArtistFallback(tags: map<string, seq<string>>, a: string, b: string)
    ensures Mp3Field(map["TPE1" := [a], "artist" := [b]], "TPE1", "artist", Some("Unknown Artist")) == Ok(Some(a))
    ensures Mp3Field(map["artist" := [b]], "TPE1", "artist", Some("Unknown Artist")) == Ok(Some(b))
    ensures Mp3Field(map[], "TPE1", "artist", Some("Unknown Artist")) == Ok(Some("Unknown Artist"))
  {
  }

  /**
   * `datetime.strptime(raw[:4], "%Y").date()` after `if raw_year:`: the year of four leading
   * digits, from 1 on; anything else is logged and the year skipped.
   */
  function YearOf(raw: Option<string>): (r: Option<int>)
    ensures r.Some? ==> Importer.Truthy(raw) && |raw.value| >= 4 && r.value >= 1
    ensures r.Some? ==> forall k :: 0 <= k < 4 ==> PyStr.IsDigit(raw.value[k])
  {
    if !Importer.Truthy(raw) || |raw.value| < 4 then None
    else if forall k :: 0 <= k < 4 ==> PyStr.IsDigit(raw.value[k]) then
      var y := PyStr.DigitsValue(raw.value[..4]);
      if y >= 1 then Some(y) else None
    else None
  }

  /** A date starting with a four-digit year reads as that year, whatever follows. */
  lemma YearOfDate(y: int, rest: string)
    requires 1000 <= y <= 9999
    ensures YearOf(Some(PyStr.NatToString(y) + rest)) == Some(y)
  {
    var t := PyStr.NatToString(y);
    assert |PyStr.NatToString(y / 1000)| == 1;
    assert y / 100 / 10 == y / 1000;
    assert |PyStr.NatToString(y / 100)| == 2;
    assert y / 10 / 10 == y / 100;
    assert |PyStr.NatToString(y / 10)| == 3;
    assert |t| == 4;
    var raw := t + rest;
    assert raw[..4] == t;
    PyStr.DigitsValueOfNatToString(y);
  }

  // ---------------------------------------------------------------------------
  // process_track_entry

  /** The fields of a scanned file's metadata that the entry decision reads. */
  datatype Metadata = Metadata(
    title: string, artist: string, album: string, path: string,
    trackMbId: Option<string>, artistMbId: Option<string>, albumMbId: Option<string>)

  /** A file whose release-track id is already in the tracks table is a duplicate. */
  predicate Duplicate(db: Db, m: Metadata)
  {
    Find(db.tracks, TrackKey, m.trackMbId).Some?
  }

  /** The artist's id has no row yet and is set, so the artist is inserted. */
  predicate NewArtist(db: Db, m: Metadata)
  {
    Find(db.artists, ArtistKey, m.artistMbId).None? && Importer.Truthy(m.artistMbId)
  }

  /** The album's id has no row yet and is set, so the album is inserted. */
  predicate NewAlbum(db: Db, m: Metadata)
  {
    Find(db.albums, AlbumKey, m.albumMbId).None? && Importer.Truthy(m.albumMbId)
  }

  /** `artist_id` is never bound: no row for the artist's id, and no id to insert. */
  predicate ArtistUnbound(db: Db, m: Metadata)
  {
    Find(db.artists, ArtistKey, m.artistMbId).None? && !Importer.Truthy(m.artistMbId)
  }

  /** `album_id` is never bound: no row for the album's id, and no id to insert. */
  predicate AlbumUnbound(db: Db, m: Metadata)
  {
    Find(db.albums, AlbumKey, m.albumMbId).None? && !Importer.Truthy(m.albumMbId)
  }

  /**
   * The locals of `process_track_entry` between its steps: the ids still to insert
   * (`new_*_mb_id`) and the row ids bound so far (None while unbound).
   */
  datatype Step = Step(
    newTrack: Option<string>, newArtist: Option<string>, newAlbum: Option<string>,
    artistId: Option<nat>, albumId: Option<nat>)

  /** Row ids that name existing rows. */
  predicate Bound(db: Db, s: Step)
  {
    (s.artistId.Some? ==> 1 <= s.artistId.value <= |db.artists|) &&
    (s.albumId.Some? ==> 1 <= s.albumId.value <= |db.albums|)
  }

  /** The lookups: a duplicate sets nothing; otherwise a found row binds its id and a missing one marks its id for insertion. */
  function Lookup(db: Db, m: Metadata): (s: Step)
    ensures Bound(db, s)
    ensures Duplicate(db, m) ==> s == Step(None, None, None, None, None)
    ensures !Duplicate(db, m) ==>
      (s.newTrack == m.trackMbId &&
       s.artistId == Find(db.artists, ArtistKey, m.artistMbId) &&
       s.albumId == Find(db.albums, AlbumKey, m.albumMbId) &&
       (Importer.Truthy(s.newArtist) <==> NewArtist(db, m)) &&
       (Importer.Truthy(s.newAlbum) <==> NewAlbum(db, m)))
  {
    if Duplicate(db, m) then Step(None, None, None, None, None)
    else
      var artist := Find(db.artists, ArtistKey, m.artistMbId);
      var album := Find(db.albums, AlbumKey, m.albumMbId);
      Step(m.trackMbId, if artist.None? then m.artistMbId else None, if album.None? then m.albumMbId else None, artist, album)
  }

  /** `if new_artist_mb_id:` insert the artist and bind its id. */
  function ArtistStep(db: Db, m: Metadata, s: Step): (r: (Db, Step))
    ensures Importer.Truthy(s.newArtist) ==> r.1.artistId.Some?
    ensures Bound(db, s) ==> Bound(r.0, r.1)
  {
    if Importer.Truthy(s.newArtist) then
      var d := WithArtist(db, m.artist, s.newArtist.value, true);
      InsertedFound(db, m.artist, 0, 0, "", s.newArtist.value, true, "");
      (d, s.(artistId := Find(d.artists, ArtistKey, s.newArtist)))
    else (db, s)
  }

  /** `if new_album_mb_id:` insert the album under the bound artist id, and bind its id; an unbound artist id raises. */
  function AlbumStep(db: Db, m: Metadata, s: Step): (r: (Db, Step, Result<()>))
    ensures r.2.Err? <==> Importer.Truthy(s.newAlbum) && s.artistId.None?
    ensures r.2.Ok? && Importer.Truthy(s.newAlbum) ==> r.1.albumId.Some?
    ensures Bound(db, s) ==> Bound(r.0, r.1)
  {
    if !Importer.Truthy(s.newAlbum) then (db, s, Ok(()))
    else if s.artistId.None? then (db, s, Err(UnboundLocalError))
    else
      var d := WithAlbum(db, m.album, s.artistId.value, s.newAlbum.value, true, PyPath.DirName(m.path));
      InsertedFound(db, m.album, s.artistId.value, 0, "", s.newAlbum.value, true, PyPath.DirName(m.path));
      (d, s.(albumId := Find(d.albums, AlbumKey, s.newAlbum)), Ok(()))
  }

  /** `if new_track_mb_id:` insert the track under the bound artist and album ids; an unbound one raises. */
  function TrackStep(db: Db, m: Metadata, s: Step): (r: (Db, Result<()>))
    ensures r.1.Err? <==> Importer.Truthy(s.newTrack) && (s.artistId.None? || s.albumId.None?)
  {
    if !Importer.Truthy(s.newTrack) then (db, Ok(()))
    else if s.artistId.None? || s.albumId.None? then (db, Err(UnboundLocalError))
    else (WithTrack(db, m.title, s.artistId.value, s.albumId.value, m.path, s.newTrack.value, true), Ok(()))
  }

  /** `if new_artist_mb_id or new_album_mb_id or new_track_mb_id: commit()`. */
  function CommitStep(db: Db, s: Step): Db
  {
    if Importer.Truthy(s.newArtist) || Importer.Truthy(s.newAlbum) || Importer.Truthy(s.newTrack) then
      db.(commits := db.commits + 1)
    else db
  }

  /**
   * `process_track_entry(cursor, metadata)` on the database state: the lookups, then the
   * artist, album and track inserts in that order, then the commit; a step that raises
   * ends the entry with the rows inserted so far and no commit.
   */
  function Entry(db: Db, m: Metadata): (Db, Result<()>)
  {
    Inserts(db, m, Lookup(db, m))
  }

  /** The second half of `process_track_entry`: the inserts the lookups call for, and the commit. */
  function Inserts(db: Db, m: Metadata, s: Step): (Db, Result<()>)
  {
    var a := ArtistStep(db, m, s);
    var b := AlbumStep(a.0, m, a.1);
    if b.2.Err? then (b.0, b.2)
    else
      var c := TrackStep(b.0, m, b.1);
      if c.1.Err? then c else (CommitStep(c.0, b.1), Ok(()))
  }

  /** A duplicate file adds nothing and commits nothing. */
  lemma EntryDuplicate(db: Db, m: Metadata)
    requires Duplicate(db, m)
    ensures Entry(db, m) == (db, Ok(()))
  {
  }

  /**
   * The entry fails exactly when a new album or track needs the artist id and the artist
   * was neither found nor inserted, or a new track needs the album id and the album was
   * neither found nor inserted.
   */
  lemma EntryFails(db: Db, m: Metadata)
    ensures Entry(db, m).1.Err? <==>
      (!Duplicate(db, m) &&
       (((NewAlbum(db, m) || Importer.Truthy(m.trackMbId)) && ArtistUnbound(db, m)) ||
        (Importer.Truthy(m.trackMbId) && AlbumUnbound(db, m))))
    ensures Entry(db, m).1.Err? ==> Entry(db, m).1.error == UnboundLocalError
  {
  }

  /** Each table of `d` extends the same table of `db`. */
  predicate Extends(db: Db, d: Db)
  {
    |db.artists| <= |d.artists| && d.artists[..|db.artists|] == db.artists &&
    |db.albums| <= |d.albums| && d.albums[..|db.albums|] == db.albums &&
    |db.tracks| <= |d.tracks| && d.tracks[..|db.tracks|] == db.tracks
  }

  /** Each step appends to one table and leaves the others alone; the commit touches no table. */
  lemma ArtistStepExtends(db: Db, m: Metadata, s: Step)
    ensures var a := ArtistStep(db, m, s).0;
      Extends(db, a) && a.albums == db.albums && a.tracks == db.tracks && a.commits == db.commits
  {
    var a := ArtistStep(db, m, s).0;
    assert a.artists[..|db.artists|] == db.artists;
  }

  lemma AlbumStepExtends(db: Db, m: Metadata, s: Step)
    ensures var b := AlbumStep(db, m, s).0;
      Extends(db, b) && b.artists == db.artists && b.tracks == db.tracks && b.commits == db.commits
  {
    var b := AlbumStep(db, m, s).0;
    assert b.albums[..|db.albums|] == db.albums;
  }

  lemma TrackStepExtends(db: Db, m: Metadata, s: Step)
    ensures var c := TrackStep(db, m, s).0;
      Extends(db, c) && Extends(db, CommitStep(c, s)) && c.artists == db.artists && c.albums == db.albums
  {
    var c := TrackStep(db, m, s).0;
    assert c.tracks[..|db.tracks|] == db.tracks;
    assert CommitStep(c, s).tracks == c.tracks;
  }

  /** Rows are only ever appended: each table of the result extends the one before. */
  lemma EntryAppends(db: Db, m: Metadata)
    ensures Extends(db, Entry(db, m).0)
  {
    var a := ArtistStep(db, m, Lookup(db, m));
    ArtistStepExtends(db, m, Lookup(db, m));
    var b := AlbumStep(a.0, m, a.1);
    AlbumStepExtends(a.0, m, a.1);
    TrackStepExtends(b.0, m, b.1);
  }

  /** A commit happens exactly when the entry succeeds and some id was new; only then. */
  lemma EntryCommits(db: Db, m: Metadata)
    ensures var (d, r) := Entry(db, m);
      (d.commits == db.commits + 1 <==>
        r.Ok? && !Duplicate(db, m) && (NewArtist(db, m) || NewAlbum(db, m) || Importer.Truthy(m.trackMbId))) &&
      (d.commits == db.commits || d.commits == db.commits + 1)
  {
  }

  /** A new id is inserted as a row when the entry goes through: the artist, the album and the track each get one. */
  lemma EntryInserts(db: Db, m: Metadata)
    requires !Duplicate(db, m) && Entry(db, m).1.Ok?
    ensures var d := Entry(db, m).0;
      (NewArtist(db, m) ==> |d.artists| == |db.artists| + 1 && d.artists[|db.artists|].mbid == m.artistMbId.value) &&
      (NewAlbum(db, m) ==> |d.albums| == |db.albums| + 1 && d.albums[|db.albums|].mbid == m.albumMbId.value) &&
      (Importer.Truthy(m.trackMbId) ==> |d.tracks| == |db.tracks| + 1 && d.tracks[|db.tracks|].mbid == m.trackMbId.value)
  {
  }

  /**
   * A found artist or album is reused: no row is added for it, and the new album or track
   * names its id. A new album names the artist just inserted.
   */
  lemma EntryReuses(db: Db, m: Metadata)
    requires !Duplicate(db, m) && Entry(db, m).1.Ok?
    ensures var d := Entry(db, m).0;
      var artistFound := Find(db.artists, ArtistKey, m.artistMbId);
      var albumFound := Find(db.albums, AlbumKey, m.albumMbId);
      (artistFound.Some? ==>
        (|d.artists| == |db.artists| &&
         (|d.albums| > |db.albums| ==> d.albums[|db.albums|].artistId == artistFound.value) &&
         (|d.tracks| > |db.tracks| ==> d.tracks[|db.tracks|].artistId == artistFound.value))) &&
      (albumFound.Some? ==>
        (|d.albums| == |db.albums| &&
         (|d.tracks| > |db.tracks| ==> d.tracks[|db.tracks|].albumId == albumFound.value))) &&
      (NewArtist(db, m) && |d.albums| > |db.albums| ==> d.albums[|db.albums|].artistId == |d.artists|)
  {
  }

  /** An insert under ids that name existing rows keeps every reference pointing at a row, and the ids bound stay in range. */
  lemma ArtistStepLinked(db: Db, m: Metadata, s: Step)
    requires Linked(db) && Bound(db, s)
    ensures var a := ArtistStep(db, m, s); Linked(a.0) && Bound(a.0, a.1)
  {
  }

  lemma AlbumStepLinked(db: Db, m: Metadata, s: Step)
    requires Linked(db) && Bound(db, s)
    ensures var b := AlbumStep(db, m, s); Linked(b.0) && Bound(b.0, b.1)
  {
    var d := AlbumStep(db, m, s).0;
    forall k | 0 <= k < |d.albums|
      ensures 1 <= d.albums[k].artistId <= |d.artists|
    {
      if k < |db.albums| {
        assert d.albums[k] == db.albums[k];
      }
    }
  }

  lemma TrackStepLinked(db: Db, m: Metadata, s: Step)
    requires Linked(db) && Bound(db, s)
    ensures Linked(TrackStep(db, m, s).0) && Linked(CommitStep(TrackStep(db, m, s).0, s))
  {
    var e := TrackStep(db, m, s).0;
    forall k | 0 <= k < |e.tracks|
      ensures 1 <= e.tracks[k].artistId <= |e.artists| && 1 <= e.tracks[k].albumId <= |e.albums|
    {
      if k < |db.tracks| {
        assert e.tracks[k] == db.tracks[k];
      }
    }
  }

  /** Every row the entry adds names rows that exist, so a linked database stays linked. */
  lemma EntryLinked(db: Db, m: Metadata)
    requires Linked(db)
    ensures Linked(Entry(db, m).0)
  {
    ArtistStepLinked(db, m, Lookup(db, m));
    var a := ArtistStep(db, m, Lookup(db, m));
    assert Entry(db, m) == Inserts(db, m, Lookup(db, m));
    AlbumStepLinked(a.0, m, a.1);
    var b := AlbumStep(a.0, m, a.1);
    TrackStepLinked(b.0, m, b.1);
  }

  /** `process_track_entry(cursor, metadata)` against the database behind the cursor. */
  method ProcessTrackEntry(db: Catalogue, m: Metadata) returns (r: Result<()>)
    modifies db
    ensures (db.State(), r) == Entry(old(db.State()), m)
  {
    var newTrackMbId: Option<string> := None;
    var newArtistMbId: Option<string> := None;
    var newAlbumMbId: Option<string> := None;
    var artistId: Option<nat> := None;
    var albumId: Option<nat> := None;

    var trackId := Find(db.tracks, TrackKey, m.trackMbId);
    if trackId.None? {
      newTrackMbId := m.trackMbId;
      // A found row binds its id; a missing one leaves the id unbound and marks it for insertion.
      var artist := Find(db.artists, ArtistKey, m.artistMbId);
      newArtistMbId := if artist.None? then m.artistMbId else None;
      artistId := artist;
      var album := Find(db.albums, AlbumKey, m.albumMbId);
      newAlbumMbId := if album.None? then m.albumMbId else None;
      albumId := album;
    }
    var s := Step(newTrackMbId, newArtistMbId, newAlbumMbId, artistId, albumId);
    assert s == Lookup(db.State(), m);
    r := InsertNew(db, m, s);
  }

  /** The inserts and the commit that follow the lookups, with the lookups' locals in `s`. */
  method InsertNew(db: Catalogue, m: Metadata, s: Step) returns (r: Result<()>)
    modifies db
    ensures (db.State(), r) == Inserts(old(db.State()), m, s)
  {
    var s1 := InsertArtistIfNew(db, m, s);
    var s2, albumResult := InsertAlbumIfNew(db, m, s1);
    if albumResult.Err? {
      return albumResult;
    }
    var trackResult := InsertTrackIfNew(db, m, s2);
    if trackResult.Err? {
      return trackResult;
    }
    ghost var db3 := db.State();
    if Importer.Truthy(s.newArtist) || Importer.Truthy(s.newAlbum) || Importer.Truthy(s.newTrack) {
      db.Commit();
    }
    assert db.State() == CommitStep(db3, s2);
    return Ok(());
  }

  /** `if new_artist_mb_id:` the artist row is inserted and its id bound. */
  method InsertArtistIfNew(db: Catalogue, m: Metadata, s: Step) returns (s': Step)
    modifies db
    ensures (db.State(), s') == ArtistStep(old(db.State()), m, s)
  {
    s' := s;
    if Importer.Truthy(s.newArtist) {
      var id := db.InsertArtist(m.artist, s.newArtist.value, true);
      s' := s.(artistId := Some(id));
    }
  }

  /** `if new_album_mb_id:` the album row is inserted under the bound artist id; an unbound one raises. */
  method InsertAlbumIfNew(db: Catalogue, m: Metadata, s: Step) returns (s': Step, r: Result<()>)
    modifies db
    ensures (db.State(), s', r) == AlbumStep(old(db.State()), m, s)
  {
    s', r := s, Ok(());
    if Importer.Truthy(s.newAlbum) {
      if s.artistId.None? {
        return s, Err(UnboundLocalError);
      }
      var id := db.InsertAlbum(m.album, s.artistId.value, s.newAlbum.value, true, PyPath.DirName(m.path));
      s' := s.(albumId := Some(id));
    }
  }

  /** `if new_track_mb_id:` the track row is inserted under the bound ids; an unbound one raises. */
  method InsertTrackIfNew(db: Catalogue, m: Metadata, s: Step) returns (r: Result<()>)
    modifies db
    ensures (db.State(), r) == TrackStep(old(db.State()), m, s)
  {
    if Importer.Truthy(s.newTrack) {
      if s.artistId.None? || s.albumId.None? {
        return Err(UnboundLocalError);
      }
      var id := db.InsertTrack(m.title, s.artistId.value, s.albumId.value, m.path, s.newTrack.value, true);
    }
    return Ok(());
  }

  /** The entries of a list of metadata in turn, stopping at the first that raises. */
  function Entries(db: Db, ms: seq<Metadata>): (Db, Result<()>)
  {
    if ms == [] then (db, Ok(()))
    else
      var (d, r) := Entries(db, ms[..|ms| - 1]);
      if r.Err? then (d, r) else Entry(d, ms[|ms| - 1])
  }

  /** Once an entry raises, the later files change nothing. */
  lemma {:induction false} EntriesStop(db: Db, ms: seq<Metadata>, i: nat)
    requires i <= |ms| && Entries(db, ms[..i]).1.Err?
    ensures Entries(db, ms) == Entries(db, ms[..i])
    decreases |ms| - i
  {
    if i < |ms| {
      assert ms[..i + 1][..i] == ms[..i];
      EntriesStop(db, ms, i + 1);
    } else {
      assert ms[..i] == ms;
    }
  }

  /** Processing a whole scan keeps a linked database linked, whether or not it stops early. */
  lemma {:induction false} EntriesLinked(db: Db, ms: seq<Metadata>)
    requires Linked(db)
    ensures Linked(Entries(db, ms).0)
  {
    if ms != [] {
      EntriesLinked(db, ms[..|ms| - 1]);
      var (d, r) := Entries(db, ms[..|ms| - 1]);
      if r.Ok? {
        EntryLinked(d, ms[|ms| - 1]);
      }
    }
  }

  /** `update_database_with_audiofiles`: every scanned file's entry, in scan order, until one raises. */
  method UpdateDatabase(db: Catalogue, metadatas: seq<Metadata>) returns (r: Result<()>)
    modifies db
    ensures (db.State(), r) == Entries(old(db.State()), metadatas)
  {
    for i := 0 to |metadatas|
      invariant (db.State(), Ok(())) == Entries(old(db.State()), metadatas[..i])
    {
      assert metadatas[..i + 1][..i] == metadatas[..i];
      r := ProcessTrackEntry(db, metadatas[i]);
      if r.Err? {
        EntriesStop(old(db.State()), metadatas, i + 1);
        return r;
      }
    }
    assert metadatas[..|metadatas|] == metadatas;
    return Ok(());
  }
}
