// The album-cover tools: writing a cover image next to the audio files of a folder from
// the art embedded in them, finding a folder's cover, and laying covers out in a mosaic.
module Cover {
  import opened Wrappers
  import PyStr
  import PyPath
  import DatabaseHelper

  type Bytes = seq<bv8>

  // ---------------------------------------------------------------------------
  // ensure_cover_in_folder

  /** The cover files the tool looks for and removes, in that order. */
  function CoverFiles(folder: string): seq<string>
  {
    [PyPath.Join(folder, "cover.jpg"), PyPath.Join(folder, "cover.jpeg"), PyPath.Join(folder, "cover.png")]
  }

  /** The loops' `f"cover.{ext}"` over "jpg", "jpeg", "png" name the three cover files in order. */
  lemma CoverFileAt(folder: string, exts: seq<string>, i: nat)
    requires exts == ["jpg", "jpeg", "png"] && i < 3
    ensures PyPath.Join(folder, "cover." + exts[i]) == CoverFiles(folder)[i]
  {
    assert "cover." + exts[i] == ["cover.jpg", "cover.jpeg", "cover.png"][i];
  }

  /** The first of `paths` that exists. */
  function FirstPresent(paths: seq<string>, files: map<string, Bytes>): (r: Option<string>)
    ensures r.Some? ==> r.value in paths && r.value in files
    ensures r.None? ==> forall k :: 0 <= k < |paths| ==> paths[k] !in files
  {
    if paths == [] then None
    else if paths[0] in files then Some(paths[0])
    else FirstPresent(paths[1..], files)
  }

  /** The first present path is the one before which none is present. */
  lemma {:induction false} FirstPresentAt(paths: seq<string>, files: map<string, Bytes>, i: nat)
    requires i < |paths| && paths[i] in files
    requires forall k :: 0 <= k < i ==> paths[k] !in files
    ensures FirstPresent(paths, files) == Some(paths[i])
  {
    if i > 0 {
      FirstPresentAt(paths[1..], files, i - 1);
    }
  }

  /** A path the embedded-art scan reads: its lower-cased text ends with ".mp3" or ".flac". */
  predicate AudioPath(path: string)
  {
    var lower := PyStr.Lower(path);
    PyStr.EndsWith(lower, ".mp3") || PyStr.EndsWith(lower, ".flac")
  }

  /** Whether the reader returns embedded art for the file: some bytes, and not empty ones (`if cover_data:`). */
  predicate HasArt(path: string, art: string -> Option<Bytes>)
  {
    AudioPath(path) && art(path).Some? && art(path).value != []
  }

  /** Entry `j` of the listing is an audio file with embedded art, and none before it is. */
  predicate FirstArtAt(folder: string, listing: seq<string>, art: string -> Option<Bytes>, j: int)
  {
    0 <= j < |listing| && HasArt(PyPath.Join(folder, listing[j]), art) &&
    forall k :: 0 <= k < j ==> !HasArt(PyPath.Join(folder, listing[k]), art)
  }

  /**
   * The first file of the listing, as a path under the folder, that is an audio file with
   * embedded art, and that art; `art` stands for the tag reader.
   */
  function FirstArt(folder: string, listing: seq<string>, art: string -> Option<Bytes>): (r: Option<(string, Bytes)>)
    ensures r.Some? ==> exists j :: FirstArtAt(folder, listing, art, j) && r.value.0 == PyPath.Join(folder, listing[j])
    ensures r.Some? ==> HasArt(r.value.0, art) && r.value.1 == art(r.value.0).value
    ensures r.None? ==> forall k :: 0 <= k < |listing| ==> !HasArt(PyPath.Join(folder, listing[k]), art)
  {
    if listing == [] then None
    else
      var path := PyPath.Join(folder, listing[0]);
      if HasArt(path, art) then
        assert FirstArtAt(folder, listing, art, 0);
        Some((path, art(path).value))
      else
        var rest := FirstArt(folder, listing[1..], art);
        if rest.Some? then
          var j :| FirstArtAt(folder, listing[1..], art, j) && rest.value.0 == PyPath.Join(folder, listing[1..][j]);
          assert listing[j + 1] == listing[1..][j];
          assert forall k :: 0 <= k < j + 1 ==> !HasArt(PyPath.Join(folder, listing[k]), art) by {
            forall k | 0 <= k < j + 1
              ensures !HasArt(PyPath.Join(folder, listing[k]), art)
            {
              if k > 0 {
                assert listing[k] == listing[1..][k - 1];
              }
            }
          }
          assert FirstArtAt(folder, listing, art, j + 1);
          rest
        else
          assert forall k :: 0 <= k < |listing| ==> !HasArt(PyPath.Join(folder, listing[k]), art) by {
            forall k | 0 <= k < |listing|
              ensures !HasArt(PyPath.Join(folder, listing[k]), art)
            {
              if k > 0 {
                assert listing[k] == listing[1..][k - 1];
              }
            }
          }
          rest
  }

  /** The extension a detected image format is saved under: "jpeg" as "jpg", "png" as "png", nothing else. */
  function SavedExtension(format: Option<string>): (r: Option<string>)
    ensures r == Some("jpg") <==> format == Some("jpeg")
    ensures r == Some("png") <==> format == Some("png")
    ensures r.Some? ==> r.value == "jpg" || r.value == "png"
  {
    if format == Some("jpeg") then Some("jpg")
    else if format == Some("png") then Some("png")
    else None
  }

  /** What `ensure_cover_in_folder` did, besides the files it removed or wrote. */
  datatype Outcome =
    | InvalidFolder
    | CoverExists(path: string)
    | Saved(path: string)
    | Unsupported(file: string)
    | NoArt

  /**
   * `ensure_cover_in_folder(folder_path, remove_existing)` on the files of the disk (path to
   * contents): no folder, nothing; without `remove_existing` an existing cover stops it;
   * with it, the existing covers go first. Then the first audio file with embedded art
   * decides: a JPEG is written as cover.jpg, a PNG as cover.png, anything else is only
   * reported. `detect` stands for the image-format sniffer.
   */
  function EnsureCover(files: map<string, Bytes>, isDir: bool, folder: string, removeExisting: bool,
                       listing: seq<string>, art: string -> Option<Bytes>, detect: Bytes -> Option<string>): Ensured
  {
    if !isDir then Ensured(files, InvalidFolder)
    else if !removeExisting && FirstPresent(CoverFiles(folder), files).Some? then
      Ensured(files, CoverExists(FirstPresent(CoverFiles(folder), files).value))
    else
      var kept := if removeExisting then files - set k | 0 <= k < 3 :: CoverFiles(folder)[k] else files;
      match FirstArt(folder, listing, art)
      case None => Ensured(kept, NoArt)
      case Some((path, data)) =>
        match SavedExtension(detect(data))
        case Some(ext) => Ensured(kept[PyPath.Join(folder, "cover." + ext) := data], Saved(PyPath.Join(folder, "cover." + ext)))
        case None => Ensured(kept, Unsupported(path))
  }

  /** The files after `ensure_cover_in_folder`, and its outcome. */
  datatype Ensured = Ensured(files: map<string, Bytes>, outcome: Outcome)

  /** A cover is written only from the first audio file with art, and holds that art. */
  lemma EnsureCoverSaves(files: map<string, Bytes>, isDir: bool, folder: string, removeExisting: bool,
                         listing: seq<string>, art: string -> Option<Bytes>, detect: Bytes -> Option<string>)
    ensures var e := EnsureCover(files, isDir, folder, removeExisting, listing, art, detect);
      e.outcome.Saved? ==>
        var first := FirstArt(folder, listing, art);
        first.Some? && e.outcome.path in e.files && e.files[e.outcome.path] == first.value.1
  {
  }

  /** The cover is saved as cover.jpg exactly for a JPEG and as cover.png exactly for a PNG. */
  lemma EnsureCoverExtension(files: map<string, Bytes>, isDir: bool, folder: string, removeExisting: bool,
                             listing: seq<string>, art: string -> Option<Bytes>, detect: Bytes -> Option<string>)
    ensures var e := EnsureCover(files, isDir, folder, removeExisting, listing, art, detect);
      e.outcome.Saved? ==>
        var data := FirstArt(folder, listing, art).value.1;
        (e.outcome.path == PyPath.Join(folder, "cover.jpg") <==> detect(data) == Some("jpeg")) &&
        (e.outcome.path == PyPath.Join(folder, "cover.png") <==> detect(data) == Some("png"))
  {
    var e := EnsureCover(files, isDir, folder, removeExisting, listing, art, detect);
    if e.outcome.Saved? {
      var data := FirstArt(folder, listing, art).value.1;
      var ext := SavedExtension(detect(data)).value;
      assert e.outcome.path == PyPath.Join(folder, "cover." + ext);
      JoinCoverDistinct(folder);
      if ext == "jpg" {
        assert "cover." + ext == "cover.jpg";
      } else {
        assert "cover." + ext == "cover.png";
      }
    }
  }

  /** Two cover names joined onto the same folder are two different paths. */
  lemma JoinCoverDistinct(folder: string)
    ensures PyPath.Join(folder, "cover.jpg") != PyPath.Join(folder, "cover.png")
    ensures PyPath.Join(folder, "cover.jpg") != PyPath.Join(folder, "cover.jpeg")
    ensures PyPath.Join(folder, "cover.jpeg") != PyPath.Join(folder, "cover.png")
  {
    var a := PyPath.Join(folder, "cover.jpg");
    var b := PyPath.Join(folder, "cover.png");
    var c := PyPath.Join(folder, "cover.jpeg");
    assert a[|a| - 1] == 'g' && b[|b| - 1] == 'g' by {
      PyPath.JoinEndsWithName(folder, "cover.jpg");
      PyPath.JoinEndsWithName(folder, "cover.png");
    }
    PyPath.JoinEndsWithName(folder, "cover.jpg");
    PyPath.JoinEndsWithName(folder, "cover.png");
    PyPath.JoinEndsWithName(folder, "cover.jpeg");
    assert a[|a| - 2] == 'p' && b[|b| - 2] == 'n';
    assert c[|c| - 1] == 'g' && c[|c| - 2] == 'e';
  }

  /** Without `remove_existing`, a folder that has any of the three covers is left exactly as it was. */
  lemma ExistingCoverKept(files: map<string, Bytes>, folder: string, listing: seq<string>,
                          art: string -> Option<Bytes>, detect: Bytes -> Option<string>, k: nat)
    requires k < 3 && CoverFiles(folder)[k] in files
    ensures EnsureCover(files, true, folder, false, listing, art, detect) ==
      Ensured(files, CoverExists(FirstPresent(CoverFiles(folder), files).value))
  {
  }

  /**
   * Outside the three cover paths nothing changes; with `remove_existing`, none of the three
   * is left except the one written.
   */
  lemma EnsureCoverFrame(files: map<string, Bytes>, isDir: bool, folder: string, removeExisting: bool,
                         listing: seq<string>, art: string -> Option<Bytes>, detect: Bytes -> Option<string>, p: string)
    ensures var e := EnsureCover(files, isDir, folder, removeExisting, listing, art, detect);
      (p !in CoverFiles(folder) ==> (p in e.files <==> p in files) && (p in files ==> e.files[p] == files[p])) &&
      (isDir && removeExisting && p in CoverFiles(folder) && p in e.files ==> e.outcome == Saved(p))
  {
    if isDir && (removeExisting || FirstPresent(CoverFiles(folder), files).None?) {
      var first := FirstArt(folder, listing, art);
      if first.Some? && SavedExtension(detect(first.value.1)).Some? {
        SavedCoverName(folder, detect(first.value.1));
      }
      if p in CoverFiles(folder) {
        var k :| 0 <= k < 3 && CoverFiles(folder)[k] == p;
      }
    }
  }

  /** The file a cover is saved to is cover.jpg or cover.png of the folder. */
  lemma SavedCoverName(folder: string, format: Option<string>)
    requires SavedExtension(format).Some?
    ensures var path := PyPath.Join(folder, "cover." + SavedExtension(format).value);
      path == CoverFiles(folder)[0] || path == CoverFiles(folder)[2]
  {
    if SavedExtension(format).value == "jpg" {
      assert "cover." + "jpg" == "cover.jpg";
    } else {
      assert "cover." + "png" == "cover.png";
    }
  }

  /** The files of the disk: each existing path with its contents. */
  class Disk {
    var files: map<string, Bytes>

    constructor (files: map<string, Bytes>)
      ensures this.files == files
    {
      this.files := files;
    }

    /** `os.remove(path)`. */
    method Remove(path: string)
      modifies this`files
      ensures files == old(files) - {path}
    {
      files := files - {path};
    }

    /** `open(path, "wb").write(data)`. */
    method Write(path: string, data: Bytes)
      modifies this`files
      ensures files == old(files)[path := data]
    {
      files := files[path := data];
    }
  }

  /** The removal loop of `ensure_cover_in_folder`: each of the three covers that exists is deleted. */
  method RemoveCovers(disk: Disk, folder: string)
    modifies disk`files
    ensures disk.files == old(disk.files) - set k | 0 <= k < 3 :: CoverFiles(folder)[k]
  {
    var exts := ["jpg", "jpeg", "png"];
    var covers := CoverFiles(folder);
    for i := 0 to 3
      invariant disk.files == old(disk.files) - set k | 0 <= k < i :: covers[k]
    {
      var existing := PyPath.Join(folder, "cover." + exts[i]);
      CoverFileAt(folder, exts, i);
      if existing in disk.files {
        disk.Remove(existing);
      }
      assert (set k | 0 <= k < i + 1 :: covers[k]) == (set k | 0 <= k < i :: covers[k]) + {covers[i]};
    }
  }

  /** The existence loop of `ensure_cover_in_folder`: the first of the three covers on disk. */
  method ExistingCover(disk: Disk, folder: string) returns (r: Option<string>)
    ensures r == FirstPresent(CoverFiles(folder), disk.files)
  {
    var exts := ["jpg", "jpeg", "png"];
    var covers := CoverFiles(folder);
    for i := 0 to 3
      invariant forall k :: 0 <= k < i ==> covers[k] !in disk.files
    {
      var existing := PyPath.Join(folder, "cover." + exts[i]);
      CoverFileAt(folder, exts, i);
      if existing in disk.files {
        FirstPresentAt(covers, disk.files, i);
        return Some(existing);
      }
    }
    return None;
  }

  /** The scanning loop of `ensure_cover_in_folder`: the first audio file of the listing with embedded art. */
  method ScanForArt(folder: string, listing: seq<string>, art: string -> Option<Bytes>)
    returns (r: Option<(string, Bytes)>)
    ensures r == FirstArt(folder, listing, art)
  {
    for i := 0 to |listing|
      invariant FirstArt(folder, listing, art) == FirstArt(folder, listing[i..], art)
    {
      assert listing[i..][1..] == listing[i + 1..];
      var filePath := PyPath.Join(folder, listing[i]);
      if AudioPath(filePath) {
        var coverData := art(filePath);
        if coverData.Some? && coverData.value != [] {
          return Some((filePath, coverData.value));
        }
      }
    }
    return None;
  }

  /** `ensure_cover_in_folder(folder_path, remove_existing)` against the disk. */
  method EnsureCoverInFolder(disk: Disk, isDir: bool, folder: string, removeExisting: bool,
                             listing: seq<string>, art: string -> Option<Bytes>, detect: Bytes -> Option<string>)
    returns (outcome: Outcome)
    modifies disk`files
    ensures Ensured(disk.files, outcome) == EnsureCover(old(disk.files), isDir, folder, removeExisting, listing, art, detect)
  {
    if !isDir {
      return InvalidFolder;
    }
    if removeExisting {
      RemoveCovers(disk, folder);
    } else {
      var existing := ExistingCover(disk, folder);
      if existing.Some? {
        return CoverExists(existing.value);
      }
    }
    var found := ScanForArt(folder, listing, art);
    if found.None? {
      return NoArt;
    }
    var (filePath, coverData) := found.value;
    var imageFormat := detect(coverData);
    if imageFormat == Some("jpeg") || imageFormat == Some("png") {
      var extension := if imageFormat == Some("jpeg") then "jpg" else "png";
      var coverPath := PyPath.Join(folder, "cover." + extension);
      disk.Write(coverPath, coverData);
      return Saved(coverPath);
    }
    return Unsupported(filePath);
  }

  // ---------------------------------------------------------------------------
  // get_cover_path, get_album_covers

  /** `get_cover_path(folder_path)`: cover.png if it exists, else cover.jpg if it exists, else None. */
  function CoverPath(folder: string, exists_: string -> bool): (r: Option<string>)
    ensures r.Some? ==>
      exists_(r.value) && (r.value == PyPath.Join(folder, "cover.png") || r.value == PyPath.Join(folder, "cover.jpg"))
    ensures exists_(PyPath.Join(folder, "cover.png")) ==> r == Some(PyPath.Join(folder, "cover.png"))
    ensures r.None? <==> !exists_(PyPath.Join(folder, "cover.png")) && !exists_(PyPath.Join(folder, "cover.jpg"))
  {
    if exists_(PyPath.Join(folder, "cover.png")) then Some(PyPath.Join(folder, "cover.png"))
    else if exists_(PyPath.Join(folder, "cover.jpg")) then Some(PyPath.Join(folder, "cover.jpg"))
    else None
  }

  /** The first-match loop of `get_cover_path` over "png" and "jpg". */
  method GetCoverPath(folder: string, exists_: string -> bool) returns (r: Option<string>)
    ensures r == CoverPath(folder, exists_)
  {
    var exts := ["png", "jpg"];
    var candidates := [PyPath.Join(folder, "cover.png"), PyPath.Join(folder, "cover.jpg")];
    for i := 0 to 2
      invariant forall k :: 0 <= k < i ==> !exists_(candidates[k])
    {
      var coverPath := PyPath.Join(folder, "cover." + exts[i]);
      PngJpgAt(folder, exts, i);
      if exists_(coverPath) {
        assert i > 0 ==> !exists_(candidates[0]);
        return Some(coverPath);
      }
    }
    assert !exists_(candidates[0]) && !exists_(candidates[1]);
    return None;
  }

  /** `get_cover_path`'s `f"cover.{ext}"` over "png", "jpg" names cover.png, then cover.jpg. */
  lemma PngJpgAt(folder: string, exts: seq<string>, i: nat)
    requires exts == ["png", "jpg"] && i < 2
    ensures PyPath.Join(folder, "cover." + exts[i]) == [PyPath.Join(folder, "cover.png"), PyPath.Join(folder, "cover.jpg")][i]
  {
    assert "cover." + exts[i] == ["cover.png", "cover.jpg"][i];
  }

  /**
   * With both files present the two lookups disagree: this tool's `get_cover_path` takes
   * cover.png, the database helper's cover lookup takes cover.jpg.
   */
  lemma CoverOrderDiffers(folder: string, exists_: string -> bool)
    requires exists_(PyPath.Join(folder, "cover.png")) && exists_(PyPath.Join(folder, "cover.jpg"))
    ensures CoverPath(folder, exists_) == Some(PyPath.Join(folder, "cover.png"))
    ensures DatabaseHelper.CoverByAlbum(Some(folder), DatabaseHelper.Translate([], "", ""), exists_) ==
      Ok(Some(PyPath.Join(folder, "cover.jpg")))
    ensures PyPath.Join(folder, "cover.png") != PyPath.Join(folder, "cover.jpg")
  {
    JoinCoverDistinct(folder);
  }

  /** `get_album_covers(perform_action=False)`: the cover path of each album folder, skipping folders without one. */
  function AlbumCovers(folders: seq<string>, exists_: string -> bool): (r: seq<string>)
    ensures |r| <= |folders|
  {
    if folders == [] then []
    else
      var init := AlbumCovers(folders[..|folders| - 1], exists_);
      var cover := CoverPath(folders[|folders| - 1], exists_);
      if cover.Some? then init + [cover.value] else init
  }

  /** Every collected cover exists, and is the cover.png or cover.jpg of some album folder. */
  lemma {:induction false} AlbumCoversExist(folders: seq<string>, exists_: string -> bool, i: nat)
    requires i < |AlbumCovers(folders, exists_)|
    ensures exists_(AlbumCovers(folders, exists_)[i])
    ensures exists j :: 0 <= j < |folders| && CoverPath(folders[j], exists_) == Some(AlbumCovers(folders, exists_)[i])
  {
    var init := folders[..|folders| - 1];
    var last := |folders| - 1;
    if i < |AlbumCovers(init, exists_)| {
      AlbumCoversExist(init, exists_, i);
      var j :| 0 <= j < |init| && CoverPath(init[j], exists_) == Some(AlbumCovers(init, exists_)[i]);
      assert folders[j] == init[j];
    } else {
      assert CoverPath(folders[last], exists_) == Some(AlbumCovers(folders, exists_)[i]);
    }
  }

  /** The collecting loop of `get_album_covers`. */
  method GetAlbumCovers(folders: seq<string>, exists_: string -> bool) returns (covers: seq<string>)
    ensures covers == AlbumCovers(folders, exists_)
  {
    covers := [];
    for i := 0 to |folders|
      invariant covers == AlbumCovers(folders[..i], exists_)
    {
      assert folders[..i + 1][..i] == folders[..i];
      var coverPath := GetCoverPath(folders[i], exists_);
      if coverPath.Some? {
        covers := covers + [coverPath.value];
      }
    }
    assert folders[..|folders|] == folders;
  }

  // ---------------------------------------------------------------------------
  // create_mosaic

  /** A cover pasted at pixel position (x, y). */
  datatype Tile = Tile(cover: string, x: int, y: int)

  /** Row-major placement: tile `i` goes to column `i % cols`, row `i // cols`. */
  function TileAt(cover: string, i: nat, tileSize: nat, cols: nat): Tile
    requires cols > 0
  {
    Tile(cover, (i % cols) * tileSize, (i / cols) * tileSize)
  }

  /** The tiles pasted for the first `n` covers: each cover that can be opened, at its slot. */
  function LayoutUpTo(covers: seq<string>, tileSize: nat, cols: nat, loadable: string -> bool, n: nat): (r: seq<Tile>)
    requires n <= |covers| && (n > 0 ==> cols > 0)
    ensures |r| <= n
  {
    if n == 0 then []
    else
      var init := LayoutUpTo(covers, tileSize, cols, loadable, n - 1);
      if loadable(covers[n - 1]) then init + [TileAt(covers[n - 1], n - 1, tileSize, cols)] else init
  }

  /** The number of covers placed: all of them, but no more than the grid holds. */
  function Placed(covers: seq<string>, cols: nat, rows: nat): (n: nat)
    ensures n <= |covers| && n <= cols * rows
    ensures n == |covers| || n == cols * rows
  {
    if |covers| < cols * rows then |covers| else cols * rows
  }

  /** The slot a tile's position names, reading the grid row by row. */
  function Slot(t: Tile, tileSize: nat, cols: nat): int
    requires tileSize > 0
  {
    (t.y / tileSize) * cols + t.x / tileSize
  }

  lemma MulMonotone(a: nat, b: nat, t: nat)
    requires a <= b
    ensures a * t <= b * t
  {
    assert b * t == a * t + (b - a) * t;
  }

  lemma MulDivCancel(a: nat, t: nat)
    requires t > 0
    ensures (a * t) / t == a
  {
    var q := (a * t) / t;
    var r := (a * t) % t;
    assert a * t == q * t + r;
    if a > q {
      assert (q + 1) * t == q * t + t;
      MulMonotone(q + 1, a, t);
    }
  }

  /** The tile fits on a canvas of `cols` by `rows` tiles. */
  predicate InCanvas(t: Tile, tileSize: nat, cols: nat, rows: nat)
  {
    0 <= t.x && t.x + tileSize <= cols * tileSize && 0 <= t.y && t.y + tileSize <= rows * tileSize
  }

  /** Slot `i` of a grid of `cols` by `rows` is in a row below `rows`. */
  lemma RowBelow(i: nat, cols: nat, rows: nat)
    requires i < cols * rows
    ensures cols > 0 && i / cols < rows
  {
    if cols > 0 && i / cols >= rows {
      MulMonotone(rows, i / cols, cols);
    }
  }

  /** A tile that starts in column (or row) `c` of `cols` ends inside the canvas. */
  lemma EdgeWithin(c: nat, cols: nat, t: nat)
    requires c < cols
    ensures c * t + t <= cols * t
  {
    MulMonotone(c + 1, cols, t);
    assert (c + 1) * t == c * t + t;
  }

  /** Tile `i` of a grid of `cols` by `rows` lies inside the canvas, and its position gives back `i`. */
  lemma TileInside(cover: string, i: nat, tileSize: nat, cols: nat, rows: nat)
    requires i < cols * rows
    ensures cols > 0
    ensures InCanvas(TileAt(cover, i, tileSize, cols), tileSize, cols, rows)
    ensures tileSize > 0 ==> Slot(TileAt(cover, i, tileSize, cols), tileSize, cols) == i
  {
    RowBelow(i, cols, rows);
    EdgeWithin(i % cols, cols, tileSize);
    EdgeWithin(i / cols, rows, tileSize);
    if tileSize > 0 {
      MulDivCancel(i % cols, tileSize);
      MulDivCancel(i / cols, tileSize);
    }
  }

  /** Every placed tile lies inside the canvas. */
  lemma {:induction false} LayoutInside(covers: seq<string>, tileSize: nat, cols: nat, rows: nat,
                                        loadable: string -> bool, n: nat)
    requires n <= |covers| && n <= cols * rows && (n > 0 ==> cols > 0)
    ensures forall a :: 0 <= a < |LayoutUpTo(covers, tileSize, cols, loadable, n)| ==>
      InCanvas(LayoutUpTo(covers, tileSize, cols, loadable, n)[a], tileSize, cols, rows)
  {
    if n > 0 {
      LayoutInside(covers, tileSize, cols, rows, loadable, n - 1);
      var init := LayoutUpTo(covers, tileSize, cols, loadable, n - 1);
      if loadable(covers[n - 1]) {
        var t := TileAt(covers[n - 1], n - 1, tileSize, cols);
        TileInside(covers[n - 1], n - 1, tileSize, cols, rows);
        var l := init + [t];
        forall a | 0 <= a < |l|
          ensures InCanvas(l[a], tileSize, cols, rows)
        {
          if a < |init| {
            assert l[a] == init[a];
          }
        }
      }
    }
  }

  /**
   * With a positive tile size the placed tiles name strictly increasing slots below `n`, so
   * no two share a position.
   */
  lemma {:induction false} LayoutSlots(covers: seq<string>, tileSize: nat, cols: nat, rows: nat,
                                       loadable: string -> bool, n: nat)
    requires tileSize > 0 && n <= |covers| && n <= cols * rows && (n > 0 ==> cols > 0)
    ensures forall a :: 0 <= a < |LayoutUpTo(covers, tileSize, cols, loadable, n)| ==>
      Slot(LayoutUpTo(covers, tileSize, cols, loadable, n)[a], tileSize, cols) < n
    ensures forall a, b :: 0 <= a < b < |LayoutUpTo(covers, tileSize, cols, loadable, n)| ==>
      Slot(LayoutUpTo(covers, tileSize, cols, loadable, n)[a], tileSize, cols) <
      Slot(LayoutUpTo(covers, tileSize, cols, loadable, n)[b], tileSize, cols)
  {
    if n > 0 {
      LayoutSlots(covers, tileSize, cols, rows, loadable, n - 1);
      var init := LayoutUpTo(covers, tileSize, cols, loadable, n - 1);
      if loadable(covers[n - 1]) {
        var t := TileAt(covers[n - 1], n - 1, tileSize, cols);
        TileInside(covers[n - 1], n - 1, tileSize, cols, rows);
        var l := init + [t];
        forall a, b | 0 <= a < b < |l|
          ensures Slot(l[a], tileSize, cols) < Slot(l[b], tileSize, cols)
        {
          if b == |init| {
            assert l[a] == init[a];
          } else {
            assert l[a] == init[a] && l[b] == init[b];
          }
        }
        forall a | 0 <= a < |l|
          ensures Slot(l[a], tileSize, cols) < n
        {
          if a < |init| {
            assert l[a] == init[a];
          }
        }
      }
    }
  }

  /** Two tiles with different slots are at different positions. */
  lemma SlotsApart(s: Tile, t: Tile, tileSize: nat, cols: nat)
    requires tileSize > 0 && Slot(s, tileSize, cols) != Slot(t, tileSize, cols)
    ensures (s.x, s.y) != (t.x, t.y)
  {
  }

  /** The mosaic image being filled: its size and the tiles pasted so far, in order. */
  class Mosaic {
    const width: int
    const height: int
    var tiles: seq<Tile>

    /** `Image.new("RGB", (width, height))`. */
    constructor (width: int, height: int)
      ensures this.width == width && this.height == height && tiles == []
    {
      this.width := width;
      this.height := height;
      tiles := [];
    }

    /** `mosaic.paste(cover, (x, y))`. */
    method Paste(cover: string, x: int, y: int)
      modifies this
      ensures tiles == old(tiles) + [Tile(cover, x, y)]
    {
      tiles := tiles + [Tile(cover, x, y)];
    }
  }

  /**
   * `create_mosaic(output_path, tile_size, grid_size)` on the collected covers: no covers, no
   * mosaic; otherwise a canvas of cols * tile by rows * tile and the covers that open pasted
   * in order, stopping once the grid is full. `loadable` says whether opening and resizing
   * a cover succeeds.
   */
  method CreateMosaic(covers: seq<string>, tileSize: nat, cols: nat, rows: nat, loadable: string -> bool)
    returns (mosaic: Option<Mosaic>)
    ensures covers == [] <==> mosaic.None?
    ensures mosaic.Some? ==>
      (fresh(mosaic.value) && mosaic.value.width == cols * tileSize && mosaic.value.height == rows * tileSize &&
       mosaic.value.tiles == LayoutUpTo(covers, tileSize, cols, loadable, Placed(covers, cols, rows)))
  {
    if covers == [] {
      return None;
    }
    var m := new Mosaic(cols * tileSize, rows * tileSize);
    var index := 0;
    while index < |covers|
      invariant 0 <= index <= Placed(covers, cols, rows)
      invariant m.tiles == LayoutUpTo(covers, tileSize, cols, loadable, index)
      decreases |covers| - index
    {
      if index >= cols * rows {
        break;
      }
      if loadable(covers[index]) {
        var x := (index % cols) * tileSize;
        var y := (index / cols) * tileSize;
        m.Paste(covers[index], x, y);
      }
      index := index + 1;
    }
    return Some(m);
  }
}
