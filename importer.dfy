// The importer's bookkeeping: reading a tag value, the fallback MusicBrainz ids, the CSV
// progress file of audio files to import, and the database progress table that
// `get_pending_files` extends.
module Importer {
  import opened Wrappers
  import PyStr
  import PyPath
  import Seqs

  // ---------------------------------------------------------------------------
  // get_tag

  /**
   * A tag value as the tagging library hands it over: a list (FLAC and Vorbis comments),
   * an ID3 frame with its text list, or any other value, given by its `str()`.
   */
  datatype TagValue = Items(items: seq<string>) | Frame(text: seq<string>) | Other(str: string)

  /** `get_tag(metadata, key, default)`. */
  function GetTag(metadata: map<string, TagValue>, key: string, default: Option<string>): (r: Result<Option<string>>)
    ensures r.Err? <==> key in metadata && metadata[key] == Items([])
    ensures r.Err? ==> r.error == IndexError
    ensures key !in metadata || metadata[key] == Frame([]) ==> r == Ok(default)
    ensures key in metadata && metadata[key] != Items([]) && metadata[key] != Frame([]) ==>
      r.Ok? && r.value.Some? && r.value.value == FirstText(metadata[key])
  {
    if key !in metadata then Ok(default)
    else match metadata[key]
      case Items(items) => if items == [] then Err(IndexError) else Ok(Some(items[0]))
      case Frame(text) => if text == [] then Ok(default) else Ok(Some(text[0]))
      case Other(str) => Ok(Some(str))
  }

  /** The text a non-empty value stands for: its first entry, or its `str()`. */
  function FirstText(v: TagValue): string
    requires v != Items([]) && v != Frame([])
  {
    match v
    case Items(items) => items[0]
    case Frame(text) => text[0]
    case Other(str) => str
  }

  /** A tag stored as a one-entry list or frame reads back as that entry, and an unset key as the default. */
  lemma GetTagStored(metadata: map<string, TagValue>, key: string, x: string, default: Option<string>)
    ensures GetTag(metadata[key := Items([x])], key, default) == Ok(Some(x))
    ensures GetTag(metadata[key := Frame([x])], key, default) == Ok(Some(x))
    ensures GetTag(metadata - {key}, key, default) == Ok(default)
  {
  }

  // ---------------------------------------------------------------------------
  // The fallback MusicBrainz ids

  /** Python truthiness of an optional string: present and not empty. */
  predicate Truthy(v: Option<string>)
  {
    v.Some? && v.value != ""
  }

  /** `a or b` on optional strings. */
  function Or(a: Option<string>, b: Option<string>): (r: Option<string>)
    ensures Truthy(r) <==> Truthy(a) || Truthy(b)
  {
    if Truthy(a) then a else b
  }

  /** An id as stored, and whether it came from the file (the `*_mb_id_valid` flag). */
  datatype MbId = MbId(id: string, valid: bool)

  /**
   * `get_tag(metadata, "TXXX:...") or musicbrainz_tags.get(...)`, replaced by a generated
   * id (`str(uuid.uuid4())`, here the parameter `generated`) when both are missing or empty.
   */
  function MbIdentity(fromTag: Option<string>, fromFrames: Option<string>, generated: string): (r: MbId)
    ensures r.valid <==> Truthy(fromTag) || Truthy(fromFrames)
    ensures Truthy(fromTag) ==> r.id == fromTag.value
    ensures !Truthy(fromTag) && Truthy(fromFrames) ==> r.id == fromFrames.value
    ensures !r.valid ==> r.id == generated
  {
    var found := Or(fromTag, fromFrames);
    if Truthy(found) then MbId(found.value, true) else MbId(generated, false)
  }

  /** Whatever the tags hold, the stored id is never empty, so every track, album and artist gets one. */
  lemma MbIdNeverEmpty(fromTag: Option<string>, fromFrames: Option<string>, generated: string)
    requires generated != ""
    ensures MbIdentity(fromTag, fromFrames, generated).id != ""
  {
  }

  // ---------------------------------------------------------------------------
  // The audio files of a directory tree

  /** `file_name.lower().endswith((".mp3", ".flac"))`. */
  predicate Importable(name: string)
  {
    PyStr.EndsWith(PyStr.Lower(name), ".mp3") || PyStr.EndsWith(PyStr.Lower(name), ".flac")
  }

  /** The importable files of one directory, joined onto it, in listing order. */
  function ImportableIn(root: string, names: seq<string>): (r: seq<string>)
    ensures |r| <= |names|
  {
    if names == [] then []
    else
      var init := ImportableIn(root, names[..|names| - 1]);
      var name := names[|names| - 1];
      if Importable(name) then init + [PyPath.Join(root, name)] else init
  }

  /** The importable files of a walk, directory by directory. */
  function ImportablePaths(walk: seq<PyPath.WalkEntry>): seq<string>
  {
    if walk == [] then []
    else ImportablePaths(walk[..|walk| - 1]) + ImportableIn(walk[|walk| - 1].root, walk[|walk| - 1].files)
  }

  /** Whether `p` is an importable file of the directory `root` joined onto it. */
  predicate FileIn(root: string, names: seq<string>, p: string)
  {
    exists j :: 0 <= j < |names| && Importable(names[j]) && p == PyPath.Join(root, names[j])
  }

  /** Whether `p` is an importable file of some directory of the walk. */
  predicate FileOf(walk: seq<PyPath.WalkEntry>, p: string)
  {
    exists i :: 0 <= i < |walk| && FileIn(walk[i].root, walk[i].files, p)
  }

  /** The last file of a directory is listed after the files before it when it is importable. */
  lemma ImportableInLast(root: string, names: seq<string>, p: string)
    requires names != []
    ensures p in ImportableIn(root, names) <==>
      p in ImportableIn(root, names[..|names| - 1]) ||
      (Importable(names[|names| - 1]) && p == PyPath.Join(root, names[|names| - 1]))
  {
  }

  /** An importable file of the directory is either one of the files before the last, or the last. */
  lemma FileInLast(root: string, names: seq<string>, p: string)
    requires names != []
    ensures FileIn(root, names, p) <==>
      FileIn(root, names[..|names| - 1], p) ||
      (Importable(names[|names| - 1]) && p == PyPath.Join(root, names[|names| - 1]))
  {
    var init := names[..|names| - 1];
    if FileIn(root, init, p) {
      var j :| 0 <= j < |init| && Importable(init[j]) && p == PyPath.Join(root, init[j]);
      assert names[j] == init[j];
    }
    if FileIn(root, names, p) {
      var j :| 0 <= j < |names| && Importable(names[j]) && p == PyPath.Join(root, names[j]);
      if j < |init| {
        assert init[j] == names[j];
      }
    }
  }

  /** A path is listed exactly when it is an importable file of the directory joined onto it. */
  lemma {:induction false} ImportableInMembers(root: string, names: seq<string>, p: string)
    ensures p in ImportableIn(root, names) <==> FileIn(root, names, p)
  {
    if names != [] {
      ImportableInMembers(root, names[..|names| - 1], p);
      ImportableInLast(root, names, p);
      FileInLast(root, names, p);
    }
  }

  /** A path is listed exactly when it is an importable file of some directory of the walk. */
  lemma {:induction false} ImportablePathsMembers(walk: seq<PyPath.WalkEntry>, p: string)
    ensures p in ImportablePaths(walk) <==> FileOf(walk, p)
  {
    if walk != [] {
      var init := walk[..|walk| - 1];
      var last := walk[|walk| - 1];
      ImportablePathsMembers(init, p);
      ImportableInMembers(last.root, last.files, p);
      assert forall i :: 0 <= i < |init| ==> init[i] == walk[i];
      Seqs.SomeBeforeOrLast(walk, (entry: PyPath.WalkEntry) => FileIn(entry.root, entry.files, p));
    }
  }

  /** The nested `os.walk` loops that list the importable files. */
  method CollectImportable(walk: seq<PyPath.WalkEntry>) returns (paths: seq<string>)
    ensures paths == ImportablePaths(walk)
  {
    paths := [];
    for i := 0 to |walk|
      invariant paths == ImportablePaths(walk[..i])
    {
      var entry := walk[i];
      ghost var before := paths;
      for j := 0 to |entry.files|
        invariant paths == before + ImportableIn(entry.root, entry.files[..j])
      {
        var name := entry.files[j];
        assert entry.files[..j + 1][..j] == entry.files[..j];
        if Importable(name) {
          paths := paths + [PyPath.Join(entry.root, name)];
        }
      }
      assert entry.files[..|entry.files|] == entry.files;
      assert walk[..i + 1][..i] == walk[..i];
    }
    assert walk[..|walk|] == walk;
  }

  // ---------------------------------------------------------------------------
  // The CSV progress file

  /** A row of the progress CSV. */
  datatype FileRow = FileRow(filePath: string, status: string)

  /** One "pending" row per path, in order. */
  function Pending(paths: seq<string>): (r: seq<FileRow>)
    ensures |r| == |paths| && forall i :: 0 <= i < |r| ==> r[i].filePath == paths[i] && r[i].status == "pending"
  {
    if paths == [] then [] else Pending(paths[..|paths| - 1]) + [FileRow(paths[|paths| - 1], "pending")]
  }

  /** Every row of a freshly written progress file is pending and names an importable file of the walk. */
  lemma InitialRows(walk: seq<PyPath.WalkEntry>, i: int)
    requires 0 <= i < |ImportablePaths(walk)|
    ensures var row := Pending(ImportablePaths(walk))[i];
      row.status == "pending" && FileOf(walk, row.filePath)
  {
    ImportablePathsMembers(walk, ImportablePaths(walk)[i]);
  }

  /** The paths of the rows with status `status`, in file order. */
  function PathsWithStatus(rows: seq<FileRow>, status: string): (r: seq<string>)
    ensures |r| <= |rows|
  {
    if rows == [] then []
    else
      var init := PathsWithStatus(rows[..|rows| - 1], status);
      if rows[|rows| - 1].status == status then init + [rows[|rows| - 1].filePath] else init
  }

  /** A path is listed exactly when some row with that status has it. */
  lemma {:induction false} PathsWithStatusMembers(rows: seq<FileRow>, status: string)
    ensures forall p :: p in PathsWithStatus(rows, status) <==> exists i :: 0 <= i < |rows| && rows[i] == FileRow(p, status)
  {
    if rows != [] {
      var init := rows[..|rows| - 1];
      PathsWithStatusMembers(init, status);
      forall p | p in PathsWithStatus(rows, status)
        ensures exists i :: 0 <= i < |rows| && rows[i] == FileRow(p, status)
      {
        if p in PathsWithStatus(init, status) {
          var i :| 0 <= i < |init| && init[i] == FileRow(p, status);
          assert rows[i] == init[i];
        } else {
          assert rows[|rows| - 1] == FileRow(p, status);
        }
      }
      forall p | exists i :: 0 <= i < |rows| && rows[i] == FileRow(p, status)
        ensures p in PathsWithStatus(rows, status)
      {
        var i :| 0 <= i < |rows| && rows[i] == FileRow(p, status);
        if i < |init| {
          assert init[i] == rows[i];
        }
      }
    }
  }

  /** The rows with path `path` set to `status`, the others as they were. */
  function Restatus(rows: seq<FileRow>, path: string, status: string): (r: seq<FileRow>)
    ensures |r| == |rows|
    ensures forall i :: 0 <= i < |rows| ==>
      r[i] == if rows[i].filePath == path then FileRow(path, status) else rows[i]
  {
    if rows == [] then []
    else
      var row := rows[|rows| - 1];
      Restatus(rows[..|rows| - 1], path, status) + [if row.filePath == path then row.(status := status) else row]
  }

  /**
   * After `update_file_status(path, status)`, a path is listed under status `s` exactly when:
   * it is `path`, `s` is `status` and the file has a row for it; or it is another path that
   * was listed under `s` before.
   */
  lemma StatusAfterUpdate(rows: seq<FileRow>, path: string, status: string, s: string, p: string)
    ensures p in PathsWithStatus(Restatus(rows, path, status), s) <==>
      if p == path then s == status && exists i :: 0 <= i < |rows| && rows[i].filePath == path
      else p in PathsWithStatus(rows, s)
  {
    var after := Restatus(rows, path, status);
    PathsWithStatusMembers(rows, s);
    PathsWithStatusMembers(after, s);
    if p == path && s == status && exists i :: 0 <= i < |rows| && rows[i].filePath == path {
      var i :| 0 <= i < |rows| && rows[i].filePath == path;
      assert after[i] == FileRow(p, s);
    }
    if p in PathsWithStatus(after, s) {
      var i :| 0 <= i < |after| && after[i] == FileRow(p, s);
      if p != path {
        assert rows[i] == after[i];
      }
    }
    if p != path && p in PathsWithStatus(rows, s) {
      var i :| 0 <= i < |rows| && rows[i] == FileRow(p, s);
      assert after[i] == rows[i];
    }
  }

  /** The progress CSV `import_progress.csv`: whether it exists, and its rows below the header. */
  class ProgressCsv {
    var present: bool
    var rows: seq<FileRow>

    constructor (present: bool, rows: seq<FileRow>)
      ensures this.present == present && this.rows == rows
    {
      this.present := present;
      this.rows := rows;
    }

    /** `initialize_progress_file(directory)`: an existing file is kept; otherwise every importable file is listed as pending. */
    method InitializeProgressFile(walk: seq<PyPath.WalkEntry>)
      modifies this
      ensures present
      ensures old(present) ==> rows == old(rows)
      ensures !old(present) ==> rows == Pending(ImportablePaths(walk))
    {
      if !present {
        var files := CollectImportable(walk);
        rows := Pending(files);
        present := true;
      }
    }

    /** `get_files_by_status(status)`: the paths with that status, in file order. */
    method GetFilesByStatus(status: string) returns (r: Result<seq<string>>)
      ensures !present ==> r == Err(FileNotFoundError)
      ensures present ==> r == Ok(PathsWithStatus(rows, status))
    {
      if !present {
        return Err(FileNotFoundError);
      }
      var pendingFiles := [];
      for i := 0 to |rows|
        invariant pendingFiles == PathsWithStatus(rows[..i], status)
      {
        assert rows[..i + 1][..i] == rows[..i];
        if rows[i].status == status {
          pendingFiles := pendingFiles + [rows[i].filePath];
        }
      }
      assert rows[..|rows|] == rows;
      return Ok(pendingFiles);
    }

    /** `update_file_status(path, status)`: the rows with that path get the new status; order and the other rows stay. */
    method UpdateFileStatus(path: string, status: string) returns (r: Result<()>)
      modifies this
      ensures present == old(present)
      ensures !present ==> r == Err(FileNotFoundError) && rows == old(rows)
      ensures present ==> r == Ok(()) && rows == Restatus(old(rows), path, status)
    {
      if !present {
        return Err(FileNotFoundError);
      }
      var updatedRows := [];
      for i := 0 to |rows|
        invariant updatedRows == Restatus(rows[..i], path, status)
      {
        assert rows[..i + 1][..i] == rows[..i];
        var row := rows[i];
        if row.filePath == path {
          row := row.(status := status);
        }
        updatedRows := updatedRows + [row];
      }
      assert rows[..|rows|] == rows;
      rows := updatedRows;
      return Ok(());
    }
  }

  // ---------------------------------------------------------------------------
  // The progress table and get_pending_files

  /** A row of the `import_progress` table: status and retry count. */
  datatype Progress = Progress(status: string, retries: nat)

  /** `record_progress(path, status)`: a new row with no retries, or the existing one with the new status and one more retry. */
  function Recorded(progress: map<string, Progress>, path: string, status: string): (r: Progress)
    ensures r.status == status
    ensures path in progress ==> r.retries == progress[path].retries + 1
    ensures path !in progress ==> r.retries == 0
  {
    if path in progress then Progress(status, progress[path].retries + 1) else Progress(status, 0)
  }

  /** The paths recorded as pending. */
  function Tracked(progress: map<string, Progress>): (r: set<string>)
    ensures forall p :: p in r <==> p in progress && progress[p].status == "pending"
  {
    set p | p in progress && progress[p].status == "pending"
  }

  /** The `import_progress` table, keyed by file path. */
  class ImportTable {
    var progress: map<string, Progress>

    constructor (progress: map<string, Progress>)
      ensures this.progress == progress
    {
      this.progress := progress;
    }

    /**
     * `record_progress(path, status)` as its authors meant it, with the cursor that
     * `execute_query` takes first: the path's row becomes `Recorded`.
     */
    method RecordProgress(path: string, status: string)
      modifies this
      ensures progress == old(progress)[path := Recorded(old(progress), path, status)]
    {
      progress := progress[path := Recorded(progress, path, status)];
    }

    /**
     * `get_pending_files(directory)`: every importable file not already pending is recorded
     * as pending, but only the files that were pending before are returned.
     */
    method GetPendingFiles(walk: seq<PyPath.WalkEntry>) returns (pending: set<string>)
      modifies this
      ensures pending == Tracked(old(progress))
      ensures forall p :: p in progress <==> p in old(progress) || p in ImportablePaths(walk)
      ensures forall p :: p in ImportablePaths(walk) ==> progress[p].status == "pending"
      ensures forall p :: p in ImportablePaths(walk) && p !in pending ==> progress[p] == Recorded(old(progress), p, "pending")
      ensures forall p :: p in old(progress) && (p !in ImportablePaths(walk) || p in pending) ==> progress[p] == old(progress)[p]
    {
      var trackedFiles := Tracked(progress);
      var files := CollectImportable(walk);
      var allFiles := set p | p in files;
      var newFiles := allFiles - trackedFiles;
      var toRecord := newFiles;
      while toRecord != {}
        invariant toRecord <= newFiles
        invariant forall q :: q in progress <==> q in old(progress) || q in newFiles - toRecord
        invariant forall q :: q in newFiles - toRecord ==> progress[q] == Recorded(old(progress), q, "pending")
        invariant forall q :: q in old(progress) && q !in newFiles - toRecord ==> progress[q] == old(progress)[q]
        decreases toRecord
      {
        var p :| p in toRecord;
        RecordProgress(p, "pending");
        toRecord := toRecord - {p};
      }
      pending := trackedFiles;
    }

    /**
     * `record_progress` as written: the SQL text goes where `execute_query` expects the
     * cursor, so `cursor.execute` raises AttributeError before anything is stored. The
     * handler calls `rollback()` on the module's connection: with one open (`connected`)
     * the error is printed and the call returns normally; with none the connection is
     * still None and a second AttributeError escapes. The table is never touched.
     */
    method RecordProgressAsWritten(path: string, status: string, connected: bool) returns (r: Result<()>)
      ensures r.Ok? <==> connected
      ensures r.Err? ==> r.error == AttributeError
    {
      if connected {
        r := Ok(());
      } else {
        r := Err(AttributeError);
      }
    }

    /**
     * `get_pending_files` as written: `execute_query` is called with the SQL text and
     * `fetch_all` only, so its `query` argument is missing and the call raises TypeError
     * before the directory is walked. The table is never touched.
     */
    method GetPendingFilesAsWritten(walk: seq<PyPath.WalkEntry>) returns (r: Result<set<string>>)
      ensures r.Err? && r.error == TypeError
    {
      r := Err(TypeError);
    }
  }

  /** Every intended `record_progress` call changes the table, which the call as written never does. */
  lemma RecordingChangesTable(progress: map<string, Progress>, path: string, status: string)
    ensures progress[path := Recorded(progress, path, status)] != progress
  {
    var updated := progress[path := Recorded(progress, path, status)];
    if path in progress {
      assert updated[path].retries == progress[path].retries + 1;
    } else {
      assert path in updated;
    }
  }

  /**
   * Whenever the walk holds an importable file that is not tracked, the table the intended
   * `get_pending_files` leaves behind differs from the one it found, while the call as
   * written raises before changing anything.
   */
  lemma PendingFilesChangeTable(before: map<string, Progress>, after: map<string, Progress>, walk: seq<PyPath.WalkEntry>, p: string)
    requires p in ImportablePaths(walk) && p !in Tracked(before)
    requires p in after && after[p] == Recorded(before, p, "pending")
    ensures after != before
  {
    RecordingChangesTable(before, p, "pending");
    assert before[p := Recorded(before, p, "pending")][p] == after[p];
    if p in before {
      assert after[p].retries != before[p].retries;
    }
  }
}
