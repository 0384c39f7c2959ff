// A similarity session: the depth-bounded expansion from the query tracks, the m3u playlist
// written from the collected paths, and the gate that lets feedback reach the trainer.
module SimilaritySession {
  import opened Wrappers
  import PyStr
  import PyDict
  import SN = SimilarityNeighbours
  import Feedback
  import T = Trainer

  /** `max_recursion_level` of `run_similarity`. */
  const MaxRecursionLevel := 1

  /** Neighbours asked for per track. */
  const NeighboursPerTrack := 10

  /** Feedback entries needed before training: the origin and ten rated neighbours. */
  const FeedbackSize := 11

  // ---------------------------------------------------------------------------
  // track_similarity_processing

  /**
   * What the expansion reads: a track's normalised feature row (None when the row is
   * missing), a track's `title_path` (None when the track is missing) and the neighbour
   * index's answer for a query vector and a neighbour count.
   */
  datatype Library = Library(
    features: int -> Option<seq<real>>,
    titlePath: int -> Option<string>,
    annoy: seq<real> -> nat -> seq<SN.Neighbor>)

  /** The index never answers with more neighbours than it was asked for. */
  ghost predicate Bounded(lib: Library)
  {
    forall v, n :: |lib.annoy(v)(n)| <= n
  }

  function Height(depth: int, maxDepth: int): nat
  {
    if depth >= maxDepth then 0 else maxDepth - depth
  }

  function Similar(lib: Library, track: int, f: seq<real>): (r: seq<SN.Neighbor>)
    requires Bounded(lib)
    ensures |r| <= NeighboursPerTrack + 1
    ensures forall i :: 0 <= i < |r| ==> r[i].id != track
  {
    SN.SearchSimilarTracks(track, NeighboursPerTrack, lib.annoy(f))
  }

  /**
   * The paths `track_similarity_processing` appends to `file_paths`: nothing at or below the
   * depth limit; otherwise the track's own path, then for each neighbour its path followed by
   * what the neighbour's expansion one level down appends. A missing feature row or track
   * is a TypeError (subscripting None).
   */
  function Visit(lib: Library, track: int, depth: int, maxDepth: int, doM3u: bool): (r: Result<seq<string>>)
    requires Bounded(lib)
    ensures r.Err? ==> r.error == TypeError
    decreases Height(depth, maxDepth), 1, 0
  {
    if depth >= maxDepth then Ok([])
    else match lib.features(track)
      case None => Err(TypeError)
      case Some(f) =>
        match lib.titlePath(track)
        case None => Err(TypeError)
        case Some(p) => Prepend(if doM3u then [p] else [], VisitAll(lib, Similar(lib, track, f), 0, depth, maxDepth, doM3u))
  }

  /** The neighbours from position `i` on, each followed by its own expansion. */
  function VisitAll(lib: Library, sims: seq<SN.Neighbor>, i: nat, depth: int, maxDepth: int, doM3u: bool): (r: Result<seq<string>>)
    requires Bounded(lib) && depth < maxDepth && i <= |sims|
    ensures r.Err? ==> r.error == TypeError
    decreases Height(depth, maxDepth), 0, |sims| - i
  {
    if i == |sims| then Ok([])
    else match lib.titlePath(sims[i].id)
      case None => Err(TypeError)
      case Some(p) =>
        match Visit(lib, sims[i].id, depth + 1, maxDepth, false)
        case Err(e) => Err(e)
        case Ok(sub) => Prepend((if doM3u then [p] else []) + sub, VisitAll(lib, sims, i + 1, depth, maxDepth, doM3u))
  }

  /** Paths appended before an outcome: an error stays an error. */
  function Prepend(head: seq<string>, r: Result<seq<string>>): Result<seq<string>>
  {
    match r
    case Ok(tail) => Ok(head + tail)
    case Err(e) => Err(e)
  }

  /**
   * `track_similarity_processing(net, cursor, file_paths, track, current_depth, max_depth, do_m3u)`:
   * returns the list after the appends, or the error that escapes.
   */
  method TrackSimilarityProcessing(lib: Library, filePaths: seq<string>, track: int, depth: int, maxDepth: int, doM3u: bool)
    returns (r: Result<seq<string>>)
    requires Bounded(lib)
    ensures r == Prepend(filePaths, Visit(lib, track, depth, maxDepth, doM3u))
    decreases Height(depth, maxDepth), 1
  {
    if depth >= maxDepth {
      assert filePaths + [] == filePaths;
      return Ok(filePaths);
    }
    var features := lib.features(track);
    if features.None? {
      return Err(TypeError);
    }
    var similar := Similar(lib, track, features.value);
    var main := lib.titlePath(track);
    if main.None? {
      return Err(TypeError);
    }
    var paths := filePaths;
    if doM3u {
      paths := paths + [main.value];
    }
    ghost var head := if doM3u then [main.value] else [];
    assert Visit(lib, track, depth, maxDepth, doM3u) == Prepend(head, VisitAll(lib, similar, 0, depth, maxDepth, doM3u));
    PrependTwice(filePaths, head, VisitAll(lib, similar, 0, depth, maxDepth, doM3u));
    assert paths == filePaths + head;
    for i := 0 to |similar|
      invariant Prepend(filePaths, Visit(lib, track, depth, maxDepth, doM3u)) ==
                Prepend(paths, VisitAll(lib, similar, i, depth, maxDepth, doM3u))
    {
      var sim := lib.titlePath(similar[i].id);
      if sim.None? {
        return Err(TypeError);
      }
      ghost var prior := paths;
      if doM3u {
        paths := paths + [sim.value];
      }
      var sub := TrackSimilarityProcessing(lib, paths, similar[i].id, depth + 1, maxDepth, false);
      if sub.Err? {
        return Err(sub.error);
      }
      assert paths == prior + (if doM3u then [sim.value] else []);
      assert Ok(sub.value) == Prepend(paths, Visit(lib, similar[i].id, depth + 1, maxDepth, false));
      VisitAllStep(lib, similar, i, depth, maxDepth, doM3u, prior, sub.value);
      paths := sub.value;
    }
    assert VisitAll(lib, similar, |similar|, depth, maxDepth, doM3u) == Ok([]);
    assert paths + [] == paths;
    return Ok(paths);
  }

  /**
   * One neighbour handled: `prior` is the list before its path was added and `after` the list
   * its expansion left; the remaining neighbours continue from `after`.
   */
  lemma VisitAllStep(lib: Library, sims: seq<SN.Neighbor>, i: nat, depth: int, maxDepth: int, doM3u: bool,
                     prior: seq<string>, after: seq<string>)
    requires Bounded(lib) && depth < maxDepth && i < |sims| && lib.titlePath(sims[i].id).Some?
    requires Ok(after) == Prepend(prior + (if doM3u then [lib.titlePath(sims[i].id).value] else []),
                                  Visit(lib, sims[i].id, depth + 1, maxDepth, false))
    ensures Prepend(prior, VisitAll(lib, sims, i, depth, maxDepth, doM3u)) ==
            Prepend(after, VisitAll(lib, sims, i + 1, depth, maxDepth, doM3u))
  {
    var h := if doM3u then [lib.titlePath(sims[i].id).value] else [];
    var sub := Visit(lib, sims[i].id, depth + 1, maxDepth, false).value;
    assert after == (prior + h) + sub;
    PrependTwice(prior, h + sub, VisitAll(lib, sims, i + 1, depth, maxDepth, doM3u));
    assert prior + (h + sub) == after;
  }

  lemma PrependTwice(a: seq<string>, b: seq<string>, r: Result<seq<string>>)
    ensures Prepend(a, Prepend(b, r)) == Prepend(a + b, r)
  {
    if r.Ok? {
      assert a + (b + r.value) == (a + b) + r.value;
    }
  }

  lemma PrependNothing(r: Result<seq<string>>)
    ensures Prepend([], r) == r
  {
    if r.Ok? {
      assert [] + r.value == r.value;
    }
  }

  /** With `do_m3u=False` nothing is ever appended, at any depth. */
  lemma {:induction false} SilentVisit(lib: Library, track: int, depth: int, maxDepth: int)
    requires Bounded(lib)
    ensures Visit(lib, track, depth, maxDepth, false).Ok? ==> Visit(lib, track, depth, maxDepth, false).value == []
    decreases Height(depth, maxDepth), 1, 0
  {
    if depth < maxDepth {
      var f := lib.features(track);
      if f.Some? && lib.titlePath(track).Some? {
        SilentVisitAll(lib, Similar(lib, track, f.value), 0, depth, maxDepth);
      }
    }
  }

  lemma {:induction false} SilentVisitAll(lib: Library, sims: seq<SN.Neighbor>, i: nat, depth: int, maxDepth: int)
    requires Bounded(lib) && depth < maxDepth && i <= |sims|
    ensures VisitAll(lib, sims, i, depth, maxDepth, false).Ok? ==> VisitAll(lib, sims, i, depth, maxDepth, false).value == []
    decreases Height(depth, maxDepth), 0, |sims| - i
  {
    if i < |sims| && lib.titlePath(sims[i].id).Some? {
      SilentVisit(lib, sims[i].id, depth + 1, maxDepth);
      SilentVisitAll(lib, sims, i + 1, depth, maxDepth);
    }
  }

  /**
   * One level above the limit the neighbours are not expanded: the run succeeds exactly when
   * every neighbour's track exists, and then appends their paths in order (or nothing).
   */
  lemma {:induction false} LastLevel(lib: Library, sims: seq<SN.Neighbor>, i: nat, depth: int, maxDepth: int, doM3u: bool)
    requires Bounded(lib) && depth + 1 == maxDepth && i <= |sims|
    ensures var r := VisitAll(lib, sims, i, depth, maxDepth, doM3u);
      (r.Ok? <==> forall k :: i <= k < |sims| ==> lib.titlePath(sims[k].id).Some?) &&
      (r.Ok? ==> |r.value| == (if doM3u then |sims| - i else 0) &&
                 forall k :: i <= k < |sims| && doM3u ==> r.value[k - i] == lib.titlePath(sims[k].id).value)
    decreases |sims| - i
  {
    if i < |sims| {
      LastLevel(lib, sims, i + 1, depth, maxDepth, doM3u);
      var r := VisitAll(lib, sims, i, depth, maxDepth, doM3u);
      var rest := VisitAll(lib, sims, i + 1, depth, maxDepth, doM3u);
      if lib.titlePath(sims[i].id).Some? {
        assert Visit(lib, sims[i].id, depth + 1, maxDepth, false) == Ok([]);
        if rest.Ok? && doM3u {
          assert r.value == [lib.titlePath(sims[i].id).value] + rest.value;
          forall k | i < k < |sims| ensures r.value[k - i] == lib.titlePath(sims[k].id).value {
            assert r.value[k - i] == rest.value[k - (i + 1)];
          }
        }
      }
    }
  }

  /**
   * With `max_recursion_level = 1`, expanding a query track appends the track's own path and
   * then one path per neighbour found, in the index's order: at most eleven neighbours, and at
   * most ten when the index returns the query track itself among its answers. The expansion
   * fails exactly when the feature row, the track or one of the neighbours is missing.
   */
  lemma SessionPaths(lib: Library, track: int)
    requires Bounded(lib)
    ensures var r := Visit(lib, track, 0, MaxRecursionLevel, true);
      (r.Ok? <==> lib.features(track).Some? && lib.titlePath(track).Some? &&
                  forall k :: 0 <= k < |Similar(lib, track, lib.features(track).value)| ==>
                    lib.titlePath(Similar(lib, track, lib.features(track).value)[k].id).Some?) &&
      (r.Ok? ==> var sims := Similar(lib, track, lib.features(track).value);
                 |r.value| == 1 + |sims| <= 1 + NeighboursPerTrack + 1 &&
                 r.value[0] == lib.titlePath(track).value &&
                 forall k :: 0 <= k < |sims| ==> r.value[k + 1] == lib.titlePath(sims[k].id).value)
  {
    var f := lib.features(track);
    if f.Some? && lib.titlePath(track).Some? {
      LastLevel(lib, Similar(lib, track, f.value), 0, 0, MaxRecursionLevel, true);
    }
  }

  /** When the index lists the query track among its own answers, at most ten neighbours remain. */
  lemma SelfAnswerLeavesTen(lib: Library, track: int, f: seq<real>, selfDistance: real)
    requires Bounded(lib)
    requires SN.Neighbor(track, selfDistance) in lib.annoy(f)(NeighboursPerTrack + 1)
    ensures |Similar(lib, track, f)| <= NeighboursPerTrack
  {
    SN.SearchDropsQueryEntry(track, NeighboursPerTrack, lib.annoy(f), selfDistance);
  }

  // ---------------------------------------------------------------------------
  // create_m3u_playlist

  const M3uHeader := "#EXTM3U"

  /** A path under "/mnt/" becomes a Windows path: "/mnt/" dropped, "/" to "\", the first "\" to ":\". */
  function PlaylistEntry(path: string): string
  {
    if PyStr.StartsWith(path, "/mnt/") then
      PyStr.ReplaceFirst(PyStr.ReplaceAll(PyStr.ReplaceAll(path, "/mnt/", ""), "/", "\\"), "\\", ":\\")
    else path
  }

  /** The file's text: the header line, then one line per path. */
  function M3u(paths: seq<string>): string
  {
    M3uHeader + "\n" + Lines(paths)
  }

  function Lines(paths: seq<string>): string
  {
    if paths == [] then [] else PlaylistEntry(paths[0]) + "\n" + Lines(paths[1..])
  }

  /** `create_m3u_playlist(file_paths, playlist_path)`: the text written to the playlist file. */
  method CreateM3uPlaylist(filePaths: seq<string>) returns (text: string)
    ensures text == M3u(filePaths)
  {
    text := M3uHeader + "\n";
    for i := 0 to |filePaths|
      invariant text + Lines(filePaths[i..]) == M3u(filePaths)
    {
      var path := filePaths[i];
      if PyStr.StartsWith(path, "/mnt/") {
        path := PyStr.ReplaceFirst(PyStr.ReplaceAll(PyStr.ReplaceAll(path, "/mnt/", ""), "/", "\\"), "\\", ":\\");
      }
      assert filePaths[i..][1..] == filePaths[i + 1..];
      text := text + path + "\n";
    }
    assert filePaths[|filePaths|..] == [];
  }

  /** Paths outside "/mnt/" are written as they are. */
  lemma PlainPathUnchanged(path: string)
    requires !PyStr.StartsWith(path, "/mnt/")
    ensures PlaylistEntry(path) == path
  {
  }

  /**
   * "/mnt/<d>/<rest>" becomes "<d>:\<rest>" with every "/" of the rest turned into "\"
   * (so "/mnt/c/x/y" becomes "c:\x\y"), provided no further "/mnt/" follows the prefix.
   */
  lemma MountedPath(d: char, rest: string)
    requires d != '/' && d != '\\'
    requires !PyStr.Contains([d] + "/" + rest, "/mnt/")
    ensures PlaylistEntry("/mnt/" + [d] + "/" + rest) == [d] + ":\\" + PyStr.ReplaceAll(rest, "/", "\\")
  {
    var t := [d] + "/" + rest;
    assert ("/mnt/" + t)[..5] == "/mnt/";
    DropMount(t);
    PyStr.ReplaceAllAbsent(t, "/mnt/", "");
    assert PyStr.ReplaceAll("/mnt/" + t, "/mnt/", "") == t;
    SlashesAfterDrive(d, rest);
    assert PyStr.ReplaceAll(t, "/", "\\") == [d] + "\\" + PyStr.ReplaceAll(rest, "/", "\\");
    FirstBackslash(d, PyStr.ReplaceAll(rest, "/", "\\"));
    assert PyStr.StartsWith("/mnt/" + t, "/mnt/");
    assert "/mnt/" + [d] + "/" + rest == "/mnt/" + t;
  }

  lemma DropMount(t: string)
    ensures PyStr.ReplaceAll("/mnt/" + t, "/mnt/", "") == PyStr.ReplaceAll(t, "/mnt/", "")
  {
    var path := "/mnt/" + t;
    assert path[..5] == "/mnt/" && path[5..] == t;
  }

  lemma SlashesAfterDrive(d: char, rest: string)
    requires d != '/'
    ensures PyStr.ReplaceAll([d] + "/" + rest, "/", "\\") == [d] + "\\" + PyStr.ReplaceAll(rest, "/", "\\")
  {
    var t := [d] + "/" + rest;
    assert t[..1] != "/" && t[1..] == "/" + rest;
    assert ("/" + rest)[..1] == "/" && ("/" + rest)[1..] == rest;
  }

  lemma FirstBackslash(d: char, x: string)
    requires d != '\\'
    ensures PyStr.ReplaceFirst([d] + "\\" + x, "\\", ":\\") == [d] + ":\\" + x
  {
    var u := [d] + "\\" + x;
    assert !PyStr.StartsWith(u, "\\");
    assert u[1..] == "\\" + x;
    assert PyStr.StartsWith(u[1..], "\\");
    assert u[1..][1..] == x;
  }

  /** An entry has no line break unless its path had one. */
  lemma EntryHasNoBreak(path: string)
    requires '\n' !in path
    ensures '\n' !in PlaylistEntry(path)
  {
    if PyStr.StartsWith(path, "/mnt/") {
      var a := PyStr.ReplaceAll(path, "/mnt/", "");
      var b := PyStr.ReplaceAll(a, "/", "\\");
      PyStr.ReplaceAllChars(path, "/mnt/", "");
      PyStr.ReplaceAllChars(a, "/", "\\");
      PyStr.ReplaceFirstChars(b, "\\", ":\\");
    }
  }

  /**
   * The playlist reads back line by line: the header, then each path's entry in order,
   * then the empty remainder after the final line break.
   */
  lemma {:induction false} M3uLines(paths: seq<string>)
    requires forall k :: 0 <= k < |paths| ==> '\n' !in paths[k]
    ensures PyStr.Split(M3u(paths), {'\n'}) ==
      [M3uHeader] + seq(|paths|, k requires 0 <= k < |paths| => PlaylistEntry(paths[k])) + [""]
  {
    PyStr.SplitLine(M3uHeader, '\n', Lines(paths), {'\n'});
    LinesSplit(paths);
  }

  lemma {:induction false} LinesSplit(paths: seq<string>)
    requires forall k :: 0 <= k < |paths| ==> '\n' !in paths[k]
    ensures PyStr.Split(Lines(paths), {'\n'}) ==
      seq(|paths|, k requires 0 <= k < |paths| => PlaylistEntry(paths[k])) + [""]
  {
    if paths != [] {
      var e := PlaylistEntry(paths[0]);
      EntryHasNoBreak(paths[0]);
      forall i | 0 <= i < |e| ensures e[i] !in {'\n'} {
        assert e[i] in e;
      }
      PyStr.SplitLine(e, '\n', Lines(paths[1..]), {'\n'});
      LinesSplit(paths[1..]);
    }
  }

  // ---------------------------------------------------------------------------
  // prepare_feedback

  const FeedbackLearningRate := 0.001
  const FeedbackMaxEpochs := 200
  const FeedbackPatience := 10

  /** Training starts only when the feedback dict has exactly eleven entries. */
  predicate Trains(feedback: PyDict.Dict<int, int>)
  {
    |feedback| == FeedbackSize
  }

  /**
   * `prepare_feedback`: the origin's feature row is read first (a missing row is a TypeError);
   * the neighbours are shown for rating, and with eleven entries the curses trainer runs on
   * them (lr 0.001, 200 epochs, patience 10) and its weights are the result; otherwise
   * nothing is trained (None).
   */
  function PrepareFeedback(similarTracks: seq<SN.Neighbor>, origin: int, input: seq<string>, configWeights: seq<real>,
                           features: int -> Option<seq<real>>, sqrt: real -> real): (r: Result<Option<seq<real>>>)
    ensures features(origin).None? ==> r == Err(TypeError)
    ensures features(origin).Some? ==>
      (r == Ok(None) <==> !Trains(Feedback.Collect(origin, Ids(similarTracks), input).ratings))
    ensures r.Ok? && r.value.Some? ==> T.Clamped(r.value.value) && |r.value.value| == |configWeights|
    ensures r.Err? ==> r.error in {KeyError, IndexError, ValueError, TypeError, AttributeError}
  {
    match features(origin)
    case None => Err(TypeError)
    case Some(originVec) =>
      var fb := Feedback.Collect(origin, Ids(similarTracks), input).ratings;
      if |fb| == FeedbackSize then
        var env := T.CursesEnv(similarTracks, fb, origin, originVec, features, sqrt);
        T.TrainOutcomeProperties(env, configWeights, FeedbackLearningRate, FeedbackMaxEpochs, FeedbackPatience);
        T.RunErrorKinds(env, configWeights, FeedbackLearningRate, FeedbackPatience, FeedbackMaxEpochs);
        match T.CursesOutcome(similarTracks, fb, origin, configWeights, features, sqrt,
                              FeedbackLearningRate, FeedbackMaxEpochs, FeedbackPatience)
        case Err(e) => Err(e)
        case Ok(w) => Ok(Some(w))
      else Ok(None)
  }

  /**
   * The names `similarity/train_weights.py` defines at module level; its trainer is
   * `train_feature_weights_curses`.
   */
  const TrainWeightsNames: set<string> :=
    {"TrainScreen", "map_rating_to_similarity", "train_feature_weights_curses", "get_feature_vector"}

  /** `from similarity.train_weights import name`: the bound value, or ImportError for an undefined name. */
  function ImportFromTrainWeights(name: string): (r: Result<string>)
    ensures r.Ok? <==> name in TrainWeightsNames
    ensures r.Ok? ==> r.value == name
    ensures r.Err? ==> r.error == ImportError
  {
    if name in TrainWeightsNames then Ok(name) else Err(ImportError)
  }

  /**
   * The module imports `train_feature_weights`, which the training module does not define:
   * loading it raises ImportError, so `prepare_feedback` never runs. The trainer that matches
   * the call `curses.wrapper(f, cursor, similar_tracks, feedback, origin, ...)` is
   * `train_feature_weights_curses`, which `PrepareFeedback` uses.
   */
  lemma SimilarityMainImportFails()
    ensures ImportFromTrainWeights("train_feature_weights") == Err(ImportError)
    ensures ImportFromTrainWeights("train_feature_weights_curses") == Ok("train_feature_weights_curses")
  {
    assert "train_feature_weights" != "train_feature_weights_curses";
  }

  /** `[x[0] for x in similar_tracks]`. */
  function Ids(sims: seq<SN.Neighbor>): (r: seq<int>)
    ensures |r| == |sims| && forall k :: 0 <= k < |sims| ==> r[k] == sims[k].id
  {
    seq(|sims|, k requires 0 <= k < |sims| => sims[k].id)
  }

  /**
   * With ten distinct neighbours (none of them the origin), training happens exactly when
   * the user rated all ten without quitting.
   */
  lemma TrainsIffCompleted(similarTracks: seq<SN.Neighbor>, origin: int, input: seq<string>)
    requires |similarTracks| == NeighboursPerTrack
    requires forall a, b :: 0 <= a < b < |similarTracks| ==> similarTracks[a].id != similarTracks[b].id
    requires forall k :: 0 <= k < |similarTracks| ==> similarTracks[k].id != origin
    ensures Trains(Feedback.Collect(origin, Ids(similarTracks), input).ratings) <==>
            Feedback.Collect(origin, Ids(similarTracks), input).completed
  {
    var ids := Ids(similarTracks);
    assert origin !in ids;
    Feedback.CollectShape(origin, ids, input);
  }
}
