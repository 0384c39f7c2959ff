# paula — a verified model of the music-library core

paula is a personal music-library manager. It scans a folder of audio files into an SQLite
catalogue and enriches it from MusicBrainz. It finds similar tracks from their audio
features and learns per-feature weights from the user's ratings. Everything is shown in a
terminal interface with a playlist table, a player, a spectrum visualiser, genre sliders and
a log. This project restates the decision logic of that core in Dafny and proves what the code
promises about it.

What is modelled, by area:

- **Similarity engine** (`SimilarityFeatures`, `SimilarityNeighbours`, `SimilaritySession`).
  - The flat MIN/MAX row of the catalogue and its even/odd split.
  - Min-max normalisation and the weighting of vectors before they enter the neighbour index.
  - Self-exclusion and the threshold filter of neighbour queries, batch slicing, and the top-100 pairwise scorer.
  - The depth-bounded recursive expansion that collects file paths, the m3u writer with its `/mnt/<drive>/` rewrite, and the gate that hands collected ratings to the trainer.
- **Feedback trainer** (`Trainer`, `Feedback`, and the worker in `DataTable`).
  - The curses prompt that accepts ratings 1..5 or `q`.
  - The rating-to-target map.
  - One gradient step per rated track, with clamping of the weights to [0, 2].
  - The epoch loop: best loss, a no-improvement counter, early stop at `patience`, and halving of the learning rate.
  - Both implementations are proved against one specification: the curses loop of `train_weights.py` and the background worker of the Textual table.
- **Configuration** (`ConfigLoader`): the JSON file of feature weights, its load errors, and the positional write-back of trained weights, with a load-after-update round trip.
- **Search box** (`Search`, `SearchFacts`): the `field: value` parser with its `and`/`or` splitting, and the SQL `WHERE` clause and parameters built from it.
- **Catalogue maintenance** (`Genre`, `Updater`, `AudioFiles`, `Importer`, `DatabaseHelper`, `Cover`).
  - Genre splitting, counting and categorising.
  - Date and length normalisation of MusicBrainz data, the CSV progress files and their status updates, and the retry schedule.
  - The file-system scan and the insert-or-reuse decisions for artists, albums and tracks.
  - The importer's tag reading and id fallbacks.
  - Query dispatch, the folder rewrite and the cover lookup of the database helper.
  - Writing an album cover from embedded art, and the tile layout of a cover mosaic.
- **Interface state** (`DataTable`, `Frames`, `AudioPlayer`, `Spectrum`, `GenreSliders`, `Logging`).
  - The playlist table's formatting, sort toggles and "Rate" column.
  - The frame generator of the terminal visualiser.
  - The player's playlist cursor and button states.
  - The spectrum widget's clamped settings and read position.
  - The genre sliders' weights and search window.
  - The log controller's history and replay.

Stateful parts of the source are Dafny classes whose methods state their whole new state:
the playlist table, the training worker, the configuration file, the progress files, the
catalogue, the disk and the mosaic canvas, the player, the visualiser, the sliders and the log.
Every loop of the source is a method with invariants, proved equal to a specification
function, and the properties are proved about those functions. Python behaviour the code relies on
is restated in the helper modules `PyStr` (string built-ins, `int()` and `str()`), `PyArith`
(floor division, modulo, `ceil`, truncation), `PyDict` (insertion-ordered dicts) and `PyPath`
(`os.path` on POSIX paths). Failures are `Result` values that name the Python exception the
code would raise. Floats are Dafny `real`s.

## Model

| member | source | states |
|---|---|---|
| SimilarityFeatures.Interleave | application/similarity/similarity_main.py:128-135 | the MIN/MAX row holds each feature's minimum at position 2i and its maximum at 2i+1, twice as long as the feature list |
| SimilarityFeatures.EvenPositions | application/similarity/similarity_main.py:146 | `row[::2]` has ceil(n/2) entries, entry i being row[2i] |
| SimilarityFeatures.OddPositions | application/similarity/similarity_main.py:147 | `row[1::2]` has floor(n/2) entries, entry i being row[2i+1] |
| SimilarityFeatures.SplitInterleave | application/similarity/similarity_main.py:128-147 | splitting the MIN/MAX row gives back exactly the minima and the maxima, so pair i belongs to feature i |
| SimilarityFeatures.NormalizeOne | application/similarity/similarity_main.py:424-427 | 0 at the minimum, 1 at the maximum, within [0, 1] between them, 0.0 when max = min, and it inverts to the raw value when max ≠ min |
| SimilarityFeatures.NormalizeFeatures | application/similarity/similarity_main.py:412-427 | elementwise over zip: length is the least of the three lengths, entry i is the scaled feature and lies in [0, 1] whenever the feature is within its bounds |
| SimilarityFeatures.PrecomputeFeatures | application/similarity/similarity_main.py:145-163 | every track keeps its id and stores its features normalised against the even/odd split of the MIN/MAX row, in track order |
| SimilarityFeatures.NormalizedTrackInUnitRange | application/similarity/similarity_main.py:424-427 | a track within the bounds normalises to a vector of its own length with every entry in [0, 1] |
| SimilarityFeatures.PrecomputedInUnitRange | application/similarity/similarity_main.py:154-163 | when every stored track lies within the column bounds, every stored normalised value is in [0, 1] and lengths are kept |
| SimilarityFeatures.Weighted | application/similarity/similarity_main.py:401 | the weighted vector is the elementwise product, of length min(\|w\|, \|f\|) |
| SimilarityFeatures.WeightedBounds | application/similarity/similarity_main.py:401 | weights in [0, 2] on normalised values in [0, 1] give weighted values in [0, 2] |
| SimilarityFeatures.UnitWeightsIdentity | application/similarity/similarity_main.py:401 | all-one weights of the right length leave a vector unchanged |
| SimilarityFeatures.BuildIndexItems | application/similarity/similarity_main.py:396-404 | each item added to the index is the track's id with its weighted vector, in order |
| SimilarityNeighbours.ExcludeQuery | application/similarity/similarity_main.py:446-451 | no surviving entry carries the query id, and an entry survives exactly when it was returned and its id differs from the query |
| SimilarityNeighbours.ExcludeQueryIsSubseq | application/similarity/similarity_main.py:446-451 | the survivors are a subsequence of the index's answer (order preserved) |
| SimilarityNeighbours.ExcludeQueryKeepsOrder | application/similarity/similarity_main.py:446-451 | an answer sorted by distance stays sorted after the query track is removed |
| SimilarityNeighbours.SearchSimilarTracks | application/similarity/similarity_main.py:430-453 | asks the index for num_results+1 neighbours; the result has at most num_results+1 entries, never the query id, and holds exactly the answers with another id |
| SimilarityNeighbours.SearchDropsQueryEntry | application/similarity/similarity_main.py:440-451 | when the query's own entry is among the answers, at most num_results remain |
| SimilarityNeighbours.ExcludeQueryShorter | application/similarity/similarity_main.py:446-451 | removing a present query entry strictly shortens the list |
| SimilarityNeighbours.QueryAnnoyForTracks | application/similarity/similarity_main.py:268-313 | the loop collects exactly QueryResults: for each batch id in order, each neighbour in order, (t1, t2, 1 - d) when 1 - d ≥ threshold and t2 ≠ t1 |
| SimilarityNeighbours.PairsForMember | application/similarity/similarity_main.py:302-305 | a triple is emitted for t1 iff some neighbour j gives it with score 1 - d ≥ threshold and t2 ≠ t1 |
| SimilarityNeighbours.QueryResultsMember | application/similarity/similarity_main.py:295-305 | a triple is in a batch's results iff some batch id and some neighbour of it produce it and it passes the threshold and self filters |
| SimilarityNeighbours.QueryResultsAppend | application/similarity/similarity_main.py:295-305 | querying two batches in turn gives the concatenation of their results |
| SimilarityNeighbours.Batches | application/similarity/similarity_main.py:236-239 | every batch is non-empty and at most batch_size long, and all but the last are full |
| SimilarityNeighbours.FlattenBatches | application/similarity/similarity_main.py:236-239 | concatenating the batches gives back the track ids exactly, in order |
| SimilarityNeighbours.BatchStep | application/similarity/similarity_main.py:245-253 | the results of the batches from k on are batch k's results followed by the rest |
| SimilarityNeighbours.ComputeSimilarityParallel | application/similarity/similarity_main.py:221-265 | the concatenated per-batch results equal the results of querying all track ids in order |
| SimilarityNeighbours.Insert | application/similarity/similarity_main.py:206 | a stable descending insertion adds exactly the one element |
| SimilarityNeighbours.InsertSorted | application/similarity/similarity_main.py:206 | inserting into a list sorted by non-increasing score keeps it sorted |
| SimilarityNeighbours.SortDesc | application/similarity/similarity_main.py:206 | `sorted(..., key=score, reverse=True)`: a permutation of its input, sorted by non-increasing score |
| SimilarityNeighbours.ProcessBatch | application/similarity/similarity_main.py:176-218 | the loop returns, batch id by batch id, the top-100 candidates of each, concatenated |
| SimilarityNeighbours.CandidatesShape | application/similarity/similarity_main.py:190-203 | every candidate of t1 pairs it with a later id t2 > t1 from the track list, scored 1 - cosine and at least the threshold |
| SimilarityNeighbours.TakeOfSorted | application/similarity/similarity_main.py:206-208 | a prefix of a sorted list is sorted, part of the list, at most n long, and no dropped entry scores higher than a kept one |
| SimilarityNeighbours.DroppedBelowKept | application/similarity/similarity_main.py:206-208 | in a sorted list every entry after position k scores at most every entry before it |
| SimilarityNeighbours.CandidatesComplete | application/similarity/similarity_main.py:190-203 | every later id t2 > t1 of the track list whose score reaches the threshold is a candidate, scored 1 - cosine |
| SimilarityNeighbours.TopSimilaritiesProperties | application/similarity/similarity_main.py:190-209 | per t1: exactly min(100, number of candidates) kept, sorted by non-increasing score, all with t1 < t2 and score ≥ threshold, drawn from the candidates, and no dropped candidate scores above a kept one |
| SimilaritySession.Similar | application/similarity/similarity_main.py:657 | the neighbours searched for a track: at most 11 entries (10 asked for plus one), none of them the track itself |
| SimilaritySession.Visit | application/similarity/similarity_main.py:641-687 | the paths one call appends, or the TypeError a missing database row raises (subscripting `None`); nothing else can fail |
| SimilaritySession.VisitAll | application/similarity/similarity_main.py:665-686 | the paths the loop over the neighbours appends from neighbour i on; its only failure is the same TypeError |
| SimilaritySession.TrackSimilarityProcessing | application/similarity/similarity_main.py:641-687 | the recursive method appends to `file_paths` exactly what Visit describes, or stops with its error |
| SimilaritySession.VisitAllStep | application/similarity/similarity_main.py:665-686 | one loop step: the neighbour's path (when collecting) and then its recursive visit are appended before the rest of the loop |
| SimilaritySession.SilentVisit | application/similarity/similarity_main.py:660-686 | a call with do_m3u=False appends nothing, so recursive calls never add paths |
| SimilaritySession.SilentVisitAll | application/similarity/similarity_main.py:665-686 | the neighbour loop with do_m3u=False appends nothing |
| SimilaritySession.LastLevel | application/similarity/similarity_main.py:644-686 | on the level just above max_depth the loop succeeds iff every neighbour's row exists, and appends exactly the neighbours' paths in order when collecting (nothing otherwise) |
| SimilaritySession.SessionPaths | application/similarity/similarity_main.py:590-614 | with max_recursion_level 1 a top-level visit succeeds iff the seed's and all neighbours' rows exist, and appends the seed's path followed by each neighbour's path, at most 1 + 11 entries |
| SimilaritySession.SelfAnswerLeavesTen | application/similarity/similarity_main.py:440-451 | when the index returns the seed itself, at most 10 neighbours remain |
| SimilaritySession.CreateM3uPlaylist | application/similarity/similarity_main.py:483-503 | the text written is the "#EXTM3U" header line followed by one rewritten path per line |
| SimilaritySession.PlainPathUnchanged | application/similarity/similarity_main.py:497 | a path not starting with "/mnt/" is written unchanged |
| SimilaritySession.MountedPath | application/similarity/similarity_main.py:497-500 | "/mnt/d/rest" is written as "d:\rest" with every "/" of rest turned into "\" |
| SimilaritySession.DropMount | application/similarity/similarity_main.py:499 | removing "/mnt/" from "/mnt/" + t is removing it from t |
| SimilaritySession.SlashesAfterDrive | application/similarity/similarity_main.py:499 | the slash after the drive letter becomes the first backslash |
| SimilaritySession.FirstBackslash | application/similarity/similarity_main.py:499 | only the first backslash, the one after the drive letter, becomes ":\" |
| SimilaritySession.EntryHasNoBreak | application/similarity/similarity_main.py:497-501 | rewriting a path never introduces a line break |
| SimilaritySession.M3uLines | application/similarity/similarity_main.py:491-501 | splitting the file at line breaks gives the header, then each path's entry in order, then the empty tail |
| SimilaritySession.LinesSplit | application/similarity/similarity_main.py:495-501 | the path lines split back into the entries, one per path, in order |
| SimilaritySession.PrepareFeedback | application/similarity/similarity_main.py:690-722 | a missing origin row raises TypeError; otherwise training runs exactly when 11 ratings were collected, and trained weights are clamped to [0, 2] with the configured length |
| SimilaritySession.ImportFromTrainWeights | application/similarity/similarity_main.py:28 | importing a name succeeds exactly for the names the training module defines, else ImportError |
| SimilaritySession.SimilarityMainImportFails | application/similarity/similarity_main.py:28 | `train_feature_weights` is not defined there (ImportError), `train_feature_weights_curses` is |
| SimilaritySession.Ids | application/similarity/similarity_main.py:702 | `[x[0] for x in similar_tracks]`: the neighbour ids in order |
| SimilaritySession.TrainsIffCompleted | application/similarity/similarity_main.py:700-707 | for 10 distinct neighbours other than the origin, exactly 11 ratings are collected iff the feedback session ran to the end (was not aborted or cut short) |
| Trainer.MapRatingToSimilarity | application/similarity/train_weights.py:102-117 | the target is the similarity moved by rating × factor: unchanged for rating 0, above it exactly for positive ratings and below it exactly for negative ones (positive factor) |
| Trainer.RatingValueProperties | application/similarity/train_weights.py:112 | `float(rating)`: ints and floats pass unchanged, None is a TypeError, any other failure a ValueError; text `int()` reads gives that number, and "2.5" reads as 2.5 |
| PyStr.ParseFloatOfInt | application/similarity/train_weights.py:112 | every string int() reads, float() reads to the same value |
| PyStr.DigitRunFloat | application/similarity/train_weights.py:112 | a plain digit run reads as its decimal value |
| PyStr.PointDecimal | application/similarity/train_weights.py:112 | digit runs on both sides of one point read as the whole part plus the fraction part over ten to the number of its digits |
| PyStr.ParseFloatFraction | application/similarity/train_weights.py:112 | "2.5" reads as 2.5, which int() refuses |
| Trainer.MapRatingMonotone | application/similarity/train_weights.py:112-115 | a higher rating never gives a lower target |
| Trainer.Clip | application/similarity/train_weights.py:184 | `np.clip(w, 0.0, 2.0)`: in [0, 2], identity inside, 0 below and 2 above |
| Trainer.Diff | application/similarity/train_weights.py:170-180 | `origin_vector - track_vector` elementwise |
| Trainer.Square | application/similarity/train_weights.py:173-187 | a square is never negative |
| Trainer.SumSquares | application/similarity/train_weights.py:172-174 | the summed squares are never negative |
| Trainer.GradientStep | application/similarity/train_weights.py:180-184 | one gradient step keeps the dimension, updates each weight by its own coordinate and leaves every weight in [0, 2] |
| Trainer.GradientStepDirection | application/similarity/train_weights.py:177-184 | a weight moves up when error·diff ≥ 0, down when ≤ 0, and stays put when the error is 0 |
| Trainer.GradientStepZeroError | application/similarity/train_weights.py:177-184 | with zero error clamped weights are unchanged |
| Trainer.TrainableBeforeExists | application/similarity/train_weights.py:152-154 | some sample before j trains iff some entry before j is neither the origin nor rated -1 |
| Trainer.SampleStep | application/similarity/train_weights.py:152-187 | a skipped entry (origin or rating -1) changes nothing; a trained one sets the trained flag, keeps the weights clamped and the dimension, never lowers the loss; failures are only the missing-vector, index, value and type errors of the source |
| Trainer.Train | application/similarity/train_weights.py:165-187 | a sample's update keeps the dimension, clamps the weights and adds a non-negative loss |
| Trainer.EpochUpTo | application/similarity/train_weights.py:151-187 | the epoch's fold over the first j entries keeps the weight dimension |
| Trainer.EpochUpToFacts | application/similarity/train_weights.py:151-187 | over the first j entries the loss never drops, weights are trained iff some entry trains, nothing changes if none trains, weights stay clamped, and errors are only the source's lookup/index/type errors |
| Trainer.Run | application/similarity/train_weights.py:146-212 | the epoch loop keeps the weight dimension |
| Trainer.PreviousEpochFacts | application/similarity/train_weights.py:150-187 | the facts of EpochUpTo for a whole epoch started from the state of the previous one |
| Trainer.RunWeights | application/similarity/train_weights.py:146-212 | after any number of epochs the weights are the configured ones when nothing trained and clamped to [0, 2] otherwise; they are trained iff an epoch ran and some entry trains |
| Trainer.AfterEpochRate | application/similarity/train_weights.py:206-208 | after an epoch the learning rate is either kept or halved once |
| Trainer.RunLearningRate | application/similarity/train_weights.py:148-208 | the learning rate is always the initial one halved once per recorded halving |
| Trainer.HalvedBounds | application/similarity/train_weights.py:208 | halving a non-negative rate any number of times stays in [0, rate] |
| Trainer.RunLearningRateBounds | application/similarity/train_weights.py:148-208 | the learning rate never grows above the initial one nor drops below 0 |
| Trainer.AfterEpochCounters | application/similarity/train_weights.py:189-208 | one epoch keeps the best-loss / no-improvement counter bookkeeping consistent |
| Trainer.RunCounters | application/similarity/train_weights.py:146-208 | the counter is the number of epochs since the last improvement of the best loss, and the best loss is the least epoch loss so far |
| Trainer.RunPlateauHalvings | application/similarity/train_weights.py:202-208 | since the last improvement the rate was halved at most patience - 1 - patience//2 times |
| Trainer.PlateauExact | application/similarity/train_weights.py:202-208 | since the last improvement the rate was halved exactly once per epoch the counter exceeded patience//2, and an unstopped run has counter < patience |
| Trainer.RunStable | application/similarity/train_weights.py:202-204 | after an early stop (or an error) further epochs change nothing |
| Trainer.TrainOutcomeProperties | application/similarity/train_weights.py:146-218 | the returned weights are clamped and of the configured dimension; `weights.tolist()` raises AttributeError exactly when max_epochs ≤ 0 or no entry ever trains |
| Trainer.NoTrainableNoError | application/similarity/train_weights.py:152-154 | if every entry is skipped no epoch can fail |
| Trainer.RunErrorKinds | application/similarity/train_weights.py:150-187 | the only errors are the missing-vector KeyError or TypeError, the IndexError of the distance list, the ValueError of a rating float() cannot read or of vectors of different lengths, and the TypeError of a None rating |
| Trainer.EpochUpToErrStable | application/similarity/train_weights.py:152-187 | once a sample raised, the rest of the epoch does not change the error |
| Trainer.Distances | application/similarity/train_weights.py:131 | `[x[1] for x in similar_tracks]`: the neighbour distances in order |
| Trainer.EpochAdvance | application/similarity/train_weights.py:152-187 | one more entry of the epoch is one more SampleStep |
| Trainer.SampleCases | application/similarity/train_weights.py:157-187 | a sample fails with the lookup error of its source when its vector is missing, with the target's error when the distance index is out of range or the rating is unreadable, with ValueError when origin, track and weights differ in length, and otherwise trains on its vector and target |
| Trainer.TrainEpoch | application/similarity/train_weights.py:151-187 | the loop over the feedback computes exactly EpochUpTo over all entries |
| Trainer.RunStep | application/similarity/train_weights.py:150-208 | one more epoch of an unstopped run applies the epoch's result and the counter/rate rules |
| Trainer.CursesEnv | application/similarity/train_weights.py:130-157 | the run reads the feedback as int ratings in order, the origin's vector, the database lookups (a missing row is TypeError) and offset 1 |
| Trainer.CursesOutcome | application/similarity/train_weights.py:120-218 | an origin with no row raises TypeError before training; otherwise the outcome of the shared run |
| Trainer.TrainFeatureWeightsCurses | application/similarity/train_weights.py:120-218 | the method returns exactly CursesOutcome: TypeError for a missing origin row, else the run's weights, its error, or AttributeError when no step ran |
| Trainer.EndEpoch | application/similarity/train_weights.py:189-211 | a strictly lower loss becomes the best and resets the counter, otherwise the counter grows; the loop stops at patience and halves the rate past patience // 2, exactly the fields of AfterEpoch |
| Trainer.TrainSample | application/similarity/train_weights.py:152-187 | one pass of the inner loop is exactly SampleStep: the origin and -1 ratings are skipped, a missing vector raises the lookup error, a bad target its error, unequal lengths ValueError, otherwise one clipped gradient step |
| DataTable.FormatTrackNumber | application/gui/data_table.py:202-203 | the number formats exactly when it splits at "/" into two parts whose first is an integer; otherwise ValueError |
| DataTable.TrackNumberRoundTrip | application/gui/data_table.py:202-203 | the formatted number still splits into two parts, with the same track number and the same total |
| DataTable.FormatTrackNumberOf | application/gui/data_table.py:202-203 | "n/total" formats as the two-digit zero-padded n, a slash and the total unchanged |
| DataTable.FormatOneDigit | application/gui/data_table.py:202-203 | a one-digit track number gains a leading zero |
| DataTable.DateCell | application/gui/data_table.py:205-206 | a present date is stripped of its trailing hyphens only: a prefix of it, not ending in "-", followed in the original by hyphens alone |
| DataTable.PlaylistWidget.constructor | application/gui/data_table.py:144-168 | an empty table, no sorts, not in training, no rate cell |
| DataTable.PlaylistWidget.AddTrack | application/gui/data_table.py:190-230 | a well-formed track appends its row (seven cells, an eighth for the similarity, keyed by the id); a malformed track number raises and adds nothing |
| DataTable.PlaylistWidget.ClearTable | application/gui/data_table.py:186-188 | the table is emptied |
| DataTable.PlaylistWidget.SortReverse | application/gui/data_table.py:235-242 | the result says whether the key was among the current sorts, and the key's membership is toggled |
| DataTable.Toggled | application/gui/data_table.py:237-241 | the toggled set differs from the old one in exactly the key |
| DataTable.ToggledTwice | application/gui/data_table.py:235-242 | sorting by the same column twice restores the set of current sorts, so the direction alternates |
| DataTable.PlaylistWidget.IsInPlaylist | application/gui/data_table.py:292-296 | true exactly when some row has the id as its key |
| DataTable.PlaylistWidget.DoTraining | application/gui/data_table.py:298-302 | training starts and every row gains a "Rate" cell holding "0" |
| DataTable.WithRateColumn | application/gui/data_table.py:300 | every row keeps its key and cells and gains "0" at the end |
| DataTable.WithoutLastColumn | application/gui/data_table.py:321 | every row keeps its key and loses its last cell |
| DataTable.RateColumnRoundTrip | application/gui/data_table.py:298-321 | removing the rate column after adding it gives back the table as it was |
| DataTable.HighlightAsWrittenFlipsSign | application/gui/data_table.py:265 | the highlight set as written selects the opposite rating: every non-zero rating comes back negated |
| DataTable.HighlightAsWrittenExample | application/gui/data_table.py:265 | a row rated 2 highlights index 5, which the option list reads as -2 |
| DataTable.HighlightIndex | application/gui/paula_screen.py:333-358 | the corrected highlight is the option that reads back as the rating, and lies on the seven options exactly for ratings -3..3 |
| DataTable.CellInt | application/gui/data_table.py:265 | `int()` of a cell: text parses as an integer or raises ValueError, a number truncates toward zero, a missing cell raises TypeError |
| DataTable.CellAt | application/gui/data_table.py:264 | the cell is returned exactly when the row and column are in range |
| DataTable.SetCell | application/gui/data_table.py:270 | only the addressed cell changes; the rows, their keys and their widths stay |
| DataTable.PlaylistWidget.OnRowSelected | application/gui/data_table.py:259-266 | outside training the row's position is posted; in training the rate cell is remembered and read, and the option showing its rating is highlighted, or the lookup's error is raised |
| DataTable.PlaylistWidget.UpdateRating | application/gui/data_table.py:268-270 | with a remembered rate cell, the cell takes the value's text, or IndexError when it no longer exists; without one nothing changes |
| DataTable.RatingSelectionRoundTrip | application/gui/data_table.py:265-270 | a rating written by the option list is read back unchanged, and its highlight selects the same rating |
| DataTable.CollectedUpTo | application/gui/data_table.py:311-319 | the training data built from the rows so far has distinct track ids, or the run has raised IndexError |
| DataTable.AddRow | application/gui/data_table.py:312-319 | one row adds its id to the training data with distinct ids kept, or raises IndexError |
| DataTable.AddRowCases | application/gui/data_table.py:312-319 | a row with delta 0.0 marks the origin and rates -1; any other row contributes its rate cell; a row too short raises IndexError |
| DataTable.AddRowFresh | application/gui/data_table.py:319 | a new id is appended at the end of the training data with the row's rating |
| DataTable.CollectedStep | application/gui/data_table.py:311-319 | one more row of the loop is one more AddRow |
| DataTable.CollectRow | application/gui/data_table.py:311-319 | one row adds its id with rating -1 and becomes the origin when its delta is 0.0, adds its id with its rate cell otherwise, and a missing cell raises IndexError, exactly as AddRow |
| DataTable.CollectRows | application/gui/data_table.py:311-319 | the loop over the rows computes exactly CollectedUpTo over the whole table: the training dict and origin, or IndexError at the first short row |
| DataTable.IndexErrorStable | application/gui/data_table.py:311-319 | once the loop has raised, more rows do not change the error |
| DataTable.CollectedKeys | application/gui/data_table.py:311-319 | with distinct ids and full rows, the training data holds every row's id in row order |
| DataTable.FreshId | application/gui/data_table.py:311-319 | the next row's id is not yet in the training data |
| DataTable.CollectedRecorded | application/gui/data_table.py:311-319 | every row so far is recorded with its rating (-1 for the origin) |
| DataTable.RecordedStep | application/gui/data_table.py:319 | adding the next row keeps every earlier row recorded |
| DataTable.CollectedOrigin | application/gui/data_table.py:306-316 | the origin is -1 or the id of some row whose delta is 0.0 |
| DataTable.CollectedProperties | application/gui/data_table.py:304-319 | with distinct ids and full rows: the keys are the row ids in order, every row is recorded, and the origin is -1 or a row with delta 0.0 |
| DataTable.PlaylistWidget.CollectTrainingData | application/gui/data_table.py:306-319 | the loop over the rows computes exactly CollectedUpTo over all rows |
| DataTable.VectorsUpTo | application/gui/data_table.py:350-357 | the cached vectors always contain the origin, or a missing vector raised TypeError |
| DataTable.VectorsCached | application/gui/data_table.py:350-357 | caching succeeds iff the origin and every feedback track have a vector; the cache's keys are the origin and those tracks, each with its own vector |
| DataTable.VectorsErrStable | application/gui/data_table.py:354-356 | once a vector is missing, caching raises TypeError whatever follows |
| DataTable.TrainFeatureWeightsWorker.constructor | application/gui/data_table.py:346-348 | no cached vectors, no new weights, nothing posted |
| DataTable.TrainFeatureWeightsWorker.InitTraining | application/gui/data_table.py:350-358 | the worker caches exactly VectorsUpTo and clears the new weights, or raises TypeError and keeps its state |
| DataTable.WorkerEnv | application/gui/data_table.py:370-400 | the corrected worker pairs feedback entry k with neighbour k, for the given feedback and origin |
| DataTable.WorkerEnvAsWritten | application/gui/data_table.py:399-401 | the worker as written reads neighbour k-1 for feedback entry k: the same environment shifted by one |
| DataTable.WorkerTargetAligned | application/gui/data_table.py:399-401 | in the corrected worker, entry k's target comes from neighbour k's distance and entry k's rating |
| DataTable.WorkerTargetAsWrittenShifted | application/gui/data_table.py:399-401 | as written, entry 1's target uses neighbour 0's distance (the origin's own, 0.0), not neighbour 1's |
| DataTable.EpochCount | application/gui/data_table.py:389 | `range(max_epochs)` runs max_epochs epochs, none when it is negative |
| DataTable.FinalStatus | application/gui/data_table.py:387-457 | the final message reports an early stop exactly when the run stopped early |
| DataTable.EndEpochPosting | application/gui/data_table.py:429-451 | the end of an epoch leaves best loss, counter, rate and stop flag as AfterEpoch does, posts exactly that epoch's messages (progress on every tenth epoch, then the new rate after a halving) and fixes the closing status |
| DataTable.FailedEpoch | application/gui/data_table.py:389-427 | an epoch that raises ends the run with that error and no later message is posted |
| DataTable.AdvancedEpoch | application/gui/data_table.py:389-451 | a successful epoch moves the run to AfterEpoch and appends exactly that epoch's messages |
| DataTable.StoppedRun | application/gui/data_table.py:440-442 | after the stop rule fires the remaining epochs change neither the run nor the messages |
| DataTable.StalledEpoch | application/gui/data_table.py:389-442 | an epoch after the stop or after a raised error, or one that raises, posts nothing and leaves a finished run unchanged |
| DataTable.EpochMessageCounts | application/gui/data_table.py:436-451 | an epoch posts one progress message on multiples of ten and one rate message per halving |
| DataTable.CountsAfterEpoch | application/gui/data_table.py:389-451 | the message counts stay in step with the epoch and halving counters |
| DataTable.RunMessageCounts | application/gui/data_table.py:389-451 | over a whole run, progress messages number ceil(epochs/10) and rate messages the number of halvings |
| DataTable.ProgressEveryTenth | application/gui/data_table.py:436-437 | the k-th progress message reports epoch 10k |
| DataTable.MessagesStep | application/gui/data_table.py:389-451 | one more epoch of an unstopped run appends exactly that epoch's messages |
| DataTable.MessagesStable | application/gui/data_table.py:439-442 | after an early stop no further message is posted |
| DataTable.CountAppend | application/gui/data_table.py:436-451 | messages counted over two stretches add up |
| DataTable.ProgressCountStep | application/gui/data_table.py:436 | one more epoch adds a progress message exactly when its number is a multiple of ten |
| DataTable.OutcomeOfRun | application/gui/data_table.py:389-458 | a finished run yields its weights, or AttributeError when no step ran, since `weights` is then still a list |
| DataTable.OutcomeOfFailedRun | application/gui/data_table.py:389-458 | a run that raised yields that error |
| DataTable.EpochLoop | application/gui/data_table.py:389-457 | the epoch loop posts exactly RunMessages and ends with the run's weights and final status, or with its error |
| DataTable.TrainFeatureWeightsWorker.TrainFeatureWeights | application/gui/data_table.py:360-458 | without cached vectors AttributeError, without the origin KeyError; otherwise it posts the start, the run's messages and the final status, and stores TrainOutcome's weights or raises its error |
| DataTable.StopAtVectors | application/gui/data_table.py:325-326 | a missing vector stops the training with TypeError |
| DataTable.StopAfterVectors | application/gui/data_table.py:325-339 | with vectors cached, the outcome is the worker's TrainOutcome with rate 0.01, 400 epochs and patience 10; empty weights count as none |
| DataTable.StopOutcomeProperties | application/gui/data_table.py:304-342 | new weights have the configured length and lie in [0, 2]; the outcome is AttributeError iff no feedback entry can train |
| DataTable.PlaylistWidget.StopTraining | application/gui/data_table.py:304-342 | without do_training nothing happens; otherwise training stops, the rate column goes when collecting succeeded, and the result is StopOutcome over the old rows |
| Feedback.Abridged | application/similarity/similarity_feedback.py:75-89 | a name longer than 20 shows its first 17 characters and "..."; a shorter one shows unchanged; at most 20 characters either way |
| Feedback.Accepted | application/similarity/similarity_feedback.py:117-133 | a line is taken as a rating exactly when it parses as an integer from 1 to 5 |
| Feedback.QuitIsNotARating | application/similarity/similarity_feedback.py:113-118 | the quit key is never taken as a rating |
| Feedback.Prompt | application/similarity/similarity_feedback.py:73-133 | the prompt keeps the ratings' keys distinct, rates tracks in order, and completes exactly when every track is rated |
| Feedback.PromptStops | application/similarity/similarity_feedback.py:113-115 | quitting, or running out of input, ends the prompt unfinished with the ratings so far |
| Feedback.PromptReads | application/similarity/similarity_feedback.py:111-133 | each line either rates the current track and moves on, or is rejected and the same track is asked again |
| Feedback.QuitStops | application/similarity/similarity_feedback.py:113-115 | "q" (either case) ends the prompt with the ratings so far |
| Feedback.RejectedReprompts | application/similarity/similarity_feedback.py:117-133 | a rejected line changes nothing and the track is asked again |
| Feedback.PutFresh | application/similarity/similarity_feedback.py:120 | rating a track not yet rated appends it at the end of the ratings |
| Feedback.RatedShape | application/similarity/similarity_feedback.py:120-121 | rating the next track keeps the ratings shaped as the origin followed by the rated tracks in order |
| Feedback.PromptShape | application/similarity/similarity_feedback.py:73-133 | the whole prompt keeps that shape |
| Feedback.CollectShape | application/similarity/similarity_feedback.py:42-143 | the result maps the origin to -1 first, then the rated tracks in order, each rated 1..5; it holds every track exactly when the prompt completed |
| Feedback.CollectFeedback | application/similarity/similarity_feedback.py:34-143 | the loops compute exactly the ratings and completion of Collect |
| ConfigLoader.Field | application/utils/config_loader.py:54-57 | `config[key]` yields the key's value in an object, KeyError when an object lacks it, TypeError on a non-object |
| ConfigLoader.Load | application/utils/config_loader.py:37-47 | reading gives the stored configuration, FileNotFoundError for a missing file, JSONDecodeError for a garbled one |
| ConfigLoader.ConfigFile.constructor | application/utils/config_loader.py:34 | the file starts as given and holds decodable JSON if anything |
| ConfigLoader.ConfigFile.LoadConfig | application/utils/config_loader.py:37-47 | returns exactly Load of the file's contents |
| ConfigLoader.AssignWeights | application/utils/config_loader.py:56-57 | the loop sets the features' weights exactly as Reweighted does |
| ConfigLoader.ConfigFile.UpdateWeightConfig | application/utils/config_loader.py:50-61 | on success the file holds the updated configuration; on failure it is unchanged and the error is the one UpdatedConfig names; the file stays decodable |
| ConfigLoader.PutAt | application/utils/config_loader.py:57 | assigning an existing key replaces its value in place and keeps the key order |
| ConfigLoader.DecodedField | application/utils/config_loader.py:54 | a field of decodable JSON is decodable |
| ConfigLoader.DecodedPut | application/utils/config_loader.py:57 | assigning a decodable value keeps an object decodable |
| ConfigLoader.DecodedReweighted | application/utils/config_loader.py:56-61 | the reweighted features are still decodable, so the dump can be read back |
| ConfigLoader.ReweightedOk | application/utils/config_loader.py:56-57 | reweighting succeeds exactly when every remaining feature is an object and has a weight to take |
| ConfigLoader.ReweightedValues | application/utils/config_loader.py:56-57 | the i-th feature, in key order, gets weight i and keeps everything else; the features and their order are unchanged |
| ConfigLoader.ReweightedError | application/utils/config_loader.py:57 | with enough weights the only failure is a feature that is not an object (TypeError) |
| ConfigLoader.ExtraWeightsIgnored | application/utils/config_loader.py:56-57 | weights beyond the number of features are ignored |
| ConfigLoader.UpdateSucceeds | application/utils/config_loader.py:50-61 | the update succeeds iff "features" is an object of objects and there are at least as many weights as features |
| ConfigLoader.WeightsRoundTrip | application/utils/config_loader.py:50-61 | loading after an update gives the updated configuration: same keys, other keys unchanged, each feature carrying its new weight |
| ConfigLoader.LoadErrors | application/utils/config_loader.py:51-52 | a missing or garbled file fails the update with the loader's error |
| Search.SpaceRun | application/search/search_main.py:52 | `\s+` matches the longest run of whitespace from a position |
| Search.Connective | application/search/search_main.py:52 | `(and\|or)` matches one of the two words, in any case, at a position |
| Search.SeparatorAt | application/search/search_main.py:52 | a separator (whitespace, a connective, whitespace) found at a position ends after it |
| Search.FirstSeparator | application/search/search_main.py:52 | the split finds the leftmost separator, and it is a separator |
| Search.WordRun | application/search/search_main.py:56 | `\w+` matches the longest run of word characters |
| Search.LineEnd | application/search/search_main.py:56 | `.+` runs from a position to the first newline or the end of the text |
| Search.FieldMatch | application/search/search_main.py:56 | a match's field is the leading word run of the piece, followed by ":"; its value is non-empty, holds no newline and does not start with whitespace |
| SearchFacts.FieldMatchParts | application/search/search_main.py:56 | the value starts where the whitespace run after the colon ends and runs to the first newline or the end |
| SearchFacts.FieldMatchOf | application/search/search_main.py:56 | conversely, word + ":" + whitespace + value (+ a newline and anything) matches with exactly that field and value |
| Search.LastConnective | application/search/search_main.py:52-54 | the index of a connective piece with no connective after it, or none exactly when no piece is a connective |
| Search.CollectLast | application/search/search_main.py:52-61 | collecting one more piece appends that piece's condition, if any, to the conditions collected so far |
| Search.OperatorLast | application/search/search_main.py:52-54 | one more piece makes the operator its upper case if it is a connective and leaves it otherwise |
| Search.ParseQuery | application/search/search_main.py:48-62 | the conditions are the (FIELD_MAP column, value) pairs of the field pieces in input order, and the operator is the last connective upper-cased, or "AND" when there is none |
| Search.Clauses | application/search/search_main.py:69-70 | one `<column> LIKE ?` clause per condition, in order |
| Search.Params | application/search/search_main.py:69-71 | one parameter per condition, the value wrapped in "%" on both sides |
| Search.BuildSqlQuery | application/search/search_main.py:65-81 | the query joins the clauses with the operator inside the fixed SELECT, and the parameters are Params |
| Search.CreateSearchQuery | application/search/search_main.py:84-87 | one parameter per parsed condition, its value between "%" signs |
| SearchFacts.UpperConnective | application/search/search_main.py:53-54 | a connective upper-cases to "AND" or "OR" |
| SearchFacts.StepShape | application/search/search_main.py:52-61 | a piece keeps the parse well formed and only appends conditions |
| SearchFacts.FieldStepShape | application/search/search_main.py:56-61 | a field piece adds only FIELD_MAP columns |
| SearchFacts.AppendedShape | application/search/search_main.py:61 | appending a FIELD_MAP column keeps the parse well formed |
| SearchFacts.FieldStepAppends | application/search/search_main.py:56-61 | a field piece keeps the earlier conditions as a prefix |
| SearchFacts.ColumnKnown | application/search/search_main.py:40-45 | every FIELD_MAP entry maps to a known column |
| SearchFacts.ParseFromShape | application/search/search_main.py:52-62 | parsing the remaining pieces stays well formed and extends the conditions |
| SearchFacts.PrefixOfPrefix | application/search/search_main.py:61 | a prefix of a prefix is a prefix |
| SearchFacts.ParseShape | application/search/search_main.py:48-62 | every parse has only FIELD_MAP columns and the operator "AND" or "OR" |
| SearchFacts.ParseSpec | application/search/search_main.py:48-62 | the piece-by-piece parse is the in-order field conditions with the last connective as operator |
| SearchFacts.ParseFromPrefix | application/search/search_main.py:52-61 | parsing the pieces after the first i continues from the parse of those first i |
| SearchFacts.StepPrefix | application/search/search_main.py:52-61 | one more piece extends the conditions by its own condition and updates the operator by OperatorLast |
| SearchFacts.CollectMember | application/search/search_main.py:52-61 | a condition is collected iff some piece yields it |
| SearchFacts.CollectAppend | application/search/search_main.py:52-61 | collecting two runs of pieces is collecting each and concatenating, so order is kept |
| SearchFacts.PieceConditionOf | application/search/search_main.py:56-61 | a non-connective piece "word: value" with a known field yields (FIELD_MAP[lower(word)], value) |
| SearchFacts.ParseSingleTerm | application/search/search_main.py:48-62 | "field:value" with a known field and no whitespace parses to that one condition and the default "AND" |
| SearchFacts.NoSeparatorWithoutSpace | application/search/search_main.py:52 | text without whitespace is not split |
| SearchFacts.NoSeparatorBefore | application/search/search_main.py:52 | no separator starts inside a run without whitespace |
| SearchFacts.SeparatorInGap | application/search/search_main.py:52 | " and " between two words is found as the separator |
| SearchFacts.SeparatorSplitsValue | application/search/search_main.py:52 | "a and b" splits into a, the captured "and", and b |
| SearchFacts.LowerAnd | application/search/search_main.py:53 | "and" is its own lower case |
| SearchFacts.NoColonNoCondition | application/search/search_main.py:56 | a piece without a colon yields no condition |
| Genre.SplitAndNormalize | application/database/genre.py:36-40 | one entry per delimiter plus one, each without delimiters, surrounding whitespace or upper-case letters |
| Genre.SingleGenre | application/database/genre.py:36-40 | a string without delimiters gives the one normalized entry |
| Genre.LeadingPiece | application/database/genre.py:38-40 | the piece before the first delimiter comes first, followed by the split of the rest |
| Genre.NormalizeShape | application/database/genre.py:40 | stripping and lower-casing a piece makes it a normal genre name |
| Genre.StripShape | application/database/genre.py:40 | a stripped piece has no whitespace at either end |
| Genre.LowerShape | application/database/genre.py:40 | lower-casing keeps a stripped piece stripped and leaves no upper-case letter |
| Genre.Normalized | application/database/genre.py:54-56 | every collected name is a normal genre name |
| Genre.NormalAppend | application/database/genre.py:56 | extending with normal names keeps the list normal |
| Genre.Bump | application/database/genre.py:59 | counting one more occurrence keeps the counter's keys distinct |
| Genre.Tally | application/database/genre.py:59 | the counter has distinct keys |
| Genre.TallyCounts | application/database/genre.py:59 | the counter has exactly the names that occur, each with its number of occurrences |
| Genre.TallyTotal | application/database/genre.py:59 | the counts add up to the number of names |
| Genre.TotalAppend | application/database/genre.py:59 | totals over two stretches add up |
| Genre.TotalUpdate | application/database/genre.py:59 | replacing a count changes the total by the difference |
| Genre.FirstCategoryNone | application/database/genre.py:74-82 | with no category called "uncategorized", a genre goes to "uncategorized" exactly when no category lists it |
| Genre.FirstCategoryFirst | application/database/genre.py:76-80 | a genre filed under a category goes to the first category listing it |
| Genre.CategoryNames | application/database/genre.py:63-71 | no listed category is called "uncategorized" |
| Genre.CategoryOfSpec | application/database/genre.py:63-82 | over the six listed categories: the first that lists the genre, else "uncategorized" |
| Genre.Place | application/database/genre.py:78-82 | appending to a category's bucket keeps the tree's keys distinct |
| Genre.PlaceForm | application/database/genre.py:62-82 | a new category gets a new bucket at the end; an existing one gets the entry at the end of its bucket |
| Genre.PlaceFiled | application/database/genre.py:78-82 | filing a genre under its own category keeps every entry in its category's bucket |
| Genre.PlaceFlat | application/database/genre.py:78-82 | filing adds exactly that one entry to the tree's contents |
| Genre.PlaceTotal | application/database/genre.py:78-82 | filing adds the entry's count to the tree's total |
| Genre.FiledAppend | application/database/genre.py:62 | a new bucket of the category's own genres keeps the tree filed |
| Genre.FiledUpdate | application/database/genre.py:78 | replacing a bucket with the category's own genres keeps the tree filed |
| Genre.FlatAppend | application/database/genre.py:62 | a new bucket adds its entries at the end of the contents |
| Genre.FlatUpdate | application/database/genre.py:78 | replacing a bucket swaps its entries in the contents |
| Genre.FlatUpdateTotal | application/database/genre.py:78 | replacing a bucket changes the total by the buckets' difference |
| Genre.FlatMember | application/database/genre.py:62-82 | every entry of the contents sits in some bucket |
| Genre.TreeOf | application/database/genre.py:74-82 | the tree's category keys are distinct |
| Genre.TreeOfShape | application/database/genre.py:74-82 | the tree holds every counter entry exactly once, each in its category's bucket, with the same total |
| Genre.CollectGenres | application/database/genre.py:43-88 | the loops build exactly the tree of the counts of the normalized genres |
| Genre.CollectedTree | application/database/genre.py:43-88 | each normalized genre appears with its count in the bucket of its category, the counts add up to the number of names, and nothing else is in the tree |
| Updater.PadDate | application/updater/updater_main.py:197-200 | a year gains "-01-01" and a year-month "-01" (ten characters, ending "-01"); any other length is kept |
| Updater.PadDateIdempotent | application/updater/updater_main.py:197-200 | padding a padded date changes nothing |
| Updater.LifeSpanDate | application/updater/updater_main.py:196-211 | a string is padded; anything else (a missing value or a boolean) becomes None |
| Updater.LifeSpanDates | application/updater/updater_main.py:188-214 | with no life span both dates are None; otherwise each date is present exactly when it was a string |
| Updater.ReleaseDateAsWritten | application/updater/updater_main.py:296-302 | the code as written raises TypeError and only TypeError |
| Updater.EmptyReleaseDateRaises | application/updater/updater_main.py:297-299 | an empty first-release-date becomes None and then `len(None)` raises TypeError |
| Updater.ReleaseDate | application/updater/updater_main.py:296-302 | the corrected date is None for a missing or empty date, and otherwise the padded date |
| Updater.ReleaseDateAgrees | application/updater/updater_main.py:296-302 | the code raises exactly where the corrected date is None, and agrees with it everywhere else |
| Updater.FormatLength | application/updater/updater_main.py:401-404 | no length or a length of 0 gives no text |
| Updater.LengthRoundTrip | application/updater/updater_main.py:403-404 | "m:ss" reads back as whole minutes and two-digit seconds below 60 that make up length // 1000 seconds |
| Updater.IntStringNoColon | application/updater/updater_main.py:404 | a number's text has no colon |
| Updater.SecondsField | application/updater/updater_main.py:404 | the seconds are two characters without a colon |
| Updater.WikidataId | application/updater/updater_main.py:228-230 | the id is the part after the last "/": a slash-free suffix of the URL |
| Updater.WithStatus | application/updater/updater_main.py:114-128 | the selection is no longer than the file |
| Updater.WithStatusMembers | application/updater/updater_main.py:124-127 | the selection holds exactly the rows with the wanted status |
| Updater.ProgressFile.constructor | application/updater/updater_main.py:65-111 | the progress file holds the given rows |
| Updater.ProgressFile.GetPendingItems | application/updater/updater_main.py:114-128 | the loop selects exactly the rows whose status is "error" when retrying errors and "pending" otherwise |
| Updater.Restatus | application/updater/updater_main.py:140-156 | the rewritten file has as many rows, or reading it raised ValueError |
| Updater.RestatusFails | application/updater/updater_main.py:146 | rewriting raises ValueError iff a row of the entity type has a non-integer id |
| Updater.RestatusStops | application/updater/updater_main.py:146 | one unreadable row makes the rewrite raise ValueError |
| Updater.RestatusRows | application/updater/updater_main.py:145-148 | exactly the rows of that type and id take the new status; every other row is kept |
| Updater.RestatusFailsAlike | application/updater/updater_main.py:146 | whether the rewrite fails does not depend on the status written |
| Updater.RestatusIdempotent | application/updater/updater_main.py:140-156 | writing the same status twice leaves the file as after once |
| Updater.ProgressFile.UpdateItemStatus | application/updater/updater_main.py:140-156 | the file becomes Restatus of the old rows, or on ValueError is unchanged |
| Updater.EntityStatus | application/updater/updater_main.py:581-658 | out of scope nothing is written; in scope the status is "updated" for stored data, "no_data" for no data and "error" otherwise |
| Updater.ProgressFile.ProcessEntity | application/updater/updater_main.py:581-658 | the entity's rows take EntityStatus's status, or nothing changes when it is out of scope or the rewrite fails |
| Updater.FetchWithRetries | application/updater/updater_main.py:512-556 | the loop returns exactly Fetch's result and sleeps Fetch's pauses |
| Updater.FetchAt | application/updater/updater_main.py:535-553 | a body is returned after a 0.5 s pause; 503 and 429 sleep backoff·2^(attempt-1) and retry; any other failure stops |
| Updater.FetchSpec | application/updater/updater_main.py:512-556 | a body is returned iff some request within max_retries succeeds after only retryable failures; the pauses double from the backoff and end with 0.5 s on success |
| AudioFiles.SuffixFormatAudio | application/updater/updater_audio_files.py:210-225 | every suffix with a reader is one of the six listed; the listed ones without a reader are exactly .wav, .aac and .ogg |
| AudioFiles.FormatOfListed | application/updater/updater_audio_files.py:214-225 | a file with a reader passes the extension filter; a listed file is skipped exactly when it ends in .wav, .aac or .ogg, in any case |
| AudioFiles.Reading | application/updater/updater_audio_files.py:214-226 | a file yields metadata exactly when it is listed, not yet in the tracks table and has a reader, and then it is that reader's metadata for the joined path |
| AudioFiles.ScannedIn | application/updater/updater_audio_files.py:213-226 | a folder yields at most one metadata per file |
| AudioFiles.ScannedInMembers | application/updater/updater_audio_files.py:213-226 | a folder's metadata are exactly those read from its files |
| AudioFiles.ScannedMembers | application/updater/updater_audio_files.py:208-227 | the scan's metadata are exactly those read from some folder of the walk |
| AudioFiles.ScanFilesystem | application/updater/updater_audio_files.py:208-227 | the nested loops compute exactly Scanned over the walk |
| AudioFiles.ScanDirectory | application/updater/updater_audio_files.py:213-226 | the loop over one directory's files collects exactly the readings of the listed audio files not yet in the tracks table, in listing order |
| AudioFiles.LengthFields | application/updater/updater_audio_files.py:48 | "m:s" reads back as whole minutes and seconds below 60 that make up the whole seconds of the length |
| AudioFiles.LengthUnpadded | application/updater/updater_audio_files.py:48 | the seconds are not zero-padded: 185 s shows as "3:5" where the MusicBrainz updater writes "3:05" |
| AudioFiles.FlacTrackNumber | application/updater/updater_audio_files.py:35 | the FLAC track number splits at "/" back into the track number and the total |
| AudioFiles.FlacTrackNumberShown | application/updater/updater_audio_files.py:35 | the playlist shows a FLAC track number zero-padded over its total |
| AudioFiles.Mp3Field | application/updater/updater_audio_files.py:63-87 | the ID3 frame's first value wins, else the plain tag's, else the default; an empty list raises IndexError |
| AudioFiles.Mp3ArtistFallback | application/updater/updater_audio_files.py:63-67 | the artist comes from TPE1, else "artist", else "Unknown Artist" |
| AudioFiles.YearOf | application/updater/updater_audio_files.py:95-106 | a year is found only for a truthy tag whose first four characters are digits, and is at least 1 |
| AudioFiles.YearOfDate | application/updater/updater_audio_files.py:104 | a date starting with a four-digit year gives that year |
| AudioFiles.Lookup | application/updater/updater_audio_files.py:230-275 | a duplicate track looks nothing up; otherwise the track's id is new and the artist and album are found or marked new |
| AudioFiles.ArtistStep | application/updater/updater_audio_files.py:277-279 | a new artist is inserted and then has an id |
| AudioFiles.AlbumStep | application/updater/updater_audio_files.py:281-292 | inserting a new album raises UnboundLocalError exactly when no artist id was bound; otherwise the album then has an id |
| AudioFiles.TrackStep | application/updater/updater_audio_files.py:293-308 | inserting a track raises UnboundLocalError exactly when the artist or album id is unbound |
| AudioFiles.EntryDuplicate | application/updater/updater_audio_files.py:243-246 | a duplicate track changes nothing |
| AudioFiles.EntryFails | application/updater/updater_audio_files.py:230-310 | an entry raises, and only UnboundLocalError, exactly when a needed artist or album id was never bound |
| AudioFiles.ArtistStepExtends | application/updater/updater_audio_files.py:277-279 | the artist step only appends artists |
| AudioFiles.AlbumStepExtends | application/updater/updater_audio_files.py:281-292 | the album step only appends albums |
| AudioFiles.TrackStepExtends | application/updater/updater_audio_files.py:293-310 | the track step only appends tracks and commits |
| AudioFiles.EntryAppends | application/updater/updater_audio_files.py:230-310 | an entry never changes or removes an existing row |
| AudioFiles.EntryCommits | application/updater/updater_audio_files.py:309-310 | an entry commits once exactly when it succeeds and inserts something |
| AudioFiles.EntryInserts | application/updater/updater_audio_files.py:277-308 | each new artist, album and track is appended with its MusicBrainz id |
| AudioFiles.EntryReuses | application/updater/updater_audio_files.py:257-298 | a found artist or album is reused, and the new album or track refers to it |
| AudioFiles.ArtistStepLinked | application/updater/updater_audio_files.py:277-279 | the artist step keeps every reference pointing at an existing row |
| AudioFiles.AlbumStepLinked | application/updater/updater_audio_files.py:281-292 | the album step keeps every reference pointing at an existing row |
| AudioFiles.TrackStepLinked | application/updater/updater_audio_files.py:293-310 | the track step keeps every reference pointing at an existing row |
| AudioFiles.EntryLinked | application/updater/updater_audio_files.py:230-310 | an entry keeps the database's references valid |
| AudioFiles.ProcessTrackEntry | application/updater/updater_audio_files.py:230-310 | the catalogue ends in exactly Entry's state with Entry's result |
| AudioFiles.InsertNew | application/updater/updater_audio_files.py:277-310 | the inserts end in exactly the state and result Inserts gives |
| AudioFiles.InsertArtistIfNew | application/updater/updater_audio_files.py:277-280 | a new artist id inserts the artist row and binds its id, exactly as ArtistStep |
| AudioFiles.InsertAlbumIfNew | application/updater/updater_audio_files.py:281-292 | a new album id inserts the album under the bound artist id, and raises UnboundLocalError when none is bound, exactly as AlbumStep |
| AudioFiles.InsertTrackIfNew | application/updater/updater_audio_files.py:293-308 | a new track id inserts the track under the bound artist and album ids, and raises UnboundLocalError when one is unbound, exactly as TrackStep |
| AudioFiles.EntriesStop | application/updater/updater_audio_files.py:313-320 | the first entry that raises ends the update |
| AudioFiles.EntriesLinked | application/updater/updater_audio_files.py:313-320 | a whole update keeps the references valid |
| AudioFiles.UpdateDatabase | application/updater/updater_audio_files.py:313-320 | the loop computes exactly Entries over the metadata |
| Importer.GetTag | application/importer/importer_main.py:178-186 | a list gives its first item (IndexError when empty), a frame its first text or the default, a missing key the default |
| Importer.GetTagStored | application/importer/importer_main.py:178-186 | a stored value is read back; a missing key gives the default |
| Importer.Or | application/importer/importer_main.py:279-288 | `a or b` is truthy exactly when either is |
| Importer.MbIdentity | application/importer/importer_main.py:279-306 | the id is the tag's, else the frames', else the generated one, and is valid exactly when one was found |
| Importer.MbIdNeverEmpty | application/importer/importer_main.py:296-306 | with a non-empty generated id, the id is never empty |
| Importer.ImportableIn | application/importer/importer_main.py:87-89 | a folder yields at most one path per file |
| Importer.ImportableInMembers | application/importer/importer_main.py:87-89 | a folder's paths are exactly its .mp3 and .flac files, in any case, joined to the folder |
| Importer.ImportablePathsMembers | application/importer/importer_main.py:86-89 | the paths are exactly the .mp3 and .flac files of the walk |
| Importer.CollectImportable | application/importer/importer_main.py:85-89 | the loops collect exactly ImportablePaths of the walk |
| Importer.Pending | application/importer/importer_main.py:89 | one "pending" row per path, in order |
| Importer.InitialRows | application/importer/importer_main.py:82-95 | every initial row is pending and names an importable file |
| Importer.ProgressCsv.constructor | application/importer/importer_main.py:82-95 | the progress file starts as given |
| Importer.ProgressCsv.InitializeProgressFile | application/importer/importer_main.py:82-95 | an existing file is kept; otherwise it is written with every importable file pending |
| Importer.PathsWithStatus | application/importer/importer_main.py:98-106 | the selection is no longer than the file |
| Importer.PathsWithStatusMembers | application/importer/importer_main.py:103-105 | the selection holds exactly the paths of rows with the status |
| Importer.ProgressCsv.GetFilesByStatus | application/importer/importer_main.py:98-106 | a missing file raises FileNotFoundError; otherwise the paths with the status |
| Importer.Restatus | application/importer/importer_main.py:114-117 | exactly the rows of the path take the new status, and the file keeps its length |
| Importer.StatusAfterUpdate | application/importer/importer_main.py:109-123 | after an update the path is listed under the new status only, if it was in the file; other paths keep their status |
| Importer.ProgressCsv.UpdateFileStatus | application/importer/importer_main.py:109-123 | a missing file raises FileNotFoundError; otherwise the rows become Restatus |
| Importer.Recorded | application/importer/importer_main.py:126-137 | the row takes the status; a new path starts at 0 retries, a known one counts one more |
| Importer.Tracked | application/importer/importer_main.py:144-148 | the tracked files are exactly the pending paths of the table |
| Importer.ImportTable.constructor | application/importer/importer_main.py:126-137 | the table starts as given |
| Importer.ImportTable.RecordProgress | application/importer/importer_main.py:126-137 | as intended (with a cursor): the path's row becomes Recorded; every other row is unchanged |
| Importer.ImportTable.RecordProgressAsWritten | application/importer/importer_main.py:126-137 | as written the SQL text is passed as the cursor: AttributeError, swallowed when a connection is open and escaping otherwise; no modifies clause, so the table is unchanged |
| Importer.RecordingChangesTable | application/importer/importer_main.py:126-137 | every intended record_progress call changes the table |
| Importer.ImportTable.GetPendingFiles | application/importer/importer_main.py:140-164 | as intended: returns the pending files tracked before; every importable file not among them is recorded pending, and every other row is unchanged |
| Importer.ImportTable.GetPendingFilesAsWritten | application/importer/importer_main.py:140-146 | as written the query argument is missing: TypeError before the walk, table unchanged |
| Importer.PendingFilesChangeTable | application/importer/importer_main.py:140-164 | with an untracked importable file, the intended call leaves a different table behind |
| DatabaseHelper.ExecuteQuery | application/database/database_helper.py:623-637 | fetch_one gives the first row or nothing, fetch_all every row; an exception gives None and is logged |
| DatabaseHelper.FetchOneFirst | application/database/database_helper.py:627-630 | fetch_one takes precedence over fetch_all |
| DatabaseHelper.DbValid | application/database/database_helper.py:385-388 | "TRUE" exactly for a valid id and "FALSE" otherwise |
| DatabaseHelper.FindFrom | application/database/database_helper.py:400-411 | the search finds the first row with the id at or after a position, or reports that none has it |
| DatabaseHelper.Find | application/database/database_helper.py:400-411 | a row id is found exactly when some row has the id, and it is the 1-based id of such a row |
| DatabaseHelper.FindAppended | application/database/database_helper.py:390-411 | an appended row is found at the next id; earlier finds are unchanged |
| DatabaseHelper.FindFromAppended | application/database/database_helper.py:390-411 | appending keeps earlier finds and makes the new id findable |
| DatabaseHelper.WithArtist | application/database/database_helper.py:383-417 | an existing MusicBrainz id adds nothing; otherwise the artist row is appended |
| DatabaseHelper.WithAlbum | application/database/database_helper.py:418-470 | an existing MusicBrainz id adds nothing; otherwise the album row is appended |
| DatabaseHelper.WithTrack | application/database/database_helper.py:547-603 | an existing MusicBrainz id adds nothing; otherwise the track row is appended |
| DatabaseHelper.InsertedFound | application/database/database_helper.py:383-603 | after any insert the MusicBrainz id is found |
| DatabaseHelper.Catalogue.constructor | application/database/database_helper.py:150-356 | the catalogue starts in the given state |
| DatabaseHelper.Catalogue.InsertArtist | application/database/database_helper.py:383-417 | the state becomes WithArtist and the id returned is the artist's row |
| DatabaseHelper.Catalogue.InsertAlbum | application/database/database_helper.py:418-470 | the state becomes WithAlbum and the id returned is the album's row |
| DatabaseHelper.Catalogue.InsertTrack | application/database/database_helper.py:547-603 | the state becomes WithTrack and the id returned is the track's row |
| DatabaseHelper.Catalogue.Commit | application/database/database_helper.py:69-71 | only the commit count grows |
| DatabaseHelper.LocalFolder | application/database/database_helper.py:525-532 | with folder translation on and the source prefix present, the prefix is replaced by the target; otherwise the folder is kept |
| DatabaseHelper.LocalFolderBack | application/database/database_helper.py:525-532 | translating back with source and target swapped gives the stored folder |
| DatabaseHelper.CoverByAlbum | application/database/database_helper.py:509-546 | no folder raises TypeError; cover.jpg wins when it exists, then cover.png; otherwise None; a returned path exists |
| DatabaseHelper.FirstColumn | application/database/database_helper.py:473-480 | the first value of every row, in order, or IndexError for an empty row |
| Cover.FirstPresent | application/cover/cover_main.py:68-72 | the first existing cover file, or none when no cover file exists |
| Cover.FirstPresentAt | application/cover/cover_main.py:68-72 | the check stops at the first cover file that exists, in the order jpg, jpeg, png |
| Cover.FirstArt | application/cover/cover_main.py:76-91 | the first .mp3 or .flac file of the listing with embedded art, with that art; none when no such file has art |
| Cover.SavedExtension | application/cover/cover_main.py:82-84 | jpeg saves as "jpg" and png as "png"; any other format saves nothing |
| Cover.EnsureCoverSaves | application/cover/cover_main.py:74-91 | a saved cover holds exactly the first embedded art found |
| Cover.EnsureCoverExtension | application/cover/cover_main.py:82-87 | a saved cover is cover.jpg exactly for JPEG data and cover.png exactly for PNG data |
| Cover.JoinCoverDistinct | application/cover/cover_main.py:61-62 | the three cover names are three different files |
| Cover.ExistingCoverKept | application/cover/cover_main.py:66-72 | without remove_existing an existing cover leaves the folder unchanged |
| Cover.EnsureCoverFrame | application/cover/cover_main.py:52-93 | only the cover files change; after removing the covers, any cover file present is the one just saved |
| Cover.Disk.constructor | application/cover/cover_main.py:52-93 | the disk holds the given files |
| Cover.Disk.Remove | application/cover/cover_main.py:64 | the file is removed and nothing else changes |
| Cover.Disk.Write | application/cover/cover_main.py:86-87 | the file holds the data and nothing else changes |
| Cover.RemoveCovers | application/cover/cover_main.py:59-65 | exactly the three cover files are removed |
| Cover.ExistingCover | application/cover/cover_main.py:67-72 | the loop finds exactly FirstPresent of the cover files |
| Cover.ScanForArt | application/cover/cover_main.py:76-91 | the loop finds exactly FirstArt of the listing |
| Cover.EnsureCoverInFolder | application/cover/cover_main.py:52-93 | the disk and outcome are exactly EnsureCover's for the old files |
| Cover.CoverPath | application/cover/cover_main.py:114-120 | cover.png wins over cover.jpg; none exactly when neither exists; a returned path exists |
| Cover.GetCoverPath | application/cover/cover_main.py:114-120 | the loop finds exactly CoverPath |
| Cover.CoverOrderDiffers | application/cover/cover_main.py:116 | with both files present, this lookup picks cover.png while the album lookup in the database helper picks cover.jpg |
| Cover.AlbumCovers | application/cover/cover_main.py:128-139 | at most one cover per album folder |
| Cover.AlbumCoversExist | application/cover/cover_main.py:134-137 | every cover listed exists and is the cover path of some folder |
| Cover.GetAlbumCovers | application/cover/cover_main.py:123-142 | the loop computes exactly AlbumCovers of the folders |
| Cover.LayoutUpTo | application/cover/cover_main.py:157-169 | at most one tile per cover placed |
| Cover.Placed | application/cover/cover_main.py:157-159 | as many covers are placed as fit the grid, and no more than there are |
| Cover.RowBelow | application/cover/cover_main.py:166 | a placed index falls on a row of the grid |
| Cover.EdgeWithin | application/cover/cover_main.py:165 | a tile in a column ends inside the canvas width |
| Cover.TileInside | application/cover/cover_main.py:165-167 | each tile lies wholly inside the canvas, and its position gives back its index |
| Cover.LayoutInside | application/cover/cover_main.py:157-169 | every pasted tile lies inside the canvas |
| Cover.LayoutSlots | application/cover/cover_main.py:157-169 | tiles occupy increasing, distinct grid slots |
| Cover.SlotsApart | application/cover/cover_main.py:165-167 | tiles in different slots are pasted at different positions |
| Cover.MulMonotone | application/cover/cover_main.py:165-166 | tile offsets grow with the index |
| Cover.MulDivCancel | application/cover/cover_main.py:165-166 | a tile's offset divided by the tile size gives back its column or row |
| Cover.Mosaic.constructor | application/cover/cover_main.py:155 | a new canvas of the given size with nothing pasted |
| Cover.Mosaic.Paste | application/cover/cover_main.py:167 | one tile is pasted at the position |
| Cover.CreateMosaic | application/cover/cover_main.py:145-172 | no covers, no mosaic; otherwise a canvas of the grid's size with the loadable covers pasted in order |
| Frames.Pending | application/player/test2.py:22-31 | the open group's count stays below step |
| Frames.PendingComplete | application/player/test2.py:22-31 | after n values the open group holds n mod step and n div step groups are closed |
| Frames.PendingStep | application/player/test2.py:27-31 | one more value closes a group exactly when the open one reaches step |
| Frames.DivDiv | application/player/test2.py:32 | whole frames count groups of step·width values |
| Frames.DivUnique | application/player/test2.py:26-31 | the quotient and remainder of the grouping are unique |
| Frames.MulMono | application/player/test2.py:26 | multiplication by a non-negative factor keeps order |
| Frames.Contributions | application/player/test2.py:26 | each sample contributes `int(abs(x) // divisor)` |
| Frames.Run | application/player/test2.py:22-34 | the open group's count is never negative, and an empty group has sum 0 |
| Frames.GraphFramesFromAudio | application/player/test2.py:8-38 | the loop yields exactly GraphFrames' frames, or its error |
| Frames.SumAppend | application/player/test2.py:26 | sums extend by the next value |
| Frames.FlattenAppend | application/player/test2.py:33 | the frames' values extend by the next frame |
| Frames.ValuesLength | application/player/test2.py:28-31 | one value per closed group |
| Frames.FlattenLength | application/player/test2.py:32-34 | full frames hold width values each |
| Frames.ValuesAppend | application/player/test2.py:28-31 | one more sample adds a value, the ceiling mean of its group, exactly when it closes a group |
| Frames.FeedOpen | application/player/test2.py:25-34 | a sample that leaves the group open keeps the loop state in step with the values |
| Frames.CloseValues | application/player/test2.py:28-30 | closing a group appends the ceiling of its mean |
| Frames.FeedClose | application/player/test2.py:28-34 | a sample that closes a group keeps the loop state in step with the values |
| Frames.RunTracks | application/player/test2.py:22-34 | the loop's state always matches the values computed so far |
| Frames.GenCounts | application/player/test2.py:32-34 | the frames yielded so far and the open frame's length follow from the number of samples |
| Frames.GraphFramesShape | application/player/test2.py:8-38 | there are |data| div (step·width) full frames of width values, plus at most one more |
| Frames.FinishFlatten | application/player/test2.py:35-38 | at the end the open frame is yielded, else the unclosed group's mean if non-zero |
| Frames.LeftoverOfRun | application/player/test2.py:37-38 | the leftover is the unclosed group's plain mean when no frame is open and the sum is non-zero |
| Frames.GraphFramesValues | application/player/test2.py:8-38 | read end to end, the frames are the group means in order followed by the leftover |
| Frames.WholeFrames | application/player/test2.py:32-35 | an exact multiple of step·width leaves no open group or frame |
| Frames.GraphFramesExact | application/player/test2.py:8-38 | for an exact multiple every frame is full and there is no leftover |
| Frames.CalcDataForVisualization | application/player/test2.py:41-62 | zero width·fps or zero height raises; a zero interval returns None; otherwise the length, the floor-divided point interval, 1/fps and max_amp/height |
| Frames.VisualizationInterval | application/player/test2.py:53-55 | with positive sizes there is a result exactly when the frame rate reaches width·fps, and the interval is its floor quotient |
| Frames.VisualizationFrames | application/player/test2.py:41-62 | the data splits into length div (interval·width) full frames, plus one partial frame unless it divides exactly |
| AudioPlayer.AfterPlay | application/player/audio_play_widget.py:191-226 | pressing play never leaves the label at "play", and gives "resume" exactly when the music was playing ("pause") |
| AudioPlayer.PauseResumeCycle | application/player/audio_play_widget.py:215-226 | once started, play toggles between pause and resume |
| AudioPlayer.BackIndex | application/player/audio_play_widget.py:346-349 | back never goes below the first song, lands on it exactly from songs 0 and 1, and never moves forward from a valid song |
| AudioPlayer.ForwardIndex | application/player/audio_play_widget.py:360-363 | forward never passes the last song, lands on it exactly from the last two, and never moves back from a valid song |
| AudioPlayer.BackUndoesForward | application/player/audio_play_widget.py:345-363 | back after forward returns to the song, away from the end of the playlist |
| AudioPlayer.ForwardUndoesBack | application/player/audio_play_widget.py:345-363 | forward after back returns to the song, away from the start of the playlist |
| AudioPlayer.StepsStayInPlaylist | application/player/audio_play_widget.py:345-363 | from a song of the playlist, back and forward stay in the playlist |
| AudioPlayer.PositionFlags | application/player/audio_play_widget.py:329-337 | within a playlist of two or more, back is disabled exactly on the first song and forward exactly on the last; the one-song and past-the-end cases follow the branch order |
| AudioPlayer.AddedKeepsPlaylist | application/player/audio_play_widget.py:144-151 | adding changes nothing, or appends or prepends the given file when it exists |
| AudioPlayer.Existing | application/player/audio_play_widget.py:138-142 | the new playlist has only existing files of the provider's list |
| AudioPlayer.ExistingMembers | application/player/audio_play_widget.py:138-142 | a file is in the new playlist exactly when the provider lists it and it exists |
| AudioPlayer.EndPostsRange | application/player/audio_play_widget.py:307-318 | k end events post the following songs' positions in order, as many as the playlist still holds |
| AudioPlayer.Player.constructor | application/player/audio_play_widget.py:95-136 | an empty playlist, no current song, label "play", every button disabled |
| AudioPlayer.Player.PlayAudio | application/player/audio_play_widget.py:186-226 | from "play" a missing current song raises IndexError and changes nothing; otherwise the label cycles, and starting enables stop |
| AudioPlayer.Player.StopAudio | application/player/audio_play_widget.py:233-250 | play is enabled with label "play", stop disabled, not paused |
| AudioPlayer.Player.AddAudioFile | application/player/audio_play_widget.py:144-157 | the playlist becomes Added; a non-empty playlist with nothing playing enables play and forward and selects the first song if none was |
| AudioPlayer.Player.OnNewPlaylist | application/player/audio_play_widget.py:138-142 | the loop builds exactly Existing of the provider's list |
| AudioPlayer.Player.OnPositionChanged | application/player/audio_play_widget.py:320-337 | a valid position becomes current and is played (restarted when busy or paused); the back/forward flags follow PositionFlags |
| AudioPlayer.Player.Restart | application/player/audio_play_widget.py:352-358 | while busy the song restarts playing; when paused it stops; otherwise nothing changes |
| AudioPlayer.Player.Back | application/player/audio_play_widget.py:345-358 | the song moves to BackIndex, forward is enabled, the position is posted, and playback restarts or stops as Restart says |
| AudioPlayer.Player.Forward | application/player/audio_play_widget.py:359-372 | the song moves to ForwardIndex, back is enabled, the position is posted, and playback restarts or stops as Restart says |
| AudioPlayer.Player.OnButtonPressed | application/player/audio_play_widget.py:339-372 | each button does its action; only back and forward post a position |
| AudioPlayer.Player.SongEnded | application/player/audio_play_widget.py:308-318 | the next song is posted and played while the playlist lasts; past its end the player stops |
| AudioPlayer.Player.UpdateProgress | application/player/audio_play_widget.py:294-318 | each end event advances the song; the loop posts exactly EndPosts and leaves the player playing iff it is still in the playlist |
| Spectrum.MaxOf | application/gui/fft_widget.py:126-131 | the maximum is an element and bounds every element |
| Spectrum.Divisor | application/gui/fft_widget.py:126-131 | `max or 1` is never zero |
| Spectrum.Normalized | application/gui/fft_widget.py:261-262 | an empty array raises ValueError; otherwise one value per band |
| Spectrum.NormalizedAt | application/gui/fft_widget.py:262 | each band is divided by the divisor |
| Spectrum.DivAtMostOne | application/gui/fft_widget.py:262 | a value up to the maximum divides to at most 1 |
| Spectrum.DivSelf | application/gui/fft_widget.py:262 | the maximum divides to exactly 1 |
| Spectrum.NormalizedBounds | application/gui/fft_widget.py:261-262 | non-negative bands scale into [0, 1], the loudest to 1; all-zero bands stay zero |
| Spectrum.MaxOfIs | application/gui/fft_widget.py:261 | any element bounding the others is the maximum |
| Spectrum.NormalizedIdempotent | application/gui/fft_widget.py:126-140 | normalising again, as update_bars does, changes nothing |
| Spectrum.BarRows | application/gui/fft_widget.py:52 | a magnitude in [0, 1] fills 0 to 7 rows, and 1 fills all 7 |
| Spectrum.Shown | application/gui/fft_widget.py:132-140 | each bar with a band takes that band's height; bars beyond the bands keep theirs |
| Spectrum.ChunkAfter | application/gui/fft_widget.py:296-305 | "t" doubles the chunk up to 8192, "r" halves it down to 512; other keys keep it |
| Spectrum.IntervalAfter | application/gui/fft_widget.py:306-313 | "f" shortens the interval by 0.01 down to 0.01, "s" lengthens it up to 0.5; other keys keep it |
| Spectrum.CutoffsAfter | application/gui/fft_widget.py:314-325 | "j" lowers the low cut-off to at least 20, "k" raises it to at most 10 below the high one, "u" lowers the high one to at least 10 above the low one, "i" raises it to at most 20000 |
| Spectrum.KeysKeepRanges | application/gui/fft_widget.py:293-325 | every key keeps the chunk, the interval and the cut-offs within their limits, the low cut-off 10 below the high one |
| Spectrum.DefaultsInRange | application/gui/fft_widget.py:158-174 | the defaults (chunk 8096, interval 0.01, cut-offs 80 and 10000) are within the limits |
| Spectrum.Visualizer.constructor | application/gui/fft_widget.py:98-115 | the widget keeps the given data and settings, with no bars |
| Spectrum.Visualizer.OnMount | application/gui/fft_widget.py:117-122 | one empty bar per bar count |
| Spectrum.Visualizer.UpdateBars | application/gui/fft_widget.py:124-140 | no data raises ValueError and changes nothing; otherwise the loop sets exactly Shown of the normalised data |
| Spectrum.Analyzer.constructor | application/gui/fft_widget.py:158-174 | chunk_size // 2 zeros of spectrum, no audio, no timer, position 0, cut-offs 80 and 10000 |
| Spectrum.Analyzer.OnMount | application/gui/fft_widget.py:186-189 | the audio is loaded and the timer runs at the update interval |
| Spectrum.Analyzer.OnKey | application/gui/fft_widget.py:293-325 | the settings change as ChunkAfter, IntervalAfter and CutoffsAfter say; "f" and "s" restart the timer; the limits are kept |
| Spectrum.Analyzer.UpdateFft | application/gui/fft_widget.py:214-291 | without a full chunk nothing changes; otherwise the spectrum becomes the normalised bands, the position advances half a chunk and the widget is redrawn from it |
| Spectrum.UpdateAdvances | application/gui/fft_widget.py:216-272 | each update advances the position by a positive amount smaller than the chunk read |
| Spectrum.RedrawnBarsInRange | application/gui/fft_widget.py:261-282 | redrawn bars show the normalised bands unchanged, in [0, 1] and 0 to 7 rows high |
| GenreSliders.Window | application/gui/genre_slider.py:149-150 | the window lies in [0, 1], clamped at 0 exactly for weights up to 0.03 and at 1 exactly from 0.97 |
| GenreSliders.WindowAroundValue | application/gui/genre_slider.py:115-116 | the window contains the weight, is at most 0.06 wide and is exactly ±0.03 away from the ends |
| GenreSliders.StripSuffix | application/gui/genre_slider.py:145 | removing "-amp-label" from a hyphen-free name with that suffix gives the name |
| GenreSliders.GenreOfOwnSlider | application/gui/genre_slider.py:133-145 | a hyphen-free genre's slider reports back to that genre |
| GenreSliders.ListedGenresRoundTrip | application/gui/genre_slider.py:89-104 | every one of the nine genres' sliders reports back to its genre |
| GenreSliders.Sliders.constructor | application/gui/genre_slider.py:87-104 | exactly the nine genres, each weighted 0.5, nothing selected |
| GenreSliders.Sliders.SendEvent | application/gui/genre_slider.py:106-118 | no highlight or an index out of range raises IndexError; otherwise the genre and its window are posted |
| GenreSliders.Sliders.OnSliderChanged | application/gui/genre_slider.py:133-152 | the slider's genre takes value/100 and becomes the selection; weights stay in [0, 1] |
| GenreSliders.Sliders.OnOptionSelected | application/gui/genre_slider.py:154-186 | a known genre becomes the selection and its slider starts at weight·100; an unknown one raises KeyError and changes nothing |
| GenreSliders.SliderChangesOneGenre | application/gui/genre_slider.py:145-150 | moving one slider leaves every other genre's weight unchanged |
| Logging.LogView.constructor | application/gui/log_controller.py:35-37 | an empty log widget |
| Logging.LogView.Clear | application/gui/log_controller.py:52 | the widget is emptied |
| Logging.LogView.Write | application/gui/log_controller.py:48 | the text is added at the end |
| Logging.Replayed | application/gui/log_controller.py:53-55 | one line per message, in order, each message with a newline |
| Logging.ReplayedAppend | application/gui/log_controller.py:53-55 | one more message adds one more line at the end |
| Logging.ReplayedInjective | application/gui/log_controller.py:50-55 | the widget's text after a refresh determines the history |
| Logging.LogController.constructor | application/gui/log_controller.py:35-37 | no messages and no widget |
| Logging.LogController.RefreshLogWidget | application/gui/log_controller.py:50-55 | an attached widget is cleared and shows exactly Replayed of the history |
| Logging.LogController.SetLogWidget | application/gui/log_controller.py:39-42 | the widget is attached and shows the whole history, which is kept |
| Logging.LogController.Write | application/gui/log_controller.py:44-48 | the message joins the history and, with a widget attached, is written to it |
| Logging.DetachedWritesReplayed | application/gui/log_controller.py:39-55 | a message written while detached is shown once a widget is attached |

## Left out

- File, CSV, JSON and SQLite I/O: files, progress tables and the catalogue are values (sequences of records, maps and a JSON datatype); SQL text and connection handling are not modelled.
- The Annoy neighbour index, scipy's cosine distance and numpy's square root are foreign or numeric code: neighbour answers are given sequences of (id, distance), and the distance is a function parameter.
- Floating point: all arithmetic is on exact reals, so rounding, NaN and infinity are not modelled, except that the initial best loss of `float("inf")` is an explicit `Infinity` value.
- The multiprocessing pool with its shared progress counter, and the thread pool of the Textual worker, are concurrency: the batches are modelled as processed one after the other, in order.
- The network (MusicBrainz, Wikidata, AcousticBrainz), the docker feature extractor, `time.sleep` and the clock are outside the model: responses are parameters, and the retry schedule returns the pauses it would sleep.
- mutagen tag reading, PIL image operations, `imghdr` detection, pydub decoding and the audio devices are foreign libraries: tags, detected formats and decoded samples are parameters; the mosaic records which tile is pasted where, not the pixels.
- Regular expressions are modelled for ASCII whitespace and word characters only; Unicode classes and case folding beyond ASCII are not.
- The curses and Textual rendering (labels, colours, sparklines, progress bars, timers, frequency labels and the statistics text) and `print` output are not modelled; widget state that decides behaviour is kept as fields.
- `os.walk` and `os.listdir` orders are inputs; the pending files of the importer are a set, so their order is not modelled.
- Generators are modelled by the list of everything they yield.
- The FFT pipeline of the spectrum visualiser (Hann window, rfft, logarithmic bands, gradient colours) is numeric work: the band magnitudes are a parameter of the bar update, and the module-level cut-off globals are fields of the analyser.
- The player's elapsed-time text, progress slider, song length and widget removal are not modelled; the mixer's "busy" flag, file existence and pending end-of-song events are parameters.
- UUID parsing (`extract_valid_uuids`), md5 in `construct_commons_url`, `process_audio_file` and `run_import` are foreign calls or I/O drivers; the importer's generated ids are parameters.
- The m4a branch of the MusicBrainz-id fallback and the `originalyear` tag are not modelled; the mp3 and FLAC tag paths are.
- Row ids handed out by SQLite are the 1-based positions of the rows in the modelled tables; exceptions raised inside insert statements are not modelled.
- The feedback prompt treats running out of input lines like the quit key, since a keyboard never runs out.
- The recursion of `track_similarity_processing` is bounded by its depth argument, so no extra fuel is needed; the neighbour searches it makes are a function parameter.
- Cover.CreateMosaic: the tile grid uses natural numbers, so the negative sizes PIL would accept are not modelled.
- Logging.LogController: a widget is attached when the field is non-null; Python truthiness of other widget values is not modelled.
- Trainer.SampleStep: numpy broadcasting of a length-1 vector is not modelled; the model raises ValueError whenever origin, track and weights differ in length, where numpy would broadcast a length-1 operand (and a first step from a single configured weight would widen the weights). The same holds for Trainer.TrainSample, Trainer.CursesOutcome and DataTable.TrainFeatureWeightsWorker.TrainFeatureWeights, which use it.
- Trainer.RatingValue: `float()` also reads "inf", "nan", "infinity" and their signed and mixed-case spellings; reals have no such values, so the model raises ValueError for them.
- SimilaritySession.PrepareFeedback: the neighbour search and the rating session's key presses are inputs; the weights confirmation screen, the config write-back and the index rebuild that follow training are not modelled.

## Findings

| source | as written | input that shows it | evidently intended | confidence | as-written member | corrected member |
|---|---|---|---|---|---|---|
| application/updater/updater_main.py:297-302 | an empty `first-release-date` is replaced by `None`, then `len(None)` is taken | a release group whose `first-release-date` is `""` | an empty date is stored as no date | not executed | Updater.ReleaseDateAsWritten | Updater.ReleaseDate |
| application/gui/data_table.py:265 | the rate option list is highlighted at `rating + 3`, while the options run from +3 down to -3 and selection reads `3 - index` | a track rated 2 highlights index 5, which reads back as -2 | the highlighted option is the track's own rating (index `3 - rating`) | not executed | DataTable.HighlightAsWritten | DataTable.HighlightIndex |
| application/gui/data_table.py:399-401 | the worker's target for feedback entry `idx` reads `similar_tracks_similarity[idx - 1]`, but the table rows (origin first) line up with `similar_tracks_similarity[idx]` | the first neighbour after the origin (idx 1) is trained towards the origin's own distance 0.0 at position 0 instead of its own distance | entry `idx` uses the similarity of its own row | not executed | DataTable.WorkerEnvAsWritten | DataTable.WorkerEnv |
| application/importer/importer_main.py:126-137 | `record_progress` calls `execute_query(sql, (file_path, status))`, so the SQL text lands in the `cursor` parameter and `cursor.execute` raises AttributeError; the handler swallows it when a connection is open, and raises again on the None connection otherwise | `record_progress("/music/a.mp3", "pending")` | the row is inserted as pending, or its status updated with one more retry | not executed | Importer.ImportTable.RecordProgressAsWritten | Importer.ImportTable.RecordProgress |
| application/importer/importer_main.py:140-146 | `get_pending_files` calls `execute_query(sql, fetch_all=True)`, so the required `query` argument is missing and the call raises TypeError before the folder is walked | `get_pending_files("/music")` | the pending rows are read, and every untracked importable file is recorded pending | not executed | Importer.ImportTable.GetPendingFilesAsWritten | Importer.ImportTable.GetPendingFiles |
| application/similarity/similarity_main.py:28 | the module imports `train_feature_weights` from `similarity/train_weights.py`, which defines only `train_feature_weights_curses`, so loading it (and `gui/data_table.py`, which imports from it) raises ImportError | importing `similarity.similarity_main` | `prepare_feedback` runs the curses trainer, whose signature matches the `curses.wrapper` call at lines 708-717 | not executed | SimilaritySession.ImportFromTrainWeights | SimilaritySession.PrepareFeedback |
