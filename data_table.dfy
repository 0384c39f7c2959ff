// The playlist table of the Textual interface (application/gui/data_table.py): row
// formatting, the sort-direction toggle, membership, the "Rate" column and its option-list
// highlight, the assembly of the training data when training stops, and the worker that
// trains the feature weights from that data while posting screen updates.
module DataTable {
  import opened Wrappers
  import PyStr
  import PyDict
  import PyArith
  import SN = SimilarityNeighbours
  import T = Trainer

  /** A table cell: text, a float (the "Delta" column holds the neighbour distance), or None. */
  datatype Cell = Text(s: string) | Number(x: real) | Missing

  /** A row of the table: its key and its cells, one per column. */
  datatype Row = Row(key: string, cells: seq<Cell>)

  // ---------------------------------------------------------------------------
  // add_track

  /**
   * `track_num, total_tracks = track_number.split("/")`, then `f"{int(track_num):02}/{total_tracks}"`:
   * unpacking fails unless there is exactly one "/", and `int()` fails on a malformed number.
   */
  function FormatTrackNumber(trackNumber: string): (r: Result<string>)
    ensures var parts := PyStr.Split(trackNumber, {'/'});
      r.Ok? <==> |parts| == 2 && PyStr.ParseInt(parts[0]).Some?
    ensures r.Err? ==> r.error == ValueError
  {
    var parts := PyStr.Split(trackNumber, {'/'});
    if |parts| != 2 then Err(ValueError)
    else
      match PyStr.ParseInt(parts[0])
      case None => Err(ValueError)
      case Some(n) => Ok(PyStr.ZeroPad2(n) + "/" + parts[1])
  }

  /**
   * The formatted number splits back into the same two parts: the first reads as the same
   * number, the second is the total unchanged.
   */
  lemma TrackNumberRoundTrip(trackNumber: string)
    requires FormatTrackNumber(trackNumber).Ok?
    ensures var parts := PyStr.Split(trackNumber, {'/'});
      var out := PyStr.Split(FormatTrackNumber(trackNumber).value, {'/'});
      |out| == 2 && PyStr.ParseInt(out[0]) == PyStr.ParseInt(parts[0]) && out[1] == parts[1]
  {
    var parts := PyStr.Split(trackNumber, {'/'});
    var n := PyStr.ParseInt(parts[0]).value;
    var pad := PyStr.ZeroPad2(n);
    assert forall i :: 0 <= i < |parts[1]| ==> parts[1][i] !in {'/'};
    NoSlashInZeroPad2(n);
    assert pad + "/" + parts[1] == pad + ['/'] + parts[1];
    PyStr.SplitTwo(pad, '/', parts[1], {'/'});
    PyStr.ParseZeroPad2(n);
  }

  lemma NoSlashInZeroPad2(n: int)
    ensures forall i :: 0 <= i < |PyStr.ZeroPad2(n)| ==> PyStr.ZeroPad2(n)[i] != '/'
  {
    var t := PyStr.ZeroPad2(n);
    if n < 0 {
      assert t == "-" + PyStr.NatToString(-n);
      assert forall i :: 1 <= i < |t| ==> t[i] == PyStr.NatToString(-n)[i - 1];
    }
  }

  /** A number and a total with one "/" between them are formatted as the padded number, "/", the total. */
  lemma FormatTrackNumberOf(a: string, b: string, n: int)
    requires forall i :: 0 <= i < |a| ==> a[i] != '/'
    requires forall i :: 0 <= i < |b| ==> b[i] != '/'
    requires PyStr.ParseInt(a) == Some(n)
    ensures FormatTrackNumber(a + "/" + b) == Ok(PyStr.ZeroPad2(n) + "/" + b)
  {
    assert a + "/" + b == a + ['/'] + b;
    PyStr.SplitTwo(a, '/', b, {'/'});
  }

  /** A one-digit number gets a leading zero: "3/12" is shown as "03/12". */
  lemma FormatOneDigit(d: char, b: string)
    requires '0' <= d <= '9'
    requires forall i :: 0 <= i < |b| ==> b[i] != '/'
    ensures FormatTrackNumber([d] + "/" + b) == Ok(['0', d] + "/" + b)
  {
    var n := d as int - '0' as int;
    assert PyStr.ParseInt([d]) == Some(n) by {
      assert PyStr.IntToString(n) == [d];
      PyStr.ParseIntOfIntToString(n);
    }
    assert PyStr.ZeroPad2(n) == ['0', d];
    FormatTrackNumberOf([d], b, n);
  }

  /** `if release_date: release_date = str(release_date).rstrip("-")`; None stays None. */
  function DateCell(releaseDate: Option<string>): (r: Cell)
    ensures releaseDate.None? <==> r == Missing
    ensures releaseDate.Some? ==> r.Text? && |r.s| <= |releaseDate.value| && r.s == releaseDate.value[..|r.s|]
    ensures releaseDate.Some? ==> r.s == [] || r.s[|r.s| - 1] != '-'
    ensures releaseDate.Some? ==> forall i :: |r.s| <= i < |releaseDate.value| ==> releaseDate.value[i] == '-'
  {
    match releaseDate
    case None => Missing
    case Some(d) => if d == [] then Text(d) else Text(PyStr.RStripChar(d, '-'))
  }

  /**
   * The row `add_track` adds: id, track number, title, length, album, artist, date, and the
   * distance when one is given; the key is the id.
   */
  function TrackRow(trackId: string, trackNumber: string, title: string, length: string, artist: string,
                    album: string, releaseDate: Option<string>, similarity: Option<real>): (r: Result<Row>)
  {
    match FormatTrackNumber(trackNumber)
    case Err(e) => Err(e)
    case Ok(number) =>
      var cells := [Text(trackId), Text(number), Text(title), Text(length), Text(album), Text(artist), DateCell(releaseDate)];
      Ok(Row(trackId, if similarity.Some? then cells + [Number(similarity.value)] else cells))
  }

  // ---------------------------------------------------------------------------
  // The rating cell and the option list

  /** The options of the rating list, top to bottom: "+3", "+2", "+1", "0", "-1", "-2", "-3". */
  const RateOptions: nat := 7

  /** `value = 3 - sel_value`: the rating an option index stands for. */
  function OptionValue(index: int): int
  {
    3 - index
  }

  /** The highlight the table sets for a row's rating, as written: `int(rate) + 3`. */
  function HighlightAsWritten(rating: int): int
  {
    rating + 3
  }

  /** Selecting the option highlighted as written gives the opposite rating. */
  lemma HighlightAsWrittenFlipsSign(rating: int)
    ensures OptionValue(HighlightAsWritten(rating)) == -rating
    ensures rating != 0 ==> OptionValue(HighlightAsWritten(rating)) != rating
  {
  }

  /** A row rated 2 highlights "-2", and choosing that option rates it -2. */
  lemma HighlightAsWrittenExample()
    ensures HighlightAsWritten(2) == 5 && OptionValue(5) == -2
  {
  }

  /** The highlight that shows the option a rating came from: `3 - rating`. */
  function HighlightIndex(rating: int): (r: int)
    ensures OptionValue(r) == rating
    ensures -3 <= rating <= 3 <==> 0 <= r < RateOptions
  {
    3 - rating
  }

  /** `int(cell)`: text through `int()`, a float truncated toward zero, None a TypeError. */
  function CellInt(c: Cell): (r: Result<int>)
    ensures c.Text? ==> (r.Ok? <==> PyStr.ParseInt(c.s).Some?)
    ensures c.Text? && r.Ok? ==> r.value == PyStr.ParseInt(c.s).value
    ensures c.Number? ==> r.Ok? && r.value as real <= (if c.x >= 0.0 then c.x else -c.x)
    ensures r.Err? ==> r.error in {ValueError, TypeError}
  {
    match c
    case Text(s) => if PyStr.ParseInt(s).Some? then Ok(PyStr.ParseInt(s).value) else Err(ValueError)
    case Number(x) => Ok(if x >= 0.0 then x.Floor else -((-x).Floor))
    case Missing => Err(TypeError)
  }

  /** The value of a rate cell as the trainer sees it. */
  function CellRating(c: Cell): T.Rating
  {
    match c
    case Text(s) => T.TextRating(s)
    case Number(x) => T.RealRating(x)
    case Missing => T.NoRating
  }

  /** `get_cell_at(Coordinate(row, column))`: a cell outside the table raises. */
  function CellAt(rows: seq<Row>, row: int, column: int): (r: Result<Cell>)
    ensures r.Ok? <==> 0 <= row < |rows| && 0 <= column < |rows[row].cells|
    ensures r.Ok? ==> r.value == rows[row].cells[column]
  {
    if 0 <= row < |rows| && 0 <= column < |rows[row].cells| then Ok(rows[row].cells[column])
    else Err(IndexError)
  }

  /** `update_cell_at`: one cell replaced, every other cell and every row key kept. */
  function SetCell(rows: seq<Row>, row: int, column: int, c: Cell): (r: seq<Row>)
    requires 0 <= row < |rows| && 0 <= column < |rows[row].cells|
    ensures |r| == |rows|
    ensures forall i :: 0 <= i < |r| ==> r[i].key == rows[i].key && |r[i].cells| == |rows[i].cells|
    ensures forall i, j :: 0 <= i < |r| && 0 <= j < |r[i].cells| ==>
      r[i].cells[j] == if i == row && j == column then c else rows[i].cells[j]
  {
    rows[row := Row(rows[row].key, rows[row].cells[column := c])]
  }

  /** The column "Rate" with default "0", added to every row. */
  function WithRateColumn(rows: seq<Row>): (r: seq<Row>)
    ensures |r| == |rows|
    ensures forall i :: 0 <= i < |r| ==> r[i] == Row(rows[i].key, rows[i].cells + [Text("0")])
  {
    seq(|rows|, i requires 0 <= i < |rows| => Row(rows[i].key, rows[i].cells + [Text("0")]))
  }

  /** `remove_column("rate")`: the last cell of every row is dropped. */
  function WithoutLastColumn(rows: seq<Row>): (r: seq<Row>)
    ensures |r| == |rows|
    ensures forall i :: 0 <= i < |r| ==>
      (r[i].key == rows[i].key &&
       r[i].cells == (if rows[i].cells == [] then [] else rows[i].cells[..|rows[i].cells| - 1]))
  {
    seq(|rows|, i requires 0 <= i < |rows| =>
      Row(rows[i].key, if rows[i].cells == [] then [] else rows[i].cells[..|rows[i].cells| - 1]))
  }

  /** Adding the rate column and removing it again restores the table. */
  lemma RateColumnRoundTrip(rows: seq<Row>)
    ensures WithoutLastColumn(WithRateColumn(rows)) == rows
  {
    var r := WithoutLastColumn(WithRateColumn(rows));
    forall i | 0 <= i < |rows| ensures r[i] == rows[i] {
      assert (rows[i].cells + [Text("0")])[..|rows[i].cells|] == rows[i].cells;
    }
  }

  // ---------------------------------------------------------------------------
  // stop_training: the training data

  /** What the loop over the rows has built after `n` rows: the dict and `origin_track`. */
  datatype Collected = Collected(data: PyDict.Dict<Cell, T.Rating>, origin: Cell)

  /**
   * `stop_training`'s loop over the first n rows: the row whose delta is 0.0 becomes the
   * origin with rating -1, every other row gives its rate cell; `origin_track` starts as -1.
   */
  function CollectedUpTo(rows: seq<Row>, n: nat): (r: Result<Collected>)
    requires n <= |rows|
    ensures r.Ok? ==> PyDict.DistinctKeys(r.value.data)
    ensures r.Err? ==> r.error == IndexError
  {
    if n == 0 then Ok(Collected([], Number(-1.0)))
    else
      match CollectedUpTo(rows, n - 1)
      case Err(e) => Err(e)
      case Ok(c) => AddRow(c, rows[n - 1])
  }

  /**
   * The body of the loop for one row: cells 0 and 7 are read, then cell 8 unless the delta
   * is zero; reading a cell the row lacks raises.
   */
  function AddRow(c: Collected, row: Row): (r: Result<Collected>)
    requires PyDict.DistinctKeys(c.data)
    ensures r.Ok? ==> PyDict.DistinctKeys(r.value.data)
    ensures r.Err? ==> r.error == IndexError
  {
    var cells := row.cells;
    if |cells| <= 7 then Err(IndexError)
    else if cells[7] == Number(0.0) then Ok(Collected(PyDict.Put(c.data, cells[0], T.IntRating(-1)), cells[0]))
    else if |cells| <= 8 then Err(IndexError)
    else Ok(Collected(PyDict.Put(c.data, cells[0], CellRating(cells[8])), c.origin))
  }

  /** Every row with both cells has its rating in the dict: -1 for a zero delta, its rate cell otherwise. */
  predicate Recorded(c: Collected, rows: seq<Row>, i: int)
    requires 0 <= i < |rows| && |rows[i].cells| > 8
  {
    PyDict.Get(c.data, rows[i].cells[0]) == Some(RowRating(rows[i]))
  }

  /** The rating a full row contributes: -1 for a zero delta, its rate cell otherwise. */
  function RowRating(row: Row): T.Rating
    requires |row.cells| > 8
  {
    if row.cells[7] == Number(0.0) then T.IntRating(-1) else CellRating(row.cells[8])
  }

  /** The ids of the rows are all different. */
  predicate DistinctIds(rows: seq<Row>)
  {
    forall i, j :: 0 <= i < j < |rows| && |rows[i].cells| > 0 && |rows[j].cells| > 0 ==>
      rows[i].cells[0] != rows[j].cells[0]
  }

  /** A full row with a new id appends one entry. */
  lemma AddRowFresh(c: Collected, row: Row)
    requires PyDict.DistinctKeys(c.data) && |row.cells| > 8 && !PyDict.HasKey(c.data, row.cells[0])
    ensures AddRow(c, row).Ok?
    ensures AddRow(c, row).value.data == c.data + [(row.cells[0], RowRating(row))]
    ensures AddRow(c, row).value.data == PyDict.Put(c.data, row.cells[0], RowRating(row))
  {
  }

  /** With distinct ids every row adds a new key at the end. */
  lemma {:induction false} CollectedKeys(rows: seq<Row>, n: nat)
    requires n <= |rows| && DistinctIds(rows)
    requires forall i :: 0 <= i < |rows| ==> |rows[i].cells| > 8
    ensures CollectedUpTo(rows, n).Ok?
    ensures var c := CollectedUpTo(rows, n).value;
      |c.data| == n && forall i :: 0 <= i < n ==> c.data[i].0 == rows[i].cells[0]
  {
    if n > 0 {
      CollectedKeys(rows, n - 1);
      var c := CollectedUpTo(rows, n - 1).value;
      FreshId(rows, n - 1, c);
      AddRowFresh(c, rows[n - 1]);
    }
  }

  /** The id of row n is not among the keys of the first n rows. */
  lemma FreshId(rows: seq<Row>, n: nat, c: Collected)
    requires n < |rows| && DistinctIds(rows) && PyDict.DistinctKeys(c.data)
    requires forall i :: 0 <= i < |rows| ==> |rows[i].cells| > 8
    requires |c.data| == n && forall i :: 0 <= i < n ==> c.data[i].0 == rows[i].cells[0]
    ensures !PyDict.HasKey(c.data, rows[n].cells[0])
  {
    forall i | 0 <= i < |c.data| ensures c.data[i].0 != rows[n].cells[0] {
      assert c.data[i].0 == rows[i].cells[0];
    }
  }

  /** Each row's rating is the one its cells give. */
  lemma {:induction false} CollectedRecorded(rows: seq<Row>, n: nat)
    requires n <= |rows| && DistinctIds(rows)
    requires forall i :: 0 <= i < |rows| ==> |rows[i].cells| > 8
    ensures CollectedUpTo(rows, n).Ok?
    ensures forall i :: 0 <= i < n ==> Recorded(CollectedUpTo(rows, n).value, rows, i)
  {
    if n > 0 {
      CollectedRecorded(rows, n - 1);
      var c := CollectedUpTo(rows, n - 1).value;
      CollectedStep(rows, n - 1, c);
      assert AddRow(c, rows[n - 1]).Ok? &&
        AddRow(c, rows[n - 1]).value.data == PyDict.Put(c.data, rows[n - 1].cells[0], RowRating(rows[n - 1])) by {
        CollectedKeys(rows, n - 1);
        FreshId(rows, n - 1, c);
        AddRowFresh(c, rows[n - 1]);
      }
      RecordedStep(rows, n - 1, c, AddRow(c, rows[n - 1]).value);
    }
  }

  /** Adding row n's entry keeps the earlier rows' ratings and records row n's. */
  lemma RecordedStep(rows: seq<Row>, n: nat, c: Collected, c': Collected)
    requires n < |rows| && DistinctIds(rows)
    requires forall i :: 0 <= i < |rows| ==> |rows[i].cells| > 8
    requires PyDict.DistinctKeys(c.data)
    requires forall i :: 0 <= i < n ==> Recorded(c, rows, i)
    requires c'.data == PyDict.Put(c.data, rows[n].cells[0], RowRating(rows[n]))
    ensures forall i :: 0 <= i < n + 1 ==> Recorded(c', rows, i)
  {
    var id := rows[n].cells[0];
    var v := RowRating(rows[n]);
    forall i | 0 <= i < n + 1 ensures Recorded(c', rows, i) {
      PyDict.GetPut(c.data, id, v, rows[i].cells[0]);
      if i < n {
        assert Recorded(c, rows, i);
      }
    }
  }

  /** `origin_track` is -1 or the id of a row with a zero delta. */
  lemma {:induction false} CollectedOrigin(rows: seq<Row>, n: nat)
    requires n <= |rows|
    ensures CollectedUpTo(rows, n).Ok? ==>
      var c := CollectedUpTo(rows, n).value;
      c.origin == Number(-1.0) ||
      exists i :: 0 <= i < n && |rows[i].cells| > 7 && rows[i].cells[7] == Number(0.0) && c.origin == rows[i].cells[0]
  {
    if n > 0 {
      CollectedOrigin(rows, n - 1);
    }
  }

  /**
   * The training data of a table whose rows all have the nine cells and distinct ids: one
   * entry per row in row order, each with its rating, and the origin is -1 or a row with a
   * zero delta.
   */
  lemma CollectedProperties(rows: seq<Row>)
    requires DistinctIds(rows)
    requires forall i :: 0 <= i < |rows| ==> |rows[i].cells| > 8
    ensures CollectedUpTo(rows, |rows|).Ok?
    ensures var c := CollectedUpTo(rows, |rows|).value;
      PyDict.Keys(c.data) == seq(|rows|, i requires 0 <= i < |rows| => rows[i].cells[0]) &&
      (forall i :: 0 <= i < |rows| ==> Recorded(c, rows, i)) &&
      (c.origin == Number(-1.0) ||
       exists i :: 0 <= i < |rows| && rows[i].cells[7] == Number(0.0) && c.origin == rows[i].cells[0])
  {
    CollectedKeys(rows, |rows|);
    CollectedRecorded(rows, |rows|);
    CollectedOrigin(rows, |rows|);
  }

  // ---------------------------------------------------------------------------
  // The table widget

  /** What selecting a row does: outside training it moves the player, in training it highlights a rating. */
  datatype Selection = PositionChanged(row: int) | Highlight(index: int)

  class PlaylistWidget {
    var rows: seq<Row>
    var currentSorts: set<string>
    var inTraining: bool
    /** The row of `cel_rate_coordinate`, whose column is always 8. */
    var rateRow: Option<int>
    var similarTracks: seq<SN.Neighbor>

    constructor ()
      ensures rows == [] && currentSorts == {} && !inTraining && rateRow == None && similarTracks == []
    {
      rows := [];
      currentSorts := {};
      inTraining := false;
      rateRow := None;
      similarTracks := [];
    }

    /** `add_track`: the formatted row is appended; a malformed track number raises and adds nothing. */
    method AddTrack(trackId: string, trackNumber: string, title: string, length: string, artist: string,
                    album: string, releaseDate: Option<string>, similarity: Option<real>) returns (r: Result<Row>)
      modifies this`rows
      ensures r == TrackRow(trackId, trackNumber, title, length, artist, album, releaseDate, similarity)
      ensures rows == if r.Ok? then old(rows) + [r.value] else old(rows)
    {
      r := TrackRow(trackId, trackNumber, title, length, artist, album, releaseDate, similarity);
      if r.Ok? {
        rows := rows + [r.value];
      }
    }

    /** `clear_table`. */
    method ClearTable()
      modifies this`rows
      ensures rows == []
    {
      rows := [];
    }

    /** `sort_reverse`: whether the key was already sorted on, and its membership toggled. */
    method SortReverse(sortType: string) returns (reverse: bool)
      modifies this`currentSorts
      ensures reverse == (sortType in old(currentSorts))
      ensures currentSorts == Toggled(old(currentSorts), sortType)
    {
      reverse := sortType in currentSorts;
      if reverse {
        currentSorts := currentSorts - {sortType};
      } else {
        currentSorts := currentSorts + {sortType};
      }
    }

    /** `is_in_playlist`: some row key equals the id. */
    method IsInPlaylist(id: string) returns (found: bool)
      ensures found <==> exists i :: 0 <= i < |rows| && rows[i].key == id
    {
      var i := 0;
      while i < |rows|
        invariant 0 <= i <= |rows|
        invariant forall k :: 0 <= k < i ==> rows[k].key != id
      {
        if rows[i].key == id {
          return true;
        }
        i := i + 1;
      }
      return false;
    }

    /** `do_training`: the "Rate" column with default "0" is added. */
    method DoTraining()
      modifies this`inTraining, this`rows
      ensures inTraining && rows == WithRateColumn(old(rows))
    {
      inTraining := true;
      rows := WithRateColumn(rows);
    }

    /**
     * `on_data_table_row_selected`: outside training the player moves to the row; in training
     * the row's rate cell chooses the highlighted option (the corrected index, see
     * `HighlightIndex`).
     */
    method OnRowSelected(cursorRow: int) returns (r: Result<Selection>)
      modifies this`rateRow
      ensures !inTraining ==> r == Ok(PositionChanged(cursorRow)) && rateRow == old(rateRow)
      ensures inTraining ==> rateRow == Some(cursorRow)
      ensures inTraining ==> match CellAt(rows, cursorRow, 8)
        case Err(e) => r == Err(e)
        case Ok(c) => match CellInt(c)
          case Err(e) => r == Err(e)
          case Ok(v) => r == Ok(Highlight(HighlightIndex(v)))
    {
      if !inTraining {
        return Ok(PositionChanged(cursorRow));
      }
      rateRow := Some(cursorRow);
      var cell := CellAt(rows, cursorRow, 8);
      if cell.Err? {
        return Err(cell.error);
      }
      var value := CellInt(cell.value);
      if value.Err? {
        return Err(value.error);
      }
      return Ok(Highlight(HighlightIndex(value.value)));
    }

    /** `update_rating`: the selected row's rate cell becomes `str(value)`. */
    method UpdateRating(value: int) returns (r: Result<()>)
      modifies this`rows
      ensures rateRow.None? ==> r == Ok(()) && rows == old(rows)
      ensures rateRow.Some? ==> (r.Ok? <==> CellAt(old(rows), rateRow.value, 8).Ok?)
      ensures rateRow.Some? && r.Ok? ==> rows == SetCell(old(rows), rateRow.value, 8, Text(PyStr.IntToString(value)))
      ensures r.Err? ==> r.error == IndexError && rows == old(rows)
    {
      if rateRow.None? {
        return Ok(());
      }
      var row := rateRow.value;
      if !(0 <= row < |rows| && 8 < |rows[row].cells|) {
        return Err(IndexError);
      }
      rows := SetCell(rows, row, 8, Text(PyStr.IntToString(value)));
      return Ok(());
    }

    /** The loop of `stop_training` over the rows. */
    method CollectTrainingData() returns (r: Result<Collected>)
      ensures r == CollectedUpTo(rows, |rows|)
    {
      r := CollectRows(rows);
    }

    /**
     * `stop_training`: training mode ends, the rows give the training data, the "Rate"
     * column goes, and a fresh worker caches the vectors and trains; the result is the
     * weights to write back when `new_weights` is non-empty.
     */
    method StopTraining(doTraining: bool, features: Cell -> Option<seq<real>>, configWeights: seq<real>,
                        sqrt: real -> real) returns (r: Result<Option<seq<real>>>)
      modifies this`inTraining, this`rows
      ensures !doTraining ==> r == Ok(None) && inTraining == old(inTraining) && rows == old(rows)
      ensures doTraining ==> !inTraining && r == StopOutcome(old(rows), similarTracks, features, configWeights, sqrt)
      ensures doTraining ==>
        rows == if CollectedUpTo(old(rows), |old(rows)|).Ok? then WithoutLastColumn(old(rows)) else old(rows)
    {
      if !doTraining {
        return Ok(None);
      }
      inTraining := false;
      var collected := CollectTrainingData();
      if collected.Err? {
        return Err(collected.error);
      }
      var trainingData, originTrack := collected.value.data, collected.value.origin;
      ghost var tableRows := rows;
      rows := WithoutLastColumn(rows);
      var worker := new TrainFeatureWeightsWorker();
      var init := worker.InitTraining(trainingData, originTrack, features);
      if init.Err? {
        StopAtVectors(tableRows, similarTracks, features, configWeights, sqrt);
        return Err(init.error);
      }
      StopAfterVectors(tableRows, similarTracks, features, configWeights, sqrt);
      var trained := worker.TrainFeatureWeights(similarTracks, trainingData, originTrack, configWeights, sqrt,
                                                StopLearningRate, StopMaxEpochs, StopPatience);
      if trained.Err? {
        return Err(trained.error);
      }
      if worker.newWeights.Some? && |worker.newWeights.value| > 0 {
        return Ok(Some(worker.newWeights.value));
      }
      return Ok(None);
    }
  }

  /** `current_sorts` after one call of `sort_reverse`. */
  function Toggled(sorts: set<string>, key: string): (r: set<string>)
    ensures key in r <==> key !in sorts
    ensures forall k :: k != key ==> (k in r <==> k in sorts)
  {
    if key in sorts then sorts - {key} else sorts + {key}
  }

  /** Two calls on the same key answer False then True (or the reverse) and restore the set. */
  lemma ToggledTwice(sorts: set<string>, key: string)
    ensures Toggled(Toggled(sorts, key), key) == sorts
    ensures (key in Toggled(sorts, key)) == !(key in sorts)
  {
  }

  /** One more row of the loop is one more `AddRow`. */
  lemma CollectedStep(rows: seq<Row>, n: nat, c: Collected)
    requires n < |rows| && CollectedUpTo(rows, n) == Ok(c)
    ensures PyDict.DistinctKeys(c.data)
    ensures CollectedUpTo(rows, n + 1) == AddRow(c, rows[n])
  {
  }

  /** `stop_training`'s loop over the table's rows, `training_data` and `origin_track` as it leaves them. */
  method CollectRows(table: seq<Row>) returns (r: Result<Collected>)
    ensures r == CollectedUpTo(table, |table|)
  {
    var data: PyDict.Dict<Cell, T.Rating> := [];
    var origin := Number(-1.0);
    var i := 0;
    while i < |table|
      invariant i <= |table|
      invariant CollectedUpTo(table, i) == Ok(Collected(data, origin))
    {
      var step := CollectNext(table, i, data, origin);
      match step {
        case Err(_) =>
          IndexErrorStable(table, i + 1, |table|);
          return Err(IndexError);
        case Ok(c) =>
          data, origin := c.data, c.origin;
      }
      i := i + 1;
    }
    return Ok(Collected(data, origin));
  }

  /** One more row of the loop: the collection up to and including row `i`. */
  method CollectNext(table: seq<Row>, i: nat, data: PyDict.Dict<Cell, T.Rating>, origin: Cell) returns (r: Result<Collected>)
    requires i < |table| && CollectedUpTo(table, i) == Ok(Collected(data, origin))
    ensures r == CollectedUpTo(table, i + 1)
  {
    CollectedStep(table, i, Collected(data, origin));
    r := CollectRow(data, origin, table[i]);
  }

  /**
   * The body of `stop_training`'s loop for one row: its id with rating -1 and the origin
   * moved to it for a zero delta, its id with its rate cell otherwise; a missing cell raises.
   */
  method CollectRow(data: PyDict.Dict<Cell, T.Rating>, origin: Cell, row: Row) returns (r: Result<Collected>)
    requires PyDict.DistinctKeys(data)
    ensures r == AddRow(Collected(data, origin), row)
    ensures r.Ok? ==> PyDict.DistinctKeys(r.value.data)
  {
    AddRowCases(Collected(data, origin), row);
    if !(7 < |row.cells|) {
      return Err(IndexError);
    }
    var trackId := row.cells[0];
    var delta := row.cells[7];
    var rate;
    var newOrigin := origin;
    if delta == Number(0.0) {
      newOrigin := trackId;
      rate := T.IntRating(-1);
    } else {
      if !(8 < |row.cells|) {
        return Err(IndexError);
      }
      rate := CellRating(row.cells[8]);
    }
    return Ok(Collected(PyDict.Put(data, trackId, rate), newOrigin));
  }

  /** The outcomes of the loop body, case by case. */
  lemma AddRowCases(c: Collected, row: Row)
    requires PyDict.DistinctKeys(c.data)
    ensures |row.cells| <= 7 ==> AddRow(c, row) == Err(IndexError)
    ensures |row.cells| > 7 && row.cells[7] == Number(0.0) ==>
      AddRow(c, row) == Ok(Collected(PyDict.Put(c.data, row.cells[0], T.IntRating(-1)), row.cells[0]))
    ensures |row.cells| == 8 && row.cells[7] != Number(0.0) ==> AddRow(c, row) == Err(IndexError)
    ensures |row.cells| > 8 && row.cells[7] != Number(0.0) ==>
      AddRow(c, row) == Ok(Collected(PyDict.Put(c.data, row.cells[0], CellRating(row.cells[8])), c.origin))
  {
  }

  /** A raised error ends the loop over the rows. */
  lemma {:induction false} IndexErrorStable(rows: seq<Row>, n: nat, m: nat)
    requires n <= m <= |rows| && CollectedUpTo(rows, n) == Err(IndexError)
    ensures CollectedUpTo(rows, m) == Err(IndexError)
    decreases m
  {
    if m > n {
      IndexErrorStable(rows, n, m - 1);
    }
  }

  /** After a selection in training, choosing the highlighted option writes back the same rating. */
  lemma RatingSelectionRoundTrip(v: int)
    ensures CellInt(Text(PyStr.IntToString(v))) == Ok(v)
    ensures OptionValue(HighlightIndex(v)) == v
  {
    PyStr.ParseIntOfIntToString(v);
  }

  // ---------------------------------------------------------------------------
  // TrainFeatureWeightsWorker

  /**
   * The `ScreenUpdate` messages the worker posts: the header with the epoch total, the loss
   * of every tenth epoch, each rate reduction, and the closing status (early stop or done).
   */
  datatype ScreenUpdate = Started(total: int) | Progress(loss: real, epoch: nat) | RateReduced(lr: real)
                        | Completed | StoppedEarly(at: int)

  /**
   * `init_training`'s cache after the origin and the first n feedback items: one vector per
   * id, the origin's first. A track without a feature row makes `get_feature_vector` index
   * `None` (TypeError).
   */
  function VectorsUpTo(feedback: PyDict.Dict<Cell, T.Rating>, origin: Cell, features: Cell -> Option<seq<real>>, n: nat)
    : (r: Result<map<Cell, seq<real>>>)
    requires n <= |feedback|
    ensures r.Ok? ==> origin in r.value
    ensures r.Err? ==> r.error == TypeError
  {
    if n == 0 then
      match features(origin)
      case None => Err(TypeError)
      case Some(v) => Ok(map[origin := v])
    else
      match VectorsUpTo(feedback, origin, features, n - 1)
      case Err(e) => Err(e)
      case Ok(m) =>
        match features(feedback[n - 1].0)
        case None => Err(TypeError)
        case Some(v) => Ok(m[feedback[n - 1].0 := v])
  }

  /**
   * The cache holds exactly the origin and the feedback ids, each with its own vector, and
   * it is built exactly when every one of them has a vector.
   */
  lemma {:induction false} VectorsCached(feedback: PyDict.Dict<Cell, T.Rating>, origin: Cell,
                                         features: Cell -> Option<seq<real>>, n: nat)
    requires n <= |feedback|
    ensures VectorsUpTo(feedback, origin, features, n).Ok? <==>
      features(origin).Some? && forall k :: 0 <= k < n ==> features(feedback[k].0).Some?
    ensures VectorsUpTo(feedback, origin, features, n).Ok? ==>
      var m := VectorsUpTo(feedback, origin, features, n).value;
      (forall id :: id in m <==> id == origin || exists k :: 0 <= k < n && feedback[k].0 == id) &&
      (forall id :: id in m ==> features(id) == Some(m[id]))
  {
    if n > 0 {
      VectorsCached(feedback, origin, features, n - 1);
    }
  }

  /** `self.feedback_vectors[track_id]`: None where the dict raises KeyError. */
  function Lookup(m: map<Cell, seq<real>>): Cell -> Option<seq<real>>
  {
    id => if id in m then Some(m[id]) else None
  }

  /**
   * The run of `train_feature_weights` with the feedback item at position idx paired with
   * `similar_tracks[idx]`: the origin is row 0 of the table and entry 0 of `similar_tracks`
   * (it is prepended with distance 0.0), so both lists are in the same order.
   */
  function WorkerEnv(similarTracks: seq<SN.Neighbor>, feedback: PyDict.Dict<Cell, T.Rating>, origin: Cell,
                     m: map<Cell, seq<real>>, sqrt: real -> real): (env: T.Env<Cell>)
    requires origin in m
    ensures env.offset == 0 && env.feedback == feedback && env.origin == origin
  {
    T.Env(feedback, origin, T.Distances(similarTracks), 0, m[origin], Lookup(m), T.Cache, sqrt, T.DefaultAdjustmentFactor)
  }

  /** The run as written: `similar_tracks_similarity[idx - 1]`, one position behind the rows. */
  function WorkerEnvAsWritten(similarTracks: seq<SN.Neighbor>, feedback: PyDict.Dict<Cell, T.Rating>, origin: Cell,
                              m: map<Cell, seq<real>>, sqrt: real -> real): (env: T.Env<Cell>)
    requires origin in m
    ensures env == WorkerEnv(similarTracks, feedback, origin, m, sqrt).(offset := 1)
  {
    T.Env(feedback, origin, T.Distances(similarTracks), 1, m[origin], Lookup(m), T.Cache, sqrt, T.DefaultAdjustmentFactor)
  }

  /**
   * With the corrected pairing, the target of every rated item is its own row's distance
   * adjusted by its rating.
   */
  lemma WorkerTargetAligned(similarTracks: seq<SN.Neighbor>, feedback: PyDict.Dict<Cell, T.Rating>, origin: Cell,
                            m: map<Cell, seq<real>>, sqrt: real -> real, k: nat)
    requires origin in m && k < |feedback| && k < |similarTracks|
    requires T.RatingValue(feedback[k].1).Ok?
    ensures T.TargetAt(WorkerEnv(similarTracks, feedback, origin, m, sqrt), k) ==
      Ok(T.MapRatingToSimilarity(similarTracks[k].distance, T.RatingValue(feedback[k].1).value, T.DefaultAdjustmentFactor))
  {
  }

  /**
   * As written, the first neighbour row (position 1) is given the origin's distance 0.0
   * from entry 0 of `similar_tracks` instead of its own distance from entry 1.
   */
  lemma WorkerTargetAsWrittenShifted(similarTracks: seq<SN.Neighbor>, feedback: PyDict.Dict<Cell, T.Rating>, origin: Cell,
                                     m: map<Cell, seq<real>>, sqrt: real -> real, rating: int)
    requires origin in m && |feedback| >= 2 && |similarTracks| >= 2
    requires similarTracks[0].distance == 0.0 && feedback[1].1 == T.IntRating(rating)
    ensures T.TargetAt(WorkerEnvAsWritten(similarTracks, feedback, origin, m, sqrt), 1) ==
      Ok(T.MapRatingToSimilarity(0.0, rating as real, T.DefaultAdjustmentFactor))
    ensures T.TargetAt(WorkerEnv(similarTracks, feedback, origin, m, sqrt), 1) ==
      Ok(T.MapRatingToSimilarity(similarTracks[1].distance, rating as real, T.DefaultAdjustmentFactor))
  {
  }

  /** `range(max_epochs)` runs no epoch for a negative count. */
  function EpochCount(maxEpochs: int): (e: nat)
    ensures e == if maxEpochs < 0 then 0 else maxEpochs
  {
    if maxEpochs < 0 then 0 else maxEpochs
  }

  /**
   * The messages of the epoch that starts in state s: the loss when its index is a multiple
   * of 10, then the new rate when the decay rule fires and training goes on.
   */
  function EpochMessages(s: T.TrainState, acc: T.EpochAcc, patience: int): seq<ScreenUpdate>
  {
    var t := T.AfterEpoch(s, acc, patience);
    (if s.epochs % 10 == 0 then [Progress(acc.loss, s.epochs)] else []) +
    (if !t.stopped && t.halvings > s.halvings then [RateReduced(t.lr)] else [])
  }

  /** The messages of the first e epochs of a run from the configured weights; a failed epoch posts nothing. */
  function RunMessages<Id(==)>(env: T.Env<Id>, w: seq<real>, lr: real, patience: int, e: nat): seq<ScreenUpdate>
  {
    if e == 0 then []
    else
      var prev := RunMessages(env, w, lr, patience, e - 1);
      match T.Run(env, T.Initial(w, lr), patience, e - 1)
      case Err(_) => prev
      case Ok(s) =>
        if s.stopped then prev
        else
          match T.EpochOf(env, s)
          case Err(_) => prev
          case Ok(acc) => prev + EpochMessages(s, acc, patience)
  }

  /** The closing status: the index of the epoch that broke the loop, or completion. */
  function FinalStatus(s: T.TrainState): (m: ScreenUpdate)
    ensures m.StoppedEarly? <==> s.stopped
  {
    if s.stopped then StoppedEarly(s.epochs - 1) else Completed
  }

  predicate IsProgress(m: ScreenUpdate) { m.Progress? }

  predicate IsRateReduced(m: ScreenUpdate) { m.RateReduced? }

  /** How many messages satisfy p. */
  function Count(msgs: seq<ScreenUpdate>, p: ScreenUpdate -> bool): nat
  {
    if msgs == [] then 0 else Count(msgs[..|msgs| - 1], p) + (if p(msgs[|msgs| - 1]) then 1 else 0)
  }

  lemma {:induction false} CountAppend(a: seq<ScreenUpdate>, b: seq<ScreenUpdate>, p: ScreenUpdate -> bool)
    ensures Count(a + b, p) == Count(a, p) + Count(b, p)
    decreases |b|
  {
    if b == [] {
      assert a + b == a;
    } else {
      assert (a + b)[..|a + b| - 1] == a + b[..|b| - 1];
      assert (a + b)[|a + b| - 1] == b[|b| - 1];
      CountAppend(a, b[..|b| - 1], p);
      assert Count(b, p) == Count(b[..|b| - 1], p) + (if p(b[|b| - 1]) then 1 else 0);
    }
  }

  /** One more epoch adds a progress message exactly when the epochs done so far are a multiple of 10. */
  lemma ProgressCountStep(n: nat)
    ensures (n + 10) / 10 == (n + 9) / 10 + (if n % 10 == 0 then 1 else 0)
  {
    var q := n / 10;
    var r := n % 10;
    assert n == 10 * q + r;
    if r == 0 {
      assert (n + 10) / 10 == q + 1;
      assert (n + 9) / 10 == q;
    } else {
      assert (n + 10) / 10 == q + 1;
      assert (n + 9) / 10 == q + 1;
    }
  }

  /** The epoch's messages: progress exactly on a multiple of 10, a reduction exactly when the rate is halved. */
  lemma EpochMessageCounts(s: T.TrainState, acc: T.EpochAcc, patience: int)
    ensures var t := T.AfterEpoch(s, acc, patience);
      Count(EpochMessages(s, acc, patience), IsProgress) == (if s.epochs % 10 == 0 then 1 else 0) &&
      Count(EpochMessages(s, acc, patience), IsRateReduced) == t.halvings - s.halvings
  {
    var t := T.AfterEpoch(s, acc, patience);
    var a: seq<ScreenUpdate> := if s.epochs % 10 == 0 then [Progress(acc.loss, s.epochs)] else [];
    var b: seq<ScreenUpdate> := if !t.stopped && t.halvings > s.halvings then [RateReduced(t.lr)] else [];
    CountAppend(a, b, IsProgress);
    CountAppend(a, b, IsRateReduced);
    assert Count(b, IsRateReduced) == t.halvings - s.halvings by {
      if b != [] {
        assert b[..0] == [];
      }
    }
    assert Count(a, IsProgress) == (if s.epochs % 10 == 0 then 1 else 0) by {
      if a != [] {
        assert a[..0] == [];
      }
    }
    assert Count(b, IsProgress) == 0 by {
      if b != [] {
        assert b[..0] == [];
      }
    }
    assert Count(a, IsRateReduced) == 0 by {
      if a != [] {
        assert a[..0] == [];
      }
    }
  }

  /** One progress message per ten epochs begun and one rate message per halving. */
  predicate CountsMatch(msgs: seq<ScreenUpdate>, s: T.TrainState)
  {
    Count(msgs, IsProgress) == (s.epochs + 9) / 10 && Count(msgs, IsRateReduced) == s.halvings
  }

  /** The counts after one more epoch, from the counts before it. */
  lemma CountsAfterEpoch(msgs: seq<ScreenUpdate>, s: T.TrainState, acc: T.EpochAcc, patience: int)
    requires CountsMatch(msgs, s)
    ensures CountsMatch(msgs + EpochMessages(s, acc, patience), T.AfterEpoch(s, acc, patience))
  {
    var more := EpochMessages(s, acc, patience);
    var t := T.AfterEpoch(s, acc, patience);
    CountAppend(msgs, more, IsProgress);
    CountAppend(msgs, more, IsRateReduced);
    EpochMessageCounts(s, acc, patience);
    ProgressCountStep(s.epochs);
    assert t.epochs == s.epochs + 1;
    assert Count(msgs + more, IsProgress) == (s.epochs + 9) / 10 + (if s.epochs % 10 == 0 then 1 else 0);
  }

  /**
   * A run that has done its epochs posted one progress message per ten epochs begun
   * (`epoch % 10 == 0`) and one rate message per halving.
   */
  lemma {:induction false} RunMessageCounts<Id>(env: T.Env<Id>, w: seq<real>, lr: real, patience: int, e: nat)
    ensures T.Run(env, T.Initial(w, lr), patience, e).Ok? ==>
      CountsMatch(RunMessages(env, w, lr, patience, e), T.Run(env, T.Initial(w, lr), patience, e).value)
  {
    if e > 0 {
      RunMessageCounts(env, w, lr, patience, e - 1);
      var prev := T.Run(env, T.Initial(w, lr), patience, e - 1);
      if prev.Ok? && !prev.value.stopped && T.EpochOf(env, prev.value).Ok? {
        var s := prev.value;
        var acc := T.EpochOf(env, s).value;
        var msgs := RunMessages(env, w, lr, patience, e - 1);
        AdvancedEpoch(env, w, lr, patience, e - 1, s, acc);
        CountsAfterEpoch(msgs, s, acc, patience);
        assert CountsMatch(RunMessages(env, w, lr, patience, e), T.AfterEpoch(s, acc, patience));
      } else {
        StalledEpoch(env, w, lr, patience, e);
      }
    }
  }

  /** Every progress message carries an epoch index that is a multiple of 10. */
  predicate ProgressOnTenth(msgs: seq<ScreenUpdate>)
  {
    forall i :: 0 <= i < |msgs| && msgs[i].Progress? ==> msgs[i].epoch % 10 == 0
  }

  lemma EpochProgressOnTenth(s: T.TrainState, acc: T.EpochAcc, patience: int)
    ensures ProgressOnTenth(EpochMessages(s, acc, patience))
  {
    var more := EpochMessages(s, acc, patience);
    forall i | 0 <= i < |more| && more[i].Progress?
      ensures more[i].epoch % 10 == 0
    {
      assert s.epochs % 10 == 0 && more[0] == Progress(acc.loss, s.epochs);
    }
  }

  lemma ProgressOnTenthAppend(a: seq<ScreenUpdate>, b: seq<ScreenUpdate>)
    requires ProgressOnTenth(a) && ProgressOnTenth(b)
    ensures ProgressOnTenth(a + b)
  {
    forall i | 0 <= i < |a + b| && (a + b)[i].Progress?
      ensures (a + b)[i].epoch % 10 == 0
    {
      if i >= |a| {
        assert (a + b)[i] == b[i - |a|];
      }
    }
  }

  /** Progress is posted only on epochs whose index is a multiple of 10. */
  lemma {:induction false} ProgressEveryTenth<Id>(env: T.Env<Id>, w: seq<real>, lr: real, patience: int, e: nat)
    ensures ProgressOnTenth(RunMessages(env, w, lr, patience, e))
  {
    if e > 0 {
      ProgressEveryTenth(env, w, lr, patience, e - 1);
      var msgs := RunMessages(env, w, lr, patience, e - 1);
      var prev := T.Run(env, T.Initial(w, lr), patience, e - 1);
      if prev.Ok? && !prev.value.stopped && T.EpochOf(env, prev.value).Ok? {
        var s := prev.value;
        AdvancedEpoch(env, w, lr, patience, e - 1, s, T.EpochOf(env, s).value);
        var more := EpochMessages(s, T.EpochOf(env, s).value, patience);
        EpochProgressOnTenth(s, T.EpochOf(env, s).value, patience);
        ProgressOnTenthAppend(msgs, more);
      } else {
        StalledEpoch(env, w, lr, patience, e);
      }
    }
  }

  /** A run that has not stopped adds the messages of its next epoch, or nothing when that epoch fails. */
  lemma MessagesStep<Id>(env: T.Env<Id>, w: seq<real>, lr: real, patience: int, e: nat, s: T.TrainState)
    requires T.Run(env, T.Initial(w, lr), patience, e) == Ok(s) && !s.stopped
    ensures |s.weights| == |w|
    ensures T.EpochOf(env, s).Ok? ==>
      RunMessages(env, w, lr, patience, e + 1) ==
        RunMessages(env, w, lr, patience, e) + EpochMessages(s, T.EpochOf(env, s).value, patience)
    ensures T.EpochOf(env, s).Err? ==> RunMessages(env, w, lr, patience, e + 1) == RunMessages(env, w, lr, patience, e)
  {
  }

  /** After the break or a raised error no further message is posted. */
  lemma {:induction false} MessagesStable<Id>(env: T.Env<Id>, w: seq<real>, lr: real, patience: int, e: nat, e2: nat)
    requires e <= e2
    requires T.Run(env, T.Initial(w, lr), patience, e).Err? || T.Run(env, T.Initial(w, lr), patience, e).value.stopped
    ensures RunMessages(env, w, lr, patience, e2) == RunMessages(env, w, lr, patience, e)
    decreases e2
  {
    if e < e2 {
      MessagesStable(env, w, lr, patience, e, e2 - 1);
      T.RunStable(env, w, lr, patience, e, e2 - 1);
    }
  }

  /** A failed epoch ends the run with its error and posts nothing more. */
  lemma FailedEpoch<Id>(env: T.Env<Id>, w: seq<real>, lr: real, patience: int, e: nat, e2: nat, s: T.TrainState)
    requires e < e2
    requires T.Run(env, T.Initial(w, lr), patience, e) == Ok(s) && !s.stopped
    requires |s.weights| == |w| && T.EpochOf(env, s).Err?
    ensures T.Run(env, T.Initial(w, lr), patience, e2) == Err(T.EpochOf(env, s).error)
    ensures RunMessages(env, w, lr, patience, e2) == RunMessages(env, w, lr, patience, e)
  {
    T.RunStep(env, w, lr, patience, e, s);
    MessagesStep(env, w, lr, patience, e, s);
    T.RunStable(env, w, lr, patience, e + 1, e2);
    MessagesStable(env, w, lr, patience, e + 1, e2);
  }

  /** A successful epoch moves the run to `AfterEpoch` and posts that epoch's messages. */
  lemma AdvancedEpoch<Id>(env: T.Env<Id>, w: seq<real>, lr: real, patience: int, e: nat, s: T.TrainState, acc: T.EpochAcc)
    requires T.Run(env, T.Initial(w, lr), patience, e) == Ok(s) && !s.stopped
    requires |s.weights| == |w| && T.EpochOf(env, s) == Ok(acc)
    ensures T.Run(env, T.Initial(w, lr), patience, e + 1) == Ok(T.AfterEpoch(s, acc, patience))
    ensures RunMessages(env, w, lr, patience, e + 1) == RunMessages(env, w, lr, patience, e) + EpochMessages(s, acc, patience)
  {
    T.RunStep(env, w, lr, patience, e, s);
    MessagesStep(env, w, lr, patience, e, s);
  }

  /** An epoch after the stop, after an error, or that raises itself adds no message and leaves a finished run as it was. */
  lemma StalledEpoch<Id>(env: T.Env<Id>, w: seq<real>, lr: real, patience: int, e: nat)
    requires e > 0
    requires var prev := T.Run(env, T.Initial(w, lr), patience, e - 1);
      !(prev.Ok? && !prev.value.stopped && T.EpochOf(env, prev.value).Ok?)
    ensures RunMessages(env, w, lr, patience, e) == RunMessages(env, w, lr, patience, e - 1)
    ensures T.Run(env, T.Initial(w, lr), patience, e).Ok? ==>
      T.Run(env, T.Initial(w, lr), patience, e) == T.Run(env, T.Initial(w, lr), patience, e - 1)
  {
  }

  /** After the stop rule fires, later epochs change neither the run nor the messages. */
  lemma StoppedRun<Id>(env: T.Env<Id>, w: seq<real>, lr: real, patience: int, e: nat, e2: nat)
    requires e <= e2
    requires T.Run(env, T.Initial(w, lr), patience, e).Ok? && T.Run(env, T.Initial(w, lr), patience, e).value.stopped
    ensures T.Run(env, T.Initial(w, lr), patience, e2) == T.Run(env, T.Initial(w, lr), patience, e)
    ensures RunMessages(env, w, lr, patience, e2) == RunMessages(env, w, lr, patience, e)
  {
    T.RunStable(env, w, lr, patience, e, e2);
    MessagesStable(env, w, lr, patience, e, e2);
  }

  /** The outcome of a finished run: its weights once a step has run, `AttributeError` otherwise. */
  lemma OutcomeOfRun<Id>(env: T.Env<Id>, w: seq<real>, lr: real, maxEpochs: int, patience: int, s: T.TrainState)
    requires T.Run(env, T.Initial(w, lr), patience, EpochCount(maxEpochs)) == Ok(s)
    ensures T.TrainOutcome(env, w, lr, maxEpochs, patience) == if s.trained then Ok(s.weights) else Err(AttributeError)
  {
  }

  /** A failed run raises its error from `train_feature_weights`. */
  lemma OutcomeOfFailedRun<Id>(env: T.Env<Id>, w: seq<real>, lr: real, maxEpochs: int, patience: int)
    requires T.Run(env, T.Initial(w, lr), patience, EpochCount(maxEpochs)).Err?
    ensures T.TrainOutcome(env, w, lr, maxEpochs, patience) == Err(T.Run(env, T.Initial(w, lr), patience, EpochCount(maxEpochs)).error)
  {
  }

  class TrainFeatureWeightsWorker {
    /** `feedback_vectors`; None until `init_training` has set the attribute. */
    var feedbackVectors: Option<map<Cell, seq<real>>>
    var newWeights: Option<seq<real>>
    /** The messages posted to the training screen, oldest first. */
    var posted: seq<ScreenUpdate>

    constructor ()
      ensures feedbackVectors == None && newWeights == None && posted == []
    {
      feedbackVectors := None;
      newWeights := None;
      posted := [];
    }

    /**
     * `init_training`: the origin's vector, then one per feedback id, replace the cache and
     * `new_weights` is cleared; a missing vector raises and changes nothing.
     */
    method InitTraining(feedback: PyDict.Dict<Cell, T.Rating>, origin: Cell, features: Cell -> Option<seq<real>>)
      returns (r: Result<()>)
      modifies this`feedbackVectors, this`newWeights
      ensures var v := VectorsUpTo(feedback, origin, features, |feedback|);
        (r.Ok? <==> v.Ok?) &&
        (v.Ok? ==> feedbackVectors == Some(v.value) && newWeights == None) &&
        (v.Err? ==> r == Err(TypeError) && feedbackVectors == old(feedbackVectors) && newWeights == old(newWeights))
    {
      var originVector := features(origin);
      if originVector.None? {
        VectorsErrStable(feedback, origin, features, 0, |feedback|);
        return Err(TypeError);
      }
      var vectors := map[origin := originVector.value];
      var idx := 0;
      while idx < |feedback|
        invariant idx <= |feedback|
        invariant VectorsUpTo(feedback, origin, features, idx) == Ok(vectors)
      {
        var trackVector := features(feedback[idx].0);
        if trackVector.None? {
          VectorsErrStable(feedback, origin, features, idx + 1, |feedback|);
          return Err(TypeError);
        }
        vectors := vectors[feedback[idx].0 := trackVector.value];
        idx := idx + 1;
      }
      feedbackVectors := Some(vectors);
      newWeights := None;
      return Ok(());
    }

    /**
     * `train_feature_weights`: the epoch loop of the trainer over the cached vectors, with the
     * header, progress, rate and closing messages posted on the way; `new_weights` is set to
     * the trained weights at the very end, and a raised error leaves it as it was.
     */
    method TrainFeatureWeights(similarTracks: seq<SN.Neighbor>, feedback: PyDict.Dict<Cell, T.Rating>, origin: Cell,
                               configWeights: seq<real>, sqrt: real -> real,
                               initialLearningRate: real, maxEpochs: int, patience: int)
      returns (r: Result<()>)
      modifies this`newWeights, this`posted
      ensures old(feedbackVectors).None? ==>
        r == Err(AttributeError) && posted == old(posted) && newWeights == old(newWeights)
      ensures old(feedbackVectors).Some? && origin !in old(feedbackVectors).value ==>
        r == Err(KeyError) && posted == old(posted) && newWeights == old(newWeights)
      ensures old(feedbackVectors).Some? && origin in old(feedbackVectors).value ==>
        var env := WorkerEnv(similarTracks, feedback, origin, old(feedbackVectors).value, sqrt);
        var e := EpochCount(maxEpochs);
        var run := T.Run(env, T.Initial(configWeights, initialLearningRate), patience, e);
        var out := T.TrainOutcome(env, configWeights, initialLearningRate, maxEpochs, patience);
        posted == old(posted) + [Started(maxEpochs)] + RunMessages(env, configWeights, initialLearningRate, patience, e) +
                  (if run.Ok? then [FinalStatus(run.value)] else []) &&
        (out.Ok? ==> r == Ok(()) && newWeights == Some(out.value)) &&
        (out.Err? ==> r == Err(out.error) && newWeights == old(newWeights))
    {
      if feedbackVectors.None? {
        return Err(AttributeError);
      }
      var vectors := feedbackVectors.value;
      if origin !in vectors {
        return Err(KeyError);
      }
      var env := WorkerEnv(similarTracks, feedback, origin, vectors, sqrt);
      posted := posted + [Started(maxEpochs)];
      var run, status, messages := EpochLoop(env, configWeights, initialLearningRate, maxEpochs, patience);
      posted := posted + messages;
      ghost var spec := T.Run(env, T.Initial(configWeights, initialLearningRate), patience, EpochCount(maxEpochs));
      if spec.Err? {
        OutcomeOfFailedRun(env, configWeights, initialLearningRate, maxEpochs, patience);
      } else {
        OutcomeOfRun(env, configWeights, initialLearningRate, maxEpochs, patience, spec.value);
      }
      if run.Err? {
        return Err(run.error);
      }
      posted := posted + [status];
      var (weights, trained) := run.value;
      if !trained {
        return Err(AttributeError);
      }
      newWeights := Some(weights);
      return Ok(());
    }
  }

  /**
   * The bookkeeping at the end of an epoch with the messages it posts: progress on every
   * tenth epoch before the stop rule, and the new rate after a halving.
   */
  method EndEpochPosting(ghost s: T.TrainState, ghost acc: T.EpochAcc, totalLoss: real, best: T.Best, counter: nat,
                         learningRate: real, epoch: nat, patience: int)
    returns (best': T.Best, counter': nat, learningRate': real, stop: bool, posted: seq<ScreenUpdate>)
    requires s.best == best && s.counter == counter && s.lr == learningRate && acc.loss == totalLoss && s.epochs == epoch
    ensures var t := T.AfterEpoch(s, acc, patience);
      t.best == best' && t.counter == counter' && t.lr == learningRate' && t.stopped == stop &&
      t.weights == acc.weights && t.trained == acc.trained && t.epochs == epoch + 1 &&
      FinalStatus(t) == (if stop then StoppedEarly(epoch) else Completed) &&
      posted == EpochMessages(s, acc, patience)
  {
    var halved;
    best', counter', learningRate', stop, halved := T.EndEpoch(s, acc, totalLoss, best, counter, learningRate, patience);
    posted := if epoch % 10 == 0 then [Progress(totalLoss, epoch)] else [];
    if halved {
      posted := posted + [RateReduced(learningRate')];
    }
  }

  /**
   * The epoch loop of `train_feature_weights` with the messages it posts on the way: the
   * run's error, or its weights and whether a step ran, with the closing status.
   */
  method EpochLoop<Id(==)>(env: T.Env<Id>, configWeights: seq<real>, initialLearningRate: real, maxEpochs: int, patience: int)
    returns (r: Result<(seq<real>, bool)>, status: ScreenUpdate, messages: seq<ScreenUpdate>)
    ensures var run := T.Run(env, T.Initial(configWeights, initialLearningRate), patience, EpochCount(maxEpochs));
      messages == RunMessages(env, configWeights, initialLearningRate, patience, EpochCount(maxEpochs)) &&
      (run.Err? ==> r == Err(run.error)) &&
      (run.Ok? ==> r == Ok((run.value.weights, run.value.trained)) && status == FinalStatus(run.value))
  {
    var weights := configWeights;
    var trained := false;
    var best := T.Infinity;
    var counter: nat := 0;
    var learningRate := initialLearningRate;
    ghost var state := T.Initial(configWeights, initialLearningRate);
    messages := [];
    status := Completed;
    var epochs := EpochCount(maxEpochs);
    var epoch: nat := 0;
    while epoch < epochs
      invariant epoch <= epochs
      invariant T.Run(env, T.Initial(configWeights, initialLearningRate), patience, epoch) == Ok(state)
      invariant state.weights == weights && state.trained == trained && state.best == best
      invariant state.counter == counter && state.lr == learningRate && !state.stopped && state.epochs == epoch
      invariant messages == RunMessages(env, configWeights, initialLearningRate, patience, epoch)
      invariant status == FinalStatus(state)
    {
      var acc := T.TrainEpoch(env, weights, trained, learningRate);
      assert acc == T.EpochOf(env, state);
      if acc.Err? {
        FailedEpoch(env, configWeights, initialLearningRate, patience, epoch, epochs, state);
        return Err(acc.error), status, messages;
      }
      AdvancedEpoch(env, configWeights, initialLearningRate, patience, epoch, state, acc.value);
      var stop, more;
      best, counter, learningRate, stop, more := EndEpochPosting(state, acc.value, acc.value.loss, best, counter, learningRate, epoch, patience);
      weights, trained := acc.value.weights, acc.value.trained;
      messages := messages + more;
      state := T.AfterEpoch(state, acc.value, patience);
      if stop {
        StoppedRun(env, configWeights, initialLearningRate, patience, epoch + 1, epochs);
        status := StoppedEarly(epoch);
        break;
      }
      epoch := epoch + 1;
    }
    return Ok((weights, trained)), status, messages;
  }

  /** A missing vector ends `init_training`'s loop: later items do not change the outcome. */
  lemma {:induction false} VectorsErrStable(feedback: PyDict.Dict<Cell, T.Rating>, origin: Cell,
                                            features: Cell -> Option<seq<real>>, n: nat, m: nat)
    requires n <= m <= |feedback| && VectorsUpTo(feedback, origin, features, n).Err?
    ensures VectorsUpTo(feedback, origin, features, m) == Err(TypeError)
    decreases m
  {
    if m > n {
      VectorsErrStable(feedback, origin, features, n, m - 1);
    }
  }

  // ---------------------------------------------------------------------------
  // stop_training

  /** The arguments `stop_training` passes to `train_feature_weights`. */
  const StopLearningRate: real := 0.01
  const StopMaxEpochs: int := 400
  const StopPatience: int := 10

  /**
   * What `stop_training` ends with: the weights it writes back to the config, None when
   * `new_weights` is empty, or the error raised by the row loop, `init_training` or the
   * training run.
   */
  function StopOutcome(rows: seq<Row>, similarTracks: seq<SN.Neighbor>, features: Cell -> Option<seq<real>>,
                       configWeights: seq<real>, sqrt: real -> real): Result<Option<seq<real>>>
  {
    match CollectedUpTo(rows, |rows|)
    case Err(e) => Err(e)
    case Ok(c) =>
      match VectorsUpTo(c.data, c.origin, features, |c.data|)
      case Err(e) => Err(e)
      case Ok(m) =>
        var env := WorkerEnv(similarTracks, c.data, c.origin, m, sqrt);
        VectorsCached(c.data, c.origin, features, |c.data|);
        match T.TrainOutcome(env, configWeights, StopLearningRate, StopMaxEpochs, StopPatience)
        case Err(e) => Err(e)
        case Ok(w) => Ok(if |w| > 0 then Some(w) else None)
  }

  /** A missing vector makes `stop_training` raise TypeError. */
  lemma StopAtVectors(rows: seq<Row>, similarTracks: seq<SN.Neighbor>, features: Cell -> Option<seq<real>>,
                      configWeights: seq<real>, sqrt: real -> real)
    requires CollectedUpTo(rows, |rows|).Ok?
    requires var c := CollectedUpTo(rows, |rows|).value; VectorsUpTo(c.data, c.origin, features, |c.data|).Err?
    ensures StopOutcome(rows, similarTracks, features, configWeights, sqrt) == Err(TypeError)
  {
  }

  /** With every vector cached, `stop_training` ends as the training run does. */
  lemma StopAfterVectors(rows: seq<Row>, similarTracks: seq<SN.Neighbor>, features: Cell -> Option<seq<real>>,
                         configWeights: seq<real>, sqrt: real -> real)
    requires CollectedUpTo(rows, |rows|).Ok?
    requires var c := CollectedUpTo(rows, |rows|).value; VectorsUpTo(c.data, c.origin, features, |c.data|).Ok?
    ensures var c := CollectedUpTo(rows, |rows|).value;
      var m := VectorsUpTo(c.data, c.origin, features, |c.data|).value;
      StopOutcome(rows, similarTracks, features, configWeights, sqrt) ==
        match T.TrainOutcome(WorkerEnv(similarTracks, c.data, c.origin, m, sqrt),
                             configWeights, StopLearningRate, StopMaxEpochs, StopPatience)
        case Err(e) => Err(e)
        case Ok(w) => Ok(if |w| > 0 then Some(w) else None)
  {
    var c := CollectedUpTo(rows, |rows|).value;
    VectorsCached(c.data, c.origin, features, |c.data|);
  }

  /**
   * Weights written back are clamped to [0, 2] and have the configured dimension; once the
   * rows and vectors are read, `AttributeError` is raised exactly when every collected entry
   * is the origin or rated -1.
   */
  lemma StopOutcomeProperties(rows: seq<Row>, similarTracks: seq<SN.Neighbor>, features: Cell -> Option<seq<real>>,
                              configWeights: seq<real>, sqrt: real -> real)
    ensures var r := StopOutcome(rows, similarTracks, features, configWeights, sqrt);
      r.Ok? && r.value.Some? ==> T.Clamped(r.value.value) && |r.value.value| == |configWeights|
    ensures CollectedUpTo(rows, |rows|).Ok? ==>
      var c := CollectedUpTo(rows, |rows|).value;
      VectorsUpTo(c.data, c.origin, features, |c.data|).Ok? ==>
        var env := WorkerEnv(similarTracks, c.data, c.origin, VectorsUpTo(c.data, c.origin, features, |c.data|).value, sqrt);
        (StopOutcome(rows, similarTracks, features, configWeights, sqrt) == Err(AttributeError) <==> !T.SomeTrainable(env))
  {
    var col := CollectedUpTo(rows, |rows|);
    if col.Ok? {
      var c := col.value;
      var v := VectorsUpTo(c.data, c.origin, features, |c.data|);
      if v.Ok? {
        var env := WorkerEnv(similarTracks, c.data, c.origin, v.value, sqrt);
        VectorsCached(c.data, c.origin, features, |c.data|);
        T.TrainOutcomeProperties(env, configWeights, StopLearningRate, StopMaxEpochs, StopPatience);
      }
    }
  }
}
