// The curses feedback prompt: the user rates each suggested track 1..5 or quits with 'q'.
// The keyboard is a sequence of input lines; running out of lines ends the prompt like 'q'.
module Feedback {
  import opened Wrappers
  import PyStr
  import opened PyDict

  /** The origin's entry, written before anything is read. */
  const OriginRating := -1

  /** The widest title, artist or album name shown unabridged. */
  const DisplayWidth := 20

  /** A display field: longer than 20 characters is cut to 17 and marked with "...". */
  function Abridged(s: string): (r: string)
    ensures |r| <= DisplayWidth
    ensures |s| <= DisplayWidth ==> r == s
    ensures |s| > DisplayWidth ==> |r| == DisplayWidth && r[..17] == s[..17] && r[17..] == "..."
  {
    if |s| > DisplayWidth then s[..17] + "..." else s
  }

  /** An input line that ends the prompt: "q" in either case. */
  predicate IsQuit(line: string)
  {
    PyStr.Lower(line) == "q"
  }

  /** The rating an input line gives, when `int()` accepts it and it lies in 1..5. */
  function Accepted(line: string): (r: Option<int>)
    ensures r.Some? ==> 1 <= r.value <= 5
    ensures r.Some? <==> PyStr.ParseInt(line).Some? && 1 <= PyStr.ParseInt(line).value <= 5
  {
    match PyStr.ParseInt(line)
    case Some(v) => if 1 <= v <= 5 then Some(v) else None
    case None => None
  }

  lemma QuitIsNotARating(line: string)
    requires IsQuit(line)
    ensures Accepted(line).None?
  {
    var l := PyStr.Lower(line);
    assert |line| == 1;
    assert l[0] == 'q';
    assert PyStr.Strip(line) == line;
    assert !PyStr.IsDigitRun(line);
  }

  /** Where the prompt stands: the ratings so far and how many tracks are rated. */
  datatype Collection = Collection(ratings: Dict<int, int>, rated: nat, completed: bool)

  /**
   * The prompt from track `i` on, with the input lines still to read: a quit line or the
   * end of the input stops it, an accepted rating records the track and moves on, and any
   * other line asks for the same track again.
   */
  function Prompt(tracks: seq<int>, ratings: Dict<int, int>, i: nat, input: seq<string>): (c: Collection)
    requires i <= |tracks| && DistinctKeys(ratings)
    ensures DistinctKeys(c.ratings) && i <= c.rated <= |tracks|
    ensures c.completed <==> c.rated == |tracks|
    decreases |input|
  {
    if i == |tracks| then Collection(ratings, i, true)
    else if input == [] || IsQuit(input[0]) then Collection(ratings, i, false)
    else match Accepted(input[0])
      case Some(v) => Prompt(tracks, Put(ratings, tracks[i], v), i + 1, input[1..])
      case None => Prompt(tracks, ratings, i, input[1..])
  }

  function Collect(origin: int, tracks: seq<int>, input: seq<string>): Collection
  {
    Prompt(tracks, [(origin, OriginRating)], 0, input)
  }

  /**
   * `display_tracks_and_collect_feedback`: the ratings dict, origin first with -1, then one
   * accepted rating per track until the tracks run out or the user quits.
   */
  method CollectFeedback(origin: int, tracks: seq<int>, input: seq<string>)
    returns (ratings: Dict<int, int>, completed: bool)
    ensures ratings == Collect(origin, tracks, input).ratings
    ensures completed == Collect(origin, tracks, input).completed
  {
    ratings := [(origin, OriginRating)];
    var pos := 0;
    for idx := 0 to |tracks|
      invariant pos <= |input| && DistinctKeys(ratings)
      invariant Collect(origin, tracks, input) == Prompt(tracks, ratings, idx, input[pos..])
    {
      while true
        invariant pos <= |input| && DistinctKeys(ratings)
        invariant Collect(origin, tracks, input) == Prompt(tracks, ratings, idx, input[pos..])
        decreases |input| - pos
      {
        if pos == |input| || IsQuit(input[pos]) {
          PromptStops(tracks, ratings, idx, input, pos);
          completed := false;
          return;
        }
        var line := input[pos];
        var rating := Accepted(line);
        PromptReads(tracks, ratings, idx, input, pos);
        pos := pos + 1;
        if rating.Some? {
          ratings := Put(ratings, tracks[idx], rating.value);
          break;
        }
      }
    }
    assert Prompt(tracks, ratings, |tracks|, input[pos..]).completed;
    completed := true;
  }

  /** The prompt ends at a quit line or when the input runs out. */
  lemma PromptStops(tracks: seq<int>, ratings: Dict<int, int>, i: nat, input: seq<string>, pos: nat)
    requires i < |tracks| && DistinctKeys(ratings) && pos <= |input|
    requires pos == |input| || IsQuit(input[pos])
    ensures Prompt(tracks, ratings, i, input[pos..]) == Collection(ratings, i, false)
  {
    if pos < |input| {
      assert input[pos..][0] == input[pos];
    }
  }

  /** One line read at position `pos`: either the track is rated and the prompt moves on, or it asks again. */
  lemma PromptReads(tracks: seq<int>, ratings: Dict<int, int>, i: nat, input: seq<string>, pos: nat)
    requires i < |tracks| && DistinctKeys(ratings) && pos < |input| && !IsQuit(input[pos])
    ensures Prompt(tracks, ratings, i, input[pos..]) ==
      match Accepted(input[pos])
      case Some(v) => Prompt(tracks, Put(ratings, tracks[i], v), i + 1, input[pos + 1..])
      case None => Prompt(tracks, ratings, i, input[pos + 1..])
  {
    assert input[pos..][0] == input[pos];
    assert input[pos..][1..] == input[pos + 1..];
  }

  /** Rating a track that is not yet in the dict appends it. */
  lemma PutFresh(ratings: Dict<int, int>, k: int, v: int)
    requires DistinctKeys(ratings)
    requires forall j :: 0 <= j < |ratings| ==> ratings[j].0 != k
    ensures Put(ratings, k, v) == ratings + [(k, v)]
  {
  }

  /**
   * With distinct tracks none of which is the origin, the dict holds the origin with -1,
   * then exactly the first `rated` tracks in order, each with a rating in 1..5.
   */
  lemma {:induction false} PromptShape(origin: int, tracks: seq<int>, ratings: Dict<int, int>, i: nat, input: seq<string>)
    requires i <= |tracks| && DistinctKeys(ratings)
    requires forall a, b :: 0 <= a < b < |tracks| ==> tracks[a] != tracks[b]
    requires origin !in tracks
    requires Shaped(origin, tracks, ratings, i)
    ensures var c := Prompt(tracks, ratings, i, input); Shaped(origin, tracks, c.ratings, c.rated)
    decreases |input|
  {
    if i == |tracks| || input == [] || IsQuit(input[0]) {
      assert Prompt(tracks, ratings, i, input).ratings == ratings;
    } else {
      var a := Accepted(input[0]);
      if a.Some? {
        var next := Put(ratings, tracks[i], a.value);
        assert Prompt(tracks, ratings, i, input) == Prompt(tracks, next, i + 1, input[1..]);
        RatedShape(origin, tracks, ratings, i, a.value);
        PromptShape(origin, tracks, next, i + 1, input[1..]);
      } else {
        assert Prompt(tracks, ratings, i, input) == Prompt(tracks, ratings, i, input[1..]);
        PromptShape(origin, tracks, ratings, i, input[1..]);
      }
    }
  }

  /** The origin with -1, then the first `n` tracks in order, each with a rating in 1..5. */
  predicate Shaped(origin: int, tracks: seq<int>, ratings: Dict<int, int>, n: nat)
    requires n <= |tracks|
  {
    Keys(ratings) == [origin] + tracks[..n] && ratings[0] == (origin, OriginRating) &&
    (forall j :: 1 <= j < |ratings| ==> 1 <= ratings[j].1 <= 5)
  }

  /** Rating the next track extends the dict's shape by that track. */
  lemma RatedShape(origin: int, tracks: seq<int>, ratings: Dict<int, int>, i: nat, v: int)
    requires i < |tracks| && DistinctKeys(ratings) && 1 <= v <= 5
    requires forall a, b :: 0 <= a < b < |tracks| ==> tracks[a] != tracks[b]
    requires origin !in tracks
    requires Shaped(origin, tracks, ratings, i)
    ensures Shaped(origin, tracks, Put(ratings, tracks[i], v), i + 1)
  {
    var k := tracks[i];
    forall j | 0 <= j < |ratings| ensures ratings[j].0 != k {
      assert ratings[j].0 == Keys(ratings)[j];
      if j > 0 { assert Keys(ratings)[j] == tracks[j - 1]; }
    }
    PutFresh(ratings, k, v);
    var next := ratings + [(k, v)];
    assert Keys(next) == Keys(ratings) + [k];
    assert tracks[..i + 1] == tracks[..i] + [k];
  }

  /**
   * What the prompt returns for distinct suggestions that exclude the origin: the origin first
   * with -1, then one entry per rated track, in the order shown; a completed run has
   * 1 + |tracks| entries and one that was quit has fewer.
   */
  lemma CollectShape(origin: int, tracks: seq<int>, input: seq<string>)
    requires forall a, b :: 0 <= a < b < |tracks| ==> tracks[a] != tracks[b]
    requires origin !in tracks
    ensures var c := Collect(origin, tracks, input);
      Keys(c.ratings) == [origin] + tracks[..c.rated] && c.ratings[0] == (origin, OriginRating) &&
      (forall j :: 1 <= j < |c.ratings| ==> 1 <= c.ratings[j].1 <= 5) &&
      (c.completed <==> |c.ratings| == 1 + |tracks|)
  {
    var start: Dict<int, int> := [(origin, OriginRating)];
    assert Keys(start) == [origin] + tracks[..0];
    assert Shaped(origin, tracks, start, 0);
    PromptShape(origin, tracks, start, 0, input);
    var c := Collect(origin, tracks, input);
    assert |Keys(c.ratings)| == 1 + c.rated;
  }

  /** A quit line stops the prompt at once, whatever input follows. */
  lemma {:induction false} QuitStops(tracks: seq<int>, ratings: Dict<int, int>, i: nat, line: string, rest: seq<string>)
    requires i < |tracks| && DistinctKeys(ratings) && IsQuit(line)
    ensures Prompt(tracks, ratings, i, [line] + rest) == Collection(ratings, i, false)
  {
    assert ([line] + rest)[0] == line;
  }

  /** A line that is not an accepted rating (nor a quit) leaves the state as it was: the same track is asked again. */
  lemma {:induction false} RejectedReprompts(tracks: seq<int>, ratings: Dict<int, int>, i: nat, line: string, rest: seq<string>)
    requires i < |tracks| && DistinctKeys(ratings) && !IsQuit(line) && Accepted(line).None?
    ensures Prompt(tracks, ratings, i, [line] + rest) == Prompt(tracks, ratings, i, rest)
  {
    assert ([line] + rest)[0] == line;
    assert ([line] + rest)[1..] == rest;
  }
}
