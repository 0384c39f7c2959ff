// Feature preparation of the similarity engine (application/similarity/similarity_main.py):
// the catalogue's flat MIN/MAX row, min-max normalisation of every track's raw feature
// vector, and the weighting applied before a vector is added to the neighbour index.
module SimilarityFeatures {

  function Min(a: int, b: int): int { if a <= b then a else b }

  /** One stored track row: `track_id` followed by its raw feature values. */
  datatype TrackRow = TrackRow(id: int, features: seq<real>)

  /**
   * The layout of the row `SELECT MIN(f1), MAX(f1), MIN(f2), MAX(f2), ...`: the pair
   * for feature i sits at positions 2i and 2i+1.
   */
  function Interleave(mins: seq<real>, maxs: seq<real>): (r: seq<real>)
    requires |mins| == |maxs|
    ensures |r| == 2 * |mins|
    ensures forall i :: 0 <= i < |mins| ==> r[2 * i] == mins[i] && r[2 * i + 1] == maxs[i]
  {
    if mins == [] then []
    else
      var rest := Interleave(mins[1..], maxs[1..]);
      assert forall i :: 1 <= i < |mins| ==> 2 * i == 2 + 2 * (i - 1);
      [mins[0], maxs[0]] + rest
  }

  /** `row[::2]`: the entries at even positions. */
  function EvenPositions(row: seq<real>): (r: seq<real>)
    ensures |r| == (|row| + 1) / 2
    ensures forall i :: 0 <= i < |r| ==> r[i] == row[2 * i]
  {
    seq((|row| + 1) / 2, i requires 0 <= i < (|row| + 1) / 2 => row[2 * i])
  }

  /** `row[1::2]`: the entries at odd positions. */
  function OddPositions(row: seq<real>): (r: seq<real>)
    ensures |r| == |row| / 2
    ensures forall i :: 0 <= i < |r| ==> r[i] == row[2 * i + 1]
  {
    seq(|row| / 2, i requires 0 <= i < |row| / 2 => row[2 * i + 1])
  }

  /** Splitting the MIN/MAX row gives back, for every feature, its own minimum and maximum. */
  lemma SplitInterleave(mins: seq<real>, maxs: seq<real>)
    requires |mins| == |maxs|
    ensures EvenPositions(Interleave(mins, maxs)) == mins
    ensures OddPositions(Interleave(mins, maxs)) == maxs
  {
    var row := Interleave(mins, maxs);
    assert (|row| + 1) / 2 == |mins| && |row| / 2 == |maxs|;
  }

  /**
   * Min-max scaling of one value: `(f - min) / (max - min)`, or 0.0 when the range is
   * degenerate. 0 at the minimum, 1 at the maximum, inside [0, 1] between them, and
   * scaling back by the range restores the raw value.
   */
  function NormalizeOne(f: real, lo: real, hi: real): (r: real)
    ensures f == lo ==> r == 0.0
    ensures f == hi && hi != lo ==> r == 1.0
    ensures lo <= f <= hi ==> 0.0 <= r <= 1.0
    ensures hi != lo ==> lo + r * (hi - lo) == f
    ensures hi == lo ==> r == 0.0
  {
    if hi != lo then
      var r := (f - lo) / (hi - lo);
      assert r * (hi - lo) == f - lo;
      assert f == hi ==> r == 1.0 by {
        if f == hi { DivideSelf(hi - lo); }
      }
      assert lo <= f <= hi ==> 0.0 <= r <= 1.0 by {
        if lo <= f <= hi {
          assert hi - lo > 0.0;
          assert f - lo <= hi - lo;
          DivideWithin(f - lo, hi - lo);
        }
      }
      r
    else 0.0
  }

  lemma DivideSelf(d: real)
    requires d != 0.0
    ensures d / d == 1.0
  {
  }

  lemma DivideWithin(x: real, y: real)
    requires 0.0 <= x <= y && y > 0.0
    ensures 0.0 <= x / y <= 1.0
  {
    assert x / y * y == x;
  }

  /**
   * `normalize_features`: element-wise over `zip(features, min_vals, max_vals)`, so the
   * result is as long as the shortest input.
   */
  function NormalizeFeatures(features: seq<real>, mins: seq<real>, maxs: seq<real>): (r: seq<real>)
    ensures |r| == Min(|features|, Min(|mins|, |maxs|))
    ensures forall i :: 0 <= i < |r| ==> r[i] == NormalizeOne(features[i], mins[i], maxs[i])
    ensures forall i :: 0 <= i < |r| && mins[i] <= features[i] <= maxs[i] ==> 0.0 <= r[i] <= 1.0
  {
    var n := Min(|features|, Min(|mins|, |maxs|));
    seq(n, i requires 0 <= i < n => NormalizeOne(features[i], mins[i], maxs[i]))
  }

  /** The catalogue bounds: every track's value of feature i lies between mins[i] and maxs[i]. */
  ghost predicate WithinBounds(tracks: seq<TrackRow>, mins: seq<real>, maxs: seq<real>)
  {
    forall t :: 0 <= t < |tracks| ==> VectorWithin(tracks[t].features, mins, maxs)
  }

  ghost predicate VectorWithin(f: seq<real>, mins: seq<real>, maxs: seq<real>)
  {
    |f| <= |mins| && |f| <= |maxs| && forall i :: 0 <= i < |f| ==> mins[i] <= f[i] <= maxs[i]
  }

  /**
   * `precompute_features`: splits the MIN/MAX row and stores, for each track in order,
   * its normalised vector.
   */
  method PrecomputeFeatures(minMax: seq<real>, tracks: seq<TrackRow>) returns (stored: seq<TrackRow>)
    ensures |stored| == |tracks|
    ensures forall t :: 0 <= t < |tracks| ==>
      stored[t] == TrackRow(tracks[t].id,
                            NormalizeFeatures(tracks[t].features, EvenPositions(minMax), OddPositions(minMax)))
  {
    var mins := EvenPositions(minMax);
    var maxs := OddPositions(minMax);
    stored := [];
    var k := 0;
    while k < |tracks|
      invariant 0 <= k <= |tracks|
      invariant |stored| == k
      invariant forall t :: 0 <= t < k ==>
        stored[t] == TrackRow(tracks[t].id, NormalizeFeatures(tracks[t].features, mins, maxs))
    {
      var normalized := NormalizeFeatures(tracks[k].features, mins, maxs);
      stored := stored + [TrackRow(tracks[k].id, normalized)];
      k := k + 1;
    }
  }

  /** One track whose values lie within the bounds normalises to a full-length vector in [0, 1]. */
  lemma NormalizedTrackInUnitRange(f: seq<real>, mins: seq<real>, maxs: seq<real>)
    requires VectorWithin(f, mins, maxs)
    ensures |NormalizeFeatures(f, mins, maxs)| == |f|
    ensures forall i :: 0 <= i < |f| ==> 0.0 <= NormalizeFeatures(f, mins, maxs)[i] <= 1.0
  {
  }

  /**
   * When the MIN/MAX row really holds the catalogue bounds, every stored value is in
   * [0, 1] and every stored vector keeps the track's full length.
   */
  lemma PrecomputedInUnitRange(mins: seq<real>, maxs: seq<real>, tracks: seq<TrackRow>, stored: seq<TrackRow>)
    requires WithinBounds(tracks, mins, maxs)
    requires |stored| == |tracks|
    requires forall t :: 0 <= t < |tracks| ==>
      stored[t] == TrackRow(tracks[t].id, NormalizeFeatures(tracks[t].features, mins, maxs))
    ensures forall t :: 0 <= t < |stored| ==> |stored[t].features| == |tracks[t].features|
    ensures forall t, i :: 0 <= t < |stored| && 0 <= i < |stored[t].features| ==>
      0.0 <= stored[t].features[i] <= 1.0
  {
    forall t | 0 <= t < |stored|
      ensures |stored[t].features| == |tracks[t].features|
      ensures forall i :: 0 <= i < |stored[t].features| ==> 0.0 <= stored[t].features[i] <= 1.0
    {
      NormalizedTrackInUnitRange(tracks[t].features, mins, maxs);
    }
  }

  /** `[w * f for w, f in zip(feature_weights, features)]`. */
  function Weighted(weights: seq<real>, features: seq<real>): (r: seq<real>)
    ensures |r| == Min(|weights|, |features|)
    ensures forall i :: 0 <= i < |r| ==> r[i] == weights[i] * features[i]
  {
    var n := Min(|weights|, |features|);
    seq(n, i requires 0 <= i < n => weights[i] * features[i])
  }

  /** Weights in [0, 2] (what the trainer produces) on values in [0, 1] give values in [0, 2]. */
  lemma WeightedBounds(weights: seq<real>, features: seq<real>)
    requires forall i :: 0 <= i < |weights| ==> 0.0 <= weights[i] <= 2.0
    requires forall i :: 0 <= i < |features| ==> 0.0 <= features[i] <= 1.0
    ensures forall i :: 0 <= i < |Weighted(weights, features)| ==> 0.0 <= Weighted(weights, features)[i] <= 2.0
  {
    var r := Weighted(weights, features);
    forall i | 0 <= i < |r| ensures 0.0 <= r[i] <= 2.0 {
      var w, f := weights[i], features[i];
      assert w * f <= w * 1.0 by { assert w * (1.0 - f) >= 0.0; }
      assert 0.0 <= w * f;
    }
  }

  /** Unit weights leave a vector unchanged. */
  lemma UnitWeightsIdentity(weights: seq<real>, features: seq<real>)
    requires |weights| == |features|
    requires forall i :: 0 <= i < |weights| ==> weights[i] == 1.0
    ensures Weighted(weights, features) == features
  {
  }

  /**
   * The loop of `build_ann_index`: every stored track is added to the index, in order,
   * under its id and with its weighted vector.
   */
  method BuildIndexItems(weights: seq<real>, stored: seq<TrackRow>) returns (items: seq<TrackRow>)
    ensures |items| == |stored|
    ensures forall t :: 0 <= t < |stored| ==>
      items[t] == TrackRow(stored[t].id, Weighted(weights, stored[t].features))
  {
    items := [];
    for k := 0 to |stored|
      invariant |items| == k
      invariant forall t :: 0 <= t < k ==> items[t] == TrackRow(stored[t].id, Weighted(weights, stored[t].features))
    {
      items := items + [TrackRow(stored[k].id, Weighted(weights, stored[k].features))];
    }
  }
}
