// Neighbour post-processing of the similarity engine (application/similarity/similarity_main.py):
// self-exclusion of a query's own entry, the distance-to-similarity threshold filter of the
// index queries, batch slicing for the worker pool, and the top-100 selection of the
// pairwise batch scorer. The neighbour index and the cosine distance are inputs.
module SimilarityNeighbours {

  /** One answer of the neighbour index: a track id and its distance to the query. */
  datatype Neighbor = Neighbor(id: int, distance: real)

  /** One stored similarity `(track_id_1, track_id_2, similarity_score)`. */
  datatype Scored = Scored(t1: int, t2: int, score: real)

  /** `a` is obtained from `b` by deleting entries (order kept). */
  predicate IsSubseq<T(==)>(a: seq<T>, b: seq<T>)
    decreases |b|
  {
    if a == [] then true
    else if b == [] then false
    else if a[0] == b[0] then IsSubseq(a[1..], b[1..])
    else IsSubseq(a, b[1..])
  }

  ghost predicate SortedByDistance(s: seq<Neighbor>)
  {
    forall i, j :: 0 <= i < j < |s| ==> s[i].distance <= s[j].distance
  }

  // ---------------------------------------------------------------------------
  // search_similar_tracks

  /** The comprehension of `search_similar_tracks`: drop every entry carrying the query id. */
  function ExcludeQuery(q: int, nns: seq<Neighbor>): (r: seq<Neighbor>)
    ensures |r| <= |nns|
    ensures forall i :: 0 <= i < |r| ==> r[i].id != q
    ensures forall x :: x in r <==> x in nns && x.id != q
  {
    if nns == [] then []
    else
      var rest := ExcludeQuery(q, nns[1..]);
      assert forall x :: x in nns <==> x == nns[0] || x in nns[1..];
      if nns[0].id != q then [nns[0]] + rest else rest
  }

  lemma {:induction false} ExcludeQueryIsSubseq(q: int, nns: seq<Neighbor>)
    ensures IsSubseq(ExcludeQuery(q, nns), nns)
  {
    if nns != [] {
      ExcludeQueryIsSubseq(q, nns[1..]);
      var rest := ExcludeQuery(q, nns[1..]);
      assert nns == [nns[0]] + nns[1..];
      if nns[0].id == q {
        SubseqCons(rest, nns[1..], nns[0]);
      }
    }
  }

  /** A subsequence of `b` is also one of `[x] + b`. */
  lemma {:induction false} SubseqCons<T>(a: seq<T>, b: seq<T>, x: T)
    requires IsSubseq(a, b)
    ensures IsSubseq(a, [x] + b)
    decreases |b|, 1
  {
    assert ([x] + b)[1..] == b;
    if a != [] && a[0] == x {
      SubseqDropHead(a, b);
    }
  }

  /** Dropping the head of a subsequence keeps it a subsequence. */
  lemma {:induction false} SubseqDropHead<T>(a: seq<T>, b: seq<T>)
    requires a != [] && IsSubseq(a, b)
    ensures IsSubseq(a[1..], b)
    decreases |b|, 0
  {
    assert b != [];
    assert b == [b[0]] + b[1..];
    if a[0] == b[0] {
      SubseqCons(a[1..], b[1..], b[0]);
    } else {
      SubseqDropHead(a, b[1..]);
      SubseqCons(a[1..], b[1..], b[0]);
    }
  }

  /** Survivors keep the index's order: a distance-sorted answer stays sorted. */
  lemma {:induction false} ExcludeQueryKeepsOrder(q: int, nns: seq<Neighbor>)
    requires SortedByDistance(nns)
    ensures SortedByDistance(ExcludeQuery(q, nns))
  {
    if nns != [] {
      ExcludeQueryKeepsOrder(q, nns[1..]);
      var rest := ExcludeQuery(q, nns[1..]);
      if nns[0].id != q {
        var r := [nns[0]] + rest;
        forall i, j | 0 <= i < j < |r| ensures r[i].distance <= r[j].distance {
          if i == 0 {
            assert r[j] in nns[1..];
          }
        }
      }
    }
  }

  /**
   * `search_similar_tracks(q, features, num_results)`: asks the index for
   * `num_results + 1` neighbours of the query vector and drops the query itself.
   * `annoy(n)` is the index's answer for `n` neighbours, at most `n` of them.
   */
  function SearchSimilarTracks(q: int, numResults: nat, annoy: nat -> seq<Neighbor>): (r: seq<Neighbor>)
    requires |annoy(numResults + 1)| <= numResults + 1
    ensures |r| <= numResults + 1
    ensures forall i :: 0 <= i < |r| ==> r[i].id != q
    ensures forall x :: x in r <==> x in annoy(numResults + 1) && x.id != q
  {
    ExcludeQuery(q, annoy(numResults + 1))
  }

  /** When the query's own entry is among the answers, at most `num_results` remain. */
  lemma {:induction false} SearchDropsQueryEntry(q: int, numResults: nat, annoy: nat -> seq<Neighbor>, selfDistance: real)
    requires |annoy(numResults + 1)| <= numResults + 1
    requires Neighbor(q, selfDistance) in annoy(numResults + 1)
    ensures |SearchSimilarTracks(q, numResults, annoy)| <= numResults
  {
    ExcludeQueryShorter(q, annoy(numResults + 1), Neighbor(q, selfDistance));
  }

  lemma {:induction false} ExcludeQueryShorter(q: int, nns: seq<Neighbor>, x: Neighbor)
    requires x in nns && x.id == q
    ensures |ExcludeQuery(q, nns)| < |nns|
  {
    if nns[0] != x {
      ExcludeQueryShorter(q, nns[1..], x);
    }
  }

  // ---------------------------------------------------------------------------
  // query_annoy_for_tracks

  /** The pair a neighbour contributes: similarity `1 - d`, kept when over the threshold and not the query. */
  function Emit(t1: int, nb: Neighbor, threshold: real): seq<Scored>
  {
    if 1.0 - nb.distance >= threshold && t1 != nb.id then [Scored(t1, nb.id, 1.0 - nb.distance)] else []
  }

  /** The inner loop of `query_annoy_for_tracks` over the answers for one query track. */
  function PairsFor(t1: int, nns: seq<Neighbor>, threshold: real): seq<Scored>
  {
    if nns == [] then [] else PairsFor(t1, nns[..|nns| - 1], threshold) + Emit(t1, nns[|nns| - 1], threshold)
  }

  /** All pairs of a batch, in batch order and, within a track, in the index's order. */
  function QueryResults(batch: seq<int>, index: int -> seq<Neighbor>, threshold: real): seq<Scored>
  {
    if batch == [] then []
    else QueryResults(batch[..|batch| - 1], index, threshold) + PairsFor(batch[|batch| - 1], index(batch[|batch| - 1]), threshold)
  }

  /**
   * `query_annoy_for_tracks(batch_ids, top_n, threshold)`; `index(t)` is the loaded index's
   * `get_nns_by_item(t, n=top_n)` answer.
   */
  method QueryAnnoyForTracks(batch: seq<int>, index: int -> seq<Neighbor>, threshold: real) returns (results: seq<Scored>)
    ensures results == QueryResults(batch, index, threshold)
  {
    results := [];
    var b := 0;
    while b < |batch|
      invariant 0 <= b <= |batch|
      invariant results == QueryResults(batch[..b], index, threshold)
    {
      var t1 := batch[b];
      var nns := index(t1);
      ghost var before := results;
      var j := 0;
      while j < |nns|
        invariant 0 <= j <= |nns|
        invariant results == before + PairsFor(t1, nns[..j], threshold)
      {
        PairsForStep(t1, nns, j, threshold);
        var similarity := 1.0 - nns[j].distance;
        if similarity >= threshold && t1 != nns[j].id {
          results := results + [Scored(t1, nns[j].id, similarity)];
        }
        j := j + 1;
      }
      assert nns[..j] == nns;
      QueryResultsStep(batch, b, index, threshold);
      b := b + 1;
    }
    assert batch[..b] == batch;
  }

  lemma PairsForStep(t1: int, nns: seq<Neighbor>, j: int, threshold: real)
    requires 0 <= j < |nns|
    ensures PairsFor(t1, nns[..j + 1], threshold) == PairsFor(t1, nns[..j], threshold) + Emit(t1, nns[j], threshold)
  {
    assert nns[..j + 1][..j] == nns[..j];
  }

  lemma QueryResultsStep(batch: seq<int>, b: int, index: int -> seq<Neighbor>, threshold: real)
    requires 0 <= b < |batch|
    ensures QueryResults(batch[..b + 1], index, threshold) ==
      QueryResults(batch[..b], index, threshold) + PairsFor(batch[b], index(batch[b]), threshold)
  {
    assert batch[..b + 1][..b] == batch[..b];
  }

  lemma {:induction false} PairsForMember(t1: int, nns: seq<Neighbor>, threshold: real, s: Scored)
    ensures s in PairsFor(t1, nns, threshold) <==>
      exists j :: 0 <= j < |nns| && s == Scored(t1, nns[j].id, 1.0 - nns[j].distance) &&
                  s.score >= threshold && s.t2 != t1
  {
    if nns != [] {
      var init := nns[..|nns| - 1];
      PairsForMember(t1, init, threshold, s);
      assert forall j :: 0 <= j < |init| ==> init[j] == nns[j];
    }
  }

  /**
   * A triple is emitted exactly when it comes from some query track of the batch and one
   * of its neighbours, with similarity `1 - d` at least the threshold and a different id.
   */
  lemma {:induction false} QueryResultsMember(batch: seq<int>, index: int -> seq<Neighbor>, threshold: real, s: Scored)
    ensures s in QueryResults(batch, index, threshold) <==>
      exists i, j :: 0 <= i < |batch| && 0 <= j < |index(batch[i])| &&
        s == Scored(batch[i], index(batch[i])[j].id, 1.0 - index(batch[i])[j].distance) &&
        s.score >= threshold && s.t2 != s.t1
  {
    if batch != [] {
      var init := batch[..|batch| - 1];
      var last := batch[|batch| - 1];
      QueryResultsMember(init, index, threshold, s);
      PairsForMember(last, index(last), threshold, s);
      if s in QueryResults(init, index, threshold) {
        var i, j :| 0 <= i < |init| && 0 <= j < |index(init[i])| &&
          s == Scored(init[i], index(init[i])[j].id, 1.0 - index(init[i])[j].distance) &&
          s.score >= threshold && s.t2 != s.t1;
        assert batch[i] == init[i];
      } else if s in PairsFor(last, index(last), threshold) {
        var j :| 0 <= j < |index(last)| && s == Scored(last, index(last)[j].id, 1.0 - index(last)[j].distance) &&
                 s.score >= threshold && s.t2 != last;
        assert batch[|batch| - 1] == last;
      } else {
        forall i, j | 0 <= i < |batch| && 0 <= j < |index(batch[i])| &&
            s == Scored(batch[i], index(batch[i])[j].id, 1.0 - index(batch[i])[j].distance)
          ensures !(s.score >= threshold && s.t2 != s.t1)
        {
          if i < |init| {
            assert batch[i] == init[i];
          }
        }
      }
    }
  }

  /** Querying two batches one after the other gives the concatenation of their results. */
  lemma {:induction false} QueryResultsAppend(a: seq<int>, b: seq<int>, index: int -> seq<Neighbor>, threshold: real)
    ensures QueryResults(a + b, index, threshold) == QueryResults(a, index, threshold) + QueryResults(b, index, threshold)
    decreases |b|
  {
    if b != [] {
      var bi := b[..|b| - 1];
      assert (a + b)[..|a + b| - 1] == a + bi;
      assert (a + b)[|a + b| - 1] == b[|b| - 1];
      QueryResultsAppend(a, bi, index, threshold);
    } else {
      assert a + b == a;
    }
  }

  // ---------------------------------------------------------------------------
  // compute_similarity_parallel: batch slicing

  /** `[ids[i:i + size] for i in range(0, len(ids), size)]`. */
  function Batches(ids: seq<int>, size: int): (r: seq<seq<int>>)
    requires size > 0
    ensures forall k :: 0 <= k < |r| ==> 0 < |r[k]| <= size
    ensures forall k :: 0 <= k < |r| - 1 ==> |r[k]| == size
    decreases |ids|
  {
    if ids == [] then []
    else if |ids| <= size then [ids]
    else [ids[..size]] + Batches(ids[size..], size)
  }

  function Flatten(bs: seq<seq<int>>): seq<int>
  {
    if bs == [] then [] else bs[0] + Flatten(bs[1..])
  }

  /** The batches cover the ids exactly, in order. */
  lemma {:induction false} FlattenBatches(ids: seq<int>, size: int)
    requires size > 0
    ensures Flatten(Batches(ids, size)) == ids
    decreases |ids|
  {
    if ids != [] && |ids| > size {
      var rest := Batches(ids[size..], size);
      FlattenBatches(ids[size..], size);
      assert Batches(ids, size) == [ids[..size]] + rest;
      assert ([ids[..size]] + rest)[1..] == rest;
      assert ids[..size] + ids[size..] == ids;
    } else if ids != [] {
      assert Batches(ids, size) == [ids];
      assert [ids][1..] == [];
    }
  }

  /** The results of the remaining batches are those of the next batch followed by the rest. */
  lemma BatchStep(batches: seq<seq<int>>, k: int, index: int -> seq<Neighbor>, threshold: real)
    requires 0 <= k < |batches|
    ensures QueryResults(Flatten(batches[k..]), index, threshold) ==
      QueryResults(batches[k], index, threshold) + QueryResults(Flatten(batches[k + 1..]), index, threshold)
  {
    assert Flatten(batches[k..]) == batches[k] + Flatten(batches[k + 1..]) by {
      assert batches[k..][1..] == batches[k + 1..];
    }
    QueryResultsAppend(batches[k], Flatten(batches[k + 1..]), index, threshold);
  }

  /** Results of all batches, concatenated in batch order (what `pool.starmap` returns). */
  method ComputeSimilarityParallel(trackIds: seq<int>, batchSize: int, index: int -> seq<Neighbor>, threshold: real)
    returns (all: seq<Scored>)
    requires batchSize > 0
    ensures all == QueryResults(trackIds, index, threshold)
  {
    var batches := Batches(trackIds, batchSize);
    FlattenBatches(trackIds, batchSize);
    assert batches[0..] == batches;
    all := [];
    var k := 0;
    while k < |batches|
      invariant 0 <= k <= |batches|
      invariant all + QueryResults(Flatten(batches[k..]), index, threshold) == QueryResults(trackIds, index, threshold)
    {
      var part := QueryAnnoyForTracks(batches[k], index, threshold);
      BatchStep(batches, k, index, threshold);
      all := all + part;
      k := k + 1;
    }
  }

  // ---------------------------------------------------------------------------
  // process_batch

  ghost predicate SortedDesc(s: seq<Scored>)
  {
    forall i, j :: 0 <= i < j < |s| ==> s[i].score >= s[j].score
  }

  /** Insert before the first entry whose score is not higher: a stable descending insertion. */
  function Insert(x: Scored, s: seq<Scored>): (r: seq<Scored>)
    ensures multiset(r) == multiset(s) + multiset{x}
    ensures r[0] == x || (s != [] && r[0] == s[0])
  {
    if s == [] || s[0].score <= x.score then [x] + s
    else
      var rest := Insert(x, s[1..]);
      assert s == [s[0]] + s[1..];
      [s[0]] + rest
  }

  /** Inserting into a descending list keeps it descending. */
  lemma {:induction false} InsertSorted(x: Scored, s: seq<Scored>)
    requires SortedDesc(s)
    ensures SortedDesc(Insert(x, s))
  {
    if s != [] && s[0].score > x.score {
      InsertSorted(x, s[1..]);
      var rest := Insert(x, s[1..]);
      assert multiset(rest) == multiset(s[1..]) + multiset{x};
      forall j | 0 <= j < |rest| ensures s[0].score >= rest[j].score {
        assert rest[j] in multiset(rest);
        if rest[j] != x {
          assert rest[j] in multiset(s[1..]);
          var k :| 0 <= k < |s[1..]| && s[1..][k] == rest[j];
          assert s[k + 1] == rest[j];
        }
      }
    }
  }

  /** `sorted(xs, key=lambda x: x[2], reverse=True)` (stable insertion sort). */
  function SortDesc(s: seq<Scored>): (r: seq<Scored>)
    ensures multiset(r) == multiset(s)
    ensures |r| == |s|
    ensures SortedDesc(r)
  {
    if s == [] then []
    else
      assert s == [s[0]] + s[1..];
      InsertSorted(s[0], SortDesc(s[1..]));
      Insert(s[0], SortDesc(s[1..]))
  }

  /** The candidates of one `track_id_1`: pairs with a larger id whose score reaches the threshold. */
  function Candidates(t1: int, trackIds: seq<int>, score: (int, int) -> real, threshold: real): seq<Scored>
  {
    if trackIds == [] then []
    else
      var t2 := trackIds[|trackIds| - 1];
      Candidates(t1, trackIds[..|trackIds| - 1], score, threshold) +
      (if t1 < t2 && score(t1, t2) >= threshold && t1 != t2 then [Scored(t1, t2, score(t1, t2))] else [])
  }

  function Take(s: seq<Scored>, n: nat): (r: seq<Scored>)
  {
    if |s| <= n then s else s[..n]
  }

  /** The kept similarities of one track: the 100 best candidates. */
  function TopSimilarities(t1: int, trackIds: seq<int>, score: (int, int) -> real, threshold: real): seq<Scored>
  {
    Take(SortDesc(Candidates(t1, trackIds, score, threshold)), 100)
  }

  function ProcessBatchResult(batch: seq<int>, trackIds: seq<int>, score: (int, int) -> real, threshold: real): seq<Scored>
  {
    if batch == [] then []
    else ProcessBatchResult(batch[..|batch| - 1], trackIds, score, threshold) +
         TopSimilarities(batch[|batch| - 1], trackIds, score, threshold)
  }

  /**
   * `process_batch(batch_ids, track_features, track_ids, threshold)`; `score(a, b)` is
   * `1 - cosine(track_features[a], track_features[b])`.
   */
  method ProcessBatch(batch: seq<int>, trackIds: seq<int>, score: (int, int) -> real, threshold: real)
    returns (similarities: seq<Scored>)
    ensures similarities == ProcessBatchResult(batch, trackIds, score, threshold)
  {
    similarities := [];
    var b := 0;
    while b < |batch|
      invariant 0 <= b <= |batch|
      invariant similarities == ProcessBatchResult(batch[..b], trackIds, score, threshold)
    {
      var t1 := batch[b];
      var trackSimilarities := [];
      var j := 0;
      while j < |trackIds|
        invariant 0 <= j <= |trackIds|
        invariant trackSimilarities == Candidates(t1, trackIds[..j], score, threshold)
      {
        var t2 := trackIds[j];
        assert trackIds[..j + 1][..j] == trackIds[..j];
        if t1 >= t2 {
          j := j + 1;
          continue;
        }
        var similarity := score(t1, t2);
        if similarity >= threshold && t1 != t2 {
          trackSimilarities := trackSimilarities + [Scored(t1, t2, similarity)];
        }
        j := j + 1;
      }
      assert trackIds[..j] == trackIds;
      var top := Take(SortDesc(trackSimilarities), 100);
      similarities := similarities + top;
      assert batch[..b + 1][..b] == batch[..b];
      b := b + 1;
    }
    assert batch[..b] == batch;
  }

  lemma {:induction false} CandidatesShape(t1: int, trackIds: seq<int>, score: (int, int) -> real, threshold: real)
    ensures forall x :: x in Candidates(t1, trackIds, score, threshold) ==>
      x.t1 == t1 && t1 < x.t2 && x.score == score(t1, x.t2) && x.score >= threshold && x.t2 in trackIds
  {
    if trackIds != [] {
      CandidatesShape(t1, trackIds[..|trackIds| - 1], score, threshold);
      assert forall t :: t in trackIds[..|trackIds| - 1] ==> t in trackIds;
    }
  }

  /** Every qualifying pair is a candidate: a later id of the list whose score reaches the threshold. */
  lemma {:induction false} CandidatesComplete(t1: int, trackIds: seq<int>, score: (int, int) -> real, threshold: real, t2: int)
    requires t2 in trackIds && t1 < t2 && score(t1, t2) >= threshold
    ensures Scored(t1, t2, score(t1, t2)) in Candidates(t1, trackIds, score, threshold)
  {
    var init := trackIds[..|trackIds| - 1];
    assert trackIds == init + [trackIds[|trackIds| - 1]];
    if t2 != trackIds[|trackIds| - 1] {
      assert t2 in init;
      CandidatesComplete(t1, init, score, threshold, t2);
    }
  }

  /** A prefix of a descending list: sorted, part of the list, and no dropped entry scores higher. */
  lemma TakeOfSorted(s: seq<Scored>, n: nat)
    requires SortedDesc(s)
    ensures |Take(s, n)| <= n
    ensures SortedDesc(Take(s, n))
    ensures multiset(Take(s, n)) <= multiset(s)
    ensures forall y, x :: y in multiset(s) - multiset(Take(s, n)) && x in Take(s, n) ==> y.score <= x.score
  {
    var t := Take(s, n);
    var k := |t|;
    assert t == s[..k];
    assert s == s[..k] + s[k..];
    assert multiset(s) == multiset(s[..k]) + multiset(s[k..]);
    forall y, x | y in multiset(s) - multiset(t) && x in t ensures y.score <= x.score {
      assert y in multiset(s[k..]);
      DroppedBelowKept(s, k, y, x);
    }
  }

  lemma DroppedBelowKept(s: seq<Scored>, k: nat, y: Scored, x: Scored)
    requires SortedDesc(s) && k <= |s|
    requires y in s[k..] && x in s[..k]
    ensures y.score <= x.score
  {
    var jy :| 0 <= jy < |s[k..]| && s[k..][jy] == y;
    var ix :| 0 <= ix < k && s[..k][ix] == x;
    assert s[k + jy] == y && s[ix] == x;
  }

  /**
   * The kept list of a track: the 100 best candidates (all of them when fewer), sorted by
   * non-increasing score, each a pair with a larger id and a score reaching the threshold,
   * drawn from the candidates,
   * and every dropped candidate scores no higher than any kept one.
   */
  lemma TopSimilaritiesProperties(t1: int, trackIds: seq<int>, score: (int, int) -> real, threshold: real)
    ensures |TopSimilarities(t1, trackIds, score, threshold)| ==
      if |Candidates(t1, trackIds, score, threshold)| < 100 then |Candidates(t1, trackIds, score, threshold)| else 100
    ensures SortedDesc(TopSimilarities(t1, trackIds, score, threshold))
    ensures forall x :: x in TopSimilarities(t1, trackIds, score, threshold) ==>
      x.t1 == t1 && t1 < x.t2 && x.score >= threshold
    ensures multiset(TopSimilarities(t1, trackIds, score, threshold)) <= multiset(Candidates(t1, trackIds, score, threshold))
    ensures forall y, x ::
      (y in multiset(Candidates(t1, trackIds, score, threshold)) - multiset(TopSimilarities(t1, trackIds, score, threshold)) &&
       x in TopSimilarities(t1, trackIds, score, threshold)) ==> y.score <= x.score
  {
    var cands := Candidates(t1, trackIds, score, threshold);
    var sorted := SortDesc(cands);
    var top := TopSimilarities(t1, trackIds, score, threshold);
    TakeOfSorted(sorted, 100);
    assert |sorted| == |cands|;
    CandidatesShape(t1, trackIds, score, threshold);
    forall x | x in top ensures x.t1 == t1 && t1 < x.t2 && x.score >= threshold {
      assert x in multiset(top);
      assert x in multiset(cands);
    }
  }
}
