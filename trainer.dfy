// The feedback trainer of the similarity engine (application/similarity/train_weights.py;
// the background worker in application/gui/data_table.py runs the same algorithm). Every
// rated track turns its rating into a target distance, takes one gradient step on the
// feature weights and clamps them to [0, 2]; the epoch loop keeps the best loss, counts
// epochs without improvement, stops after `patience` of them and halves the learning rate
// once more than `patience // 2` have passed.
module Trainer {
  import opened Wrappers
  import PyStr
  import PyArith
  import SF = SimilarityFeatures
  import SN = SimilarityNeighbours

  const DefaultAdjustmentFactor: real := 0.2
  const DefaultLearningRate: real := 0.01
  const DefaultMaxEpochs: int := 200
  const DefaultPatience: int := 10

  /**
   * A value of the feedback dict: an int (the curses session, the origin's -1), or a cell of
   * the Textual table (text, a float, or None).
   */
  datatype Rating = IntRating(i: int) | TextRating(s: string) | RealRating(x: real) | NoRating

  /** `rating == -1`: true for the int -1 and the float -1.0, never for text. */
  predicate IsMinusOne(r: Rating)
  {
    r == IntRating(-1) || r == RealRating(-1.0)
  }

  /** `float(rating)`: text `float` cannot read raises ValueError, None raises TypeError. */
  function RatingValue(r: Rating): Result<real>
  {
    match r
    case IntRating(i) => Ok(i as real)
    case RealRating(x) => Ok(x)
    case NoRating => Err(TypeError)
    case TextRating(s) =>
      match PyStr.ParseFloat(s)
      case Some(x) => Ok(x)
      case None => Err(ValueError)
  }

  /**
   * What `float(rating)` makes of each kind of rating: numbers pass, None is a TypeError,
   * and text that `int()` would read gives the same number through the float parser,
   * while a fraction such as "2.5", which `int()` refuses, is read too.
   */
  lemma RatingValueProperties(r: Rating)
    ensures r.IntRating? ==> RatingValue(r) == Ok(r.i as real)
    ensures r.RealRating? ==> RatingValue(r) == Ok(r.x)
    ensures r.NoRating? ==> RatingValue(r) == Err(TypeError)
    ensures RatingValue(r).Err? ==> RatingValue(r).error in {TypeError, ValueError}
    ensures r.TextRating? && PyStr.ParseInt(r.s).Some? ==> RatingValue(r) == Ok(PyStr.ParseInt(r.s).value as real)
    ensures RatingValue(TextRating("2.5")) == Ok(2.5)
  {
    if r.TextRating? && PyStr.ParseInt(r.s).Some? {
      PyStr.ParseFloatOfInt(r.s);
    }
    PyStr.ParseFloatFraction();
  }

  /**
   * `map_rating_to_similarity`: the target moves by `rating * adjustment_factor`; a zero
   * rating keeps the measured value and, for a positive factor, the sign of the rating is
   * the direction of the move.
   */
  function MapRatingToSimilarity(similarity: real, rating: real, adjustmentFactor: real): (r: real)
    ensures rating == 0.0 ==> r == similarity
    ensures adjustmentFactor > 0.0 ==> (r > similarity <==> rating > 0.0)
    ensures adjustmentFactor > 0.0 ==> (r < similarity <==> rating < 0.0)
  {
    similarity + rating * adjustmentFactor
  }

  /** A higher rating never gives a lower target. */
  lemma MapRatingMonotone(similarity: real, r1: real, r2: real, adjustmentFactor: real)
    requires adjustmentFactor >= 0.0 && r1 <= r2
    ensures MapRatingToSimilarity(similarity, r1, adjustmentFactor) <= MapRatingToSimilarity(similarity, r2, adjustmentFactor)
  {
    assert r2 * adjustmentFactor - r1 * adjustmentFactor == (r2 - r1) * adjustmentFactor;
  }

  /** `np.clip(x, 0.0, 2.0)` on one component. */
  function Clip(x: real): (r: real)
    ensures 0.0 <= r <= 2.0
    ensures 0.0 <= x <= 2.0 ==> r == x
    ensures x < 0.0 ==> r == 0.0
    ensures x > 2.0 ==> r == 2.0
  {
    if x < 0.0 then 0.0 else if x > 2.0 then 2.0 else x
  }

  predicate Clamped(w: seq<real>)
  {
    forall i :: 0 <= i < |w| ==> 0.0 <= w[i] <= 2.0
  }

  /** `origin_vector - track_vector`. */
  function Diff(o: seq<real>, t: seq<real>): (d: seq<real>)
    requires |o| == |t|
    ensures |d| == |o|
    ensures forall i :: 0 <= i < |d| ==> d[i] == o[i] - t[i]
  {
    seq(|o|, i requires 0 <= i < |o| => o[i] - t[i])
  }

  /** `x ** 2`. */
  function Square(x: real): (r: real)
    ensures r >= 0.0
  {
    x * x
  }

  /** `np.sum(v ** 2)`. */
  function SumSquares(v: seq<real>): (r: real)
    ensures r >= 0.0
  {
    if v == [] then 0.0 else Square(v[0]) + SumSquares(v[1..])
  }

  /** One component of the update: `w - lr * (-2 * error * d)`, clipped. */
  function Step(w: real, d: real, error: real, lr: real): real
  {
    Clip(w + 2.0 * lr * error * d)
  }

  /**
   * `weights -= lr * (-2 * error * d)` followed by `np.clip(weights, 0.0, 2.0)`: the new
   * weights are always in [0, 2].
   */
  function GradientStep(w: seq<real>, d: seq<real>, error: real, lr: real): (r: seq<real>)
    requires |w| == |d|
    ensures |r| == |w|
    ensures Clamped(r)
    ensures forall i :: 0 <= i < |w| ==> r[i] == Step(w[i], d[i], error, lr)
  {
    seq(|w|, i requires 0 <= i < |w| => Step(w[i], d[i], error, lr))
  }

  /**
   * One step moves a clamped weight towards closing the error: up when `error * d[i]` is
   * positive, down when it is negative, and not at all when the error is zero.
   */
  lemma GradientStepDirection(w: seq<real>, d: seq<real>, error: real, lr: real, i: int)
    requires |w| == |d| && 0 <= i < |w| && lr >= 0.0 && 0.0 <= w[i] <= 2.0
    ensures error * d[i] >= 0.0 ==> GradientStep(w, d, error, lr)[i] >= w[i]
    ensures error * d[i] <= 0.0 ==> GradientStep(w, d, error, lr)[i] <= w[i]
    ensures error == 0.0 ==> GradientStep(w, d, error, lr)[i] == w[i]
  {
    var g := error * d[i];
    assert GradientStep(w, d, error, lr)[i] == Clip(w[i] + 2.0 * lr * error * d[i]);
    assert w[i] + 2.0 * lr * error * d[i] == w[i] + 2.0 * (lr * g);
    if g >= 0.0 { assert lr * g >= 0.0; }
    if g <= 0.0 {
      assert lr * (-g) >= 0.0;
      assert lr * g == -(lr * (-g));
    }
  }

  /** With a zero error every clamped weight vector is a fixed point of the step. */
  lemma GradientStepZeroError(w: seq<real>, d: seq<real>, lr: real)
    requires |w| == |d| && Clamped(w)
    ensures GradientStep(w, d, 0.0, lr) == w
  {
    forall i | 0 <= i < |w| ensures GradientStep(w, d, 0.0, lr)[i] == w[i] {
      assert w[i] + 2.0 * lr * 0.0 * d[i] == w[i];
    }
  }

  /**
   * What one training run reads: the feedback items in dict order, the origin track, the
   * neighbour distances (`similar_tracks_similarity`), the position offset between a
   * feedback item and its distance, the feature vectors, the square root and the factor
   * of the rating map. `vectors` answers None for an id with no vector, and `source` says
   * what the lookup then raises.
   */
  datatype Env<!Id> = Env(
    feedback: seq<(Id, Rating)>,
    origin: Id,
    distances: seq<real>,
    offset: int,
    originVec: seq<real>,
    vectors: Id -> Option<seq<real>>,
    source: VectorSource,
    sqrt: real -> real,
    adjustmentFactor: real)

  /**
   * Where a run's vectors come from: the worker's cache dict, whose lookup of a missing id
   * raises KeyError, or `get_feature_vector`, which subscripts the None of a missing row.
   */
  datatype VectorSource = Cache | Database

  function Missing(source: VectorSource): (e: Error)
    ensures e in {KeyError, TypeError}
  {
    match source
    case Cache => KeyError
    case Database => TypeError
  }

  /** The origin and the ratings equal to -1 are skipped. */
  predicate Skipped<Id(==)>(env: Env<Id>, k: int)
    requires 0 <= k < |env.feedback|
  {
    env.feedback[k].0 == env.origin || IsMinusOne(env.feedback[k].1)
  }

  /** Some item among the first j is not skipped. */
  predicate TrainableBefore<Id(==)>(env: Env<Id>, j: nat)
    requires j <= |env.feedback|
  {
    j > 0 && (TrainableBefore(env, j - 1) || !Skipped(env, j - 1))
  }

  /** Some item is not skipped, so an epoch without an error trains at least once. */
  predicate SomeTrainable<Id(==)>(env: Env<Id>)
  {
    TrainableBefore(env, |env.feedback|)
  }

  /** `TrainableBefore` is the existence of an item that is not skipped. */
  lemma {:induction false} TrainableBeforeExists<Id>(env: Env<Id>, j: nat)
    requires j <= |env.feedback|
    ensures TrainableBefore(env, j) <==> exists k :: 0 <= k < j && !Skipped(env, k)
  {
    if j > 0 {
      TrainableBeforeExists(env, j - 1);
    }
  }

  /** The running values inside one epoch: the weights, whether they became an array, `total_loss`. */
  datatype EpochAcc = EpochAcc(weights: seq<real>, trained: bool, loss: real)

  /** The distance the rating of item k adjusts: `similar_tracks_similarity[k - offset]`. */
  function TargetAt<Id(==)>(env: Env<Id>, k: int): (r: Result<real>)
    requires 0 <= k < |env.feedback|
  {
    match PyStr.PyIndex(env.distances, k - env.offset)
    case None => Err(IndexError)
    case Some(dist) =>
      match RatingValue(env.feedback[k].1)
      case Err(e) => Err(e)
      case Ok(v) => Ok(MapRatingToSimilarity(dist, v, env.adjustmentFactor))
  }

  /**
   * The body of the inner loop for item k: a skipped item changes nothing; a trained one
   * leaves clamped weights of the same dimension and adds its squared error to the loss.
   * The vector is looked up first, then the target; origin, track and weights of different
   * lengths make the numpy arithmetic raise ValueError.
   */
  function SampleStep<Id(==)>(env: Env<Id>, acc: EpochAcc, lr: real, k: int): (r: Result<EpochAcc>)
    requires 0 <= k < |env.feedback|
    ensures Skipped(env, k) ==> r == Ok(acc)
    ensures r.Ok? ==> |r.value.weights| == |acc.weights| && r.value.loss >= acc.loss
    ensures r.Ok? && !Skipped(env, k) ==> r.value.trained && Clamped(r.value.weights)
    ensures r.Err? ==> r.error in {KeyError, IndexError, ValueError, TypeError}
  {
    if Skipped(env, k) then Ok(acc)
    else
      match env.vectors(env.feedback[k].0)
      case None => Err(Missing(env.source))
      case Some(t) =>
        match TargetAt(env, k)
        case Err(e) => Err(e)
        case Ok(target) =>
          if |env.originVec| != |acc.weights| || |t| != |acc.weights| then Err(ValueError)
          else Ok(Train(env, acc, lr, t, target))
  }

  /**
   * A trained item: the weighted Euclidean distance between the origin and the track is the
   * prediction, its error against the target drives the step and its square joins the loss.
   */
  function Train<Id(==)>(env: Env<Id>, acc: EpochAcc, lr: real, t: seq<real>, target: real): (r: EpochAcc)
    requires |env.originVec| == |t| == |acc.weights|
    ensures |r.weights| == |acc.weights| && r.loss >= acc.loss && r.trained && Clamped(r.weights)
  {
    var d := Diff(env.originVec, t);
    var predicted := env.sqrt(SumSquares(SF.Weighted(acc.weights, d)));
    var error := target - predicted;
    EpochAcc(GradientStep(acc.weights, d, error, lr), true, acc.loss + Square(error))
  }

  /** The inner loop over the first j feedback items; it keeps the dimension of the weights. */
  function EpochUpTo<Id(==)>(env: Env<Id>, start: EpochAcc, lr: real, j: nat): (r: Result<EpochAcc>)
    requires j <= |env.feedback|
    ensures r.Ok? ==> |r.value.weights| == |start.weights|
  {
    if j == 0 then Ok(start)
    else
      match EpochUpTo(env, start, lr, j - 1)
      case Err(e) => Err(e)
      case Ok(acc) => SampleStep(env, acc, lr, j - 1)
  }

  /**
   * The inner loop only adds to the loss, trains exactly when some item so far is not
   * skipped, leaves everything unchanged otherwise, leaves clamped weights once it has
   * trained, and fails only with a lookup error.
   */
  lemma {:induction false} EpochUpToFacts<Id>(env: Env<Id>, start: EpochAcc, lr: real, j: nat)
    requires j <= |env.feedback|
    ensures var r := EpochUpTo(env, start, lr, j);
      (r.Ok? ==> r.value.loss >= start.loss) &&
      (r.Ok? ==> (r.value.trained <==> start.trained || TrainableBefore(env, j))) &&
      (!TrainableBefore(env, j) ==> r == Ok(start)) &&
      (r.Ok? && TrainableBefore(env, j) ==> Clamped(r.value.weights)) &&
      (r.Ok? && Clamped(start.weights) ==> Clamped(r.value.weights)) &&
      (r.Err? ==> r.error in {KeyError, IndexError, ValueError, TypeError})
  {
    if j > 0 {
      EpochUpToFacts(env, start, lr, j - 1);
    }
  }

  /** `best_loss`: `float("inf")` until the first epoch ends. */
  datatype Best = Infinity | Finite(value: real)

  predicate Below(loss: real, best: Best)
  {
    best.Infinity? || loss < best.value
  }

  /**
   * The state between epochs. `counter` is `epochs_without_improvement`, `epochs` the number
   * of finished epochs, `lastImproved` the number of epochs finished when the loss last
   * improved, `halvings` how often the rate was halved and `halvingsAtImprovement` that
   * count at the last improvement.
   */
  datatype TrainState = TrainState(
    weights: seq<real>, trained: bool, best: Best, counter: nat, lr: real, stopped: bool,
    epochs: nat, lastImproved: nat, halvings: nat, halvingsAtImprovement: nat)

  function Initial(weights: seq<real>, lr: real): TrainState
  {
    TrainState(weights, false, Infinity, 0, lr, false, 0, 0, 0, 0)
  }

  /** The inner loop of one epoch, started from the state's weights with `total_loss = 0`. */
  function EpochOf<Id(==)>(env: Env<Id>, s: TrainState): (r: Result<EpochAcc>)
  {
    EpochUpTo(env, EpochAcc(s.weights, s.trained, 0.0), s.lr, |env.feedback|)
  }

  /** One pass of the epoch loop: the inner loop, then the best-loss, stop and decay rules. */
  function EpochTransition<Id(==)>(env: Env<Id>, s: TrainState, patience: int): Result<TrainState>
  {
    match EpochOf(env, s)
    case Err(e) => Err(e)
    case Ok(acc) => Ok(AfterEpoch(s, acc, patience))
  }

  /** The bookkeeping after the inner loop: best loss, counter, stop and decay. */
  function AfterEpoch(s: TrainState, acc: EpochAcc, patience: int): TrainState
  {
      var improved := Below(acc.loss, s.best);
      var best := if improved then Finite(acc.loss) else s.best;
      var counter := if improved then 0 else s.counter + 1;
      var epochs := s.epochs + 1;
      var last := if improved then epochs else s.lastImproved;
      var atImprovement := if improved then s.halvings else s.halvingsAtImprovement;
      if counter >= patience then
        TrainState(acc.weights, acc.trained, best, counter, s.lr, true, epochs, last, s.halvings, atImprovement)
      else if counter > PyArith.FloorDiv(patience, 2) then
        TrainState(acc.weights, acc.trained, best, counter, s.lr * 0.5, false, epochs, last, s.halvings + 1, atImprovement)
      else
        TrainState(acc.weights, acc.trained, best, counter, s.lr, false, epochs, last, s.halvings, atImprovement)
  }

  /**
   * The bookkeeping after the inner loop, as the loop writes it: a strictly lower loss
   * becomes the best and resets the counter, otherwise the counter grows; at `patience`
   * the loop stops, and past `patience // 2` the rate is halved. The results are the
   * fields of `AfterEpoch`.
   */
  method EndEpoch(ghost s: TrainState, ghost acc: EpochAcc, totalLoss: real, best: Best, counter: nat, learningRate: real, patience: int)
    returns (best': Best, counter': nat, learningRate': real, stop: bool, halved: bool)
    requires s.best == best && s.counter == counter && s.lr == learningRate && acc.loss == totalLoss
    ensures var t := AfterEpoch(s, acc, patience);
      t.best == best' && t.counter == counter' && t.lr == learningRate' && t.stopped == stop &&
      t.weights == acc.weights && t.trained == acc.trained && t.epochs == s.epochs + 1 &&
      (halved <==> t.halvings > s.halvings)
  {
    best', counter', learningRate', stop, halved := best, counter, learningRate, false, false;
    if Below(totalLoss, best) {
      best' := Finite(totalLoss);
      counter' := 0;
    } else {
      counter' := counter + 1;
    }
    if counter' >= patience {
      stop := true;
      return;
    }
    if counter' > PyArith.FloorDiv(patience, 2) {
      learningRate' := learningRate * 0.5;
      halved := true;
    }
  }

  /** `for epoch in range(e)`, ending early at the `break` of the stop rule; the dimension is kept. */
  function Run<Id(==)>(env: Env<Id>, init: TrainState, patience: int, e: nat): (r: Result<TrainState>)
    ensures r.Ok? ==> |r.value.weights| == |init.weights|
  {
    if e == 0 then Ok(init)
    else
      match Run(env, init, patience, e - 1)
      case Err(x) => Err(x)
      case Ok(s) => if s.stopped then Ok(s) else EpochTransition(env, s, patience)
  }

  /** What `train_feature_weights` returns: `weights.tolist()`, which fails on the plain config list if no step ever ran. */
  function TrainOutcome<Id(==)>(env: Env<Id>, weights: seq<real>, lr: real, maxEpochs: int, patience: int): Result<seq<real>>
  {
    var e := if maxEpochs < 0 then 0 else maxEpochs;
    match Run(env, Initial(weights, lr), patience, e)
    case Err(x) => Err(x)
    case Ok(s) => if s.trained then Ok(s.weights) else Err(AttributeError)
  }

  /** `lr` halved n times: `lr / 2**n`. */
  function Halved(lr: real, n: nat): real
  {
    if n == 0 then lr else Halved(lr, n - 1) * 0.5
  }

  /** The facts of `EpochUpToFacts` for the epoch that takes a run from e - 1 to e epochs. */
  lemma PreviousEpochFacts<Id>(env: Env<Id>, w: seq<real>, lr: real, patience: int, e: nat)
    requires e > 0
    ensures Run(env, Initial(w, lr), patience, e - 1).Ok? && !Run(env, Initial(w, lr), patience, e - 1).value.stopped ==>
      var s := Run(env, Initial(w, lr), patience, e - 1).value;
      var r := EpochOf(env, s);
      (r.Ok? ==> r.value.loss >= 0.0) &&
      (r.Ok? ==> (r.value.trained <==> s.trained || SomeTrainable(env))) &&
      (!SomeTrainable(env) ==> r == Ok(EpochAcc(s.weights, s.trained, 0.0))) &&
      (r.Ok? && SomeTrainable(env) ==> Clamped(r.value.weights)) &&
      (r.Ok? && Clamped(s.weights) ==> Clamped(r.value.weights)) &&
      (r.Err? ==> r.error in {KeyError, IndexError, ValueError, TypeError})
  {
    var prev := Run(env, Initial(w, lr), patience, e - 1);
    if prev.Ok? && !prev.value.stopped {
      var s := prev.value;
      EpochUpToFacts(env, EpochAcc(s.weights, s.trained, 0.0), s.lr, |env.feedback|);
    }
  }

  /** Weights stay the configured list until a step runs; afterwards they are always in [0, 2]. */
  lemma {:induction false} RunWeights<Id>(env: Env<Id>, w: seq<real>, lr: real, patience: int, e: nat)
    ensures Run(env, Initial(w, lr), patience, e).Ok? ==>
      var s := Run(env, Initial(w, lr), patience, e).value;
      (s.trained ==> Clamped(s.weights)) && (!s.trained ==> s.weights == w) &&
      (s.trained <==> s.epochs >= 1 && SomeTrainable(env))
  {
    if e > 0 {
      RunWeights(env, w, lr, patience, e - 1);
      RunCounters(env, w, lr, patience, e - 1);
      PreviousEpochFacts(env, w, lr, patience, e);
    }
  }

  /** The rate after one epoch is the old one, or half of it when the decay rule fires. */
  lemma AfterEpochRate(s: TrainState, acc: EpochAcc, patience: int)
    ensures var t := AfterEpoch(s, acc, patience);
      (t.halvings == s.halvings && t.lr == s.lr) || (t.halvings == s.halvings + 1 && t.lr == s.lr * 0.5)
  {
  }

  /** The learning rate is the initial one halved once per decay. */
  lemma {:induction false} RunLearningRate<Id>(env: Env<Id>, w: seq<real>, lr: real, patience: int, e: nat)
    ensures Run(env, Initial(w, lr), patience, e).Ok? ==>
      Run(env, Initial(w, lr), patience, e).value.lr == Halved(lr, Run(env, Initial(w, lr), patience, e).value.halvings)
  {
    if e > 0 {
      RunLearningRate(env, w, lr, patience, e - 1);
      var prev := Run(env, Initial(w, lr), patience, e - 1);
      if prev.Ok? && !prev.value.stopped {
        var ep := EpochOf(env, prev.value);
        if ep.Ok? {
          AfterEpochRate(prev.value, ep.value, patience);
        }
      }
    }
  }

  lemma {:induction false} HalvedBounds(lr: real, n: nat)
    requires lr >= 0.0
    ensures 0.0 <= Halved(lr, n) <= lr
  {
    if n > 0 {
      HalvedBounds(lr, n - 1);
    }
  }

  /** A non-negative learning rate never grows and never turns negative. */
  lemma RunLearningRateBounds<Id>(env: Env<Id>, w: seq<real>, lr: real, patience: int, e: nat)
    requires lr >= 0.0
    ensures Run(env, Initial(w, lr), patience, e).Ok? ==>
      0.0 <= Run(env, Initial(w, lr), patience, e).value.lr <= lr
  {
    var r := Run(env, Initial(w, lr), patience, e);
    if r.Ok? {
      RunLearningRate(env, w, lr, patience, e);
      HalvedBounds(lr, r.value.halvings);
    }
  }

  /**
   * The stop rule after e epochs: the counter is the number of epochs since the last
   * improvement, the first epoch always improves, a run that has not stopped has done
   * every epoch, and a run stops exactly when the counter reaches `patience` (at once when
   * `patience <= 0`).
   */
  predicate CountersHold(s: TrainState, e: nat, patience: int, init: TrainState)
  {
    s.epochs <= e && (!s.stopped ==> s.epochs == e) &&
    (s.epochs == 0 ==> s == init) &&
    (s.epochs >= 1 ==> 1 <= s.lastImproved <= s.epochs && s.best.Finite? && s.best.value >= 0.0) &&
    s.counter == s.epochs - s.lastImproved &&
    (s.stopped <==> s.epochs >= 1 && s.counter >= patience) &&
    (s.stopped ==> s.counter == (if patience < 0 then 0 else patience))
  }

  /** One epoch with a non-negative loss keeps the stop rule. */
  lemma AfterEpochCounters(s: TrainState, acc: EpochAcc, patience: int, e: nat, init: TrainState)
    requires CountersHold(s, e, patience, init) && !s.stopped && acc.loss >= 0.0
    requires init.epochs == 0 && init.lastImproved == 0 && init.counter == 0 && init.best == Infinity
    ensures CountersHold(AfterEpoch(s, acc, patience), e + 1, patience, init)
  {
  }

  /** The stop rule holds after every number of epochs. */
  lemma {:induction false} RunCounters<Id>(env: Env<Id>, w: seq<real>, lr: real, patience: int, e: nat)
    ensures Run(env, Initial(w, lr), patience, e).Ok? ==>
      CountersHold(Run(env, Initial(w, lr), patience, e).value, e, patience, Initial(w, lr))
  {
    if e > 0 {
      RunCounters(env, w, lr, patience, e - 1);
      PreviousEpochFacts(env, w, lr, patience, e);
      var prev := Run(env, Initial(w, lr), patience, e - 1);
      if prev.Ok? && !prev.value.stopped {
        var ep := EpochOf(env, prev.value);
        if ep.Ok? {
          AfterEpochCounters(prev.value, ep.value, patience, e - 1, Initial(w, lr));
        }
      }
    }
  }

  /**
   * Between two improvements the rate is halved at most `patience - 1 - patience // 2`
   * times (4 times for the default patience of 10).
   */
  lemma {:induction false} RunPlateauHalvings<Id>(env: Env<Id>, w: seq<real>, lr: real, patience: int, e: nat)
    ensures Run(env, Initial(w, lr), patience, e).Ok? ==>
      var s := Run(env, Initial(w, lr), patience, e).value;
      var h := PyArith.FloorDiv(patience, 2);
      s.halvingsAtImprovement <= s.halvings &&
      s.halvings - s.halvingsAtImprovement <= (if patience - 1 - h < 0 then 0 else patience - 1 - h)
  {
    PlateauExact(env, w, lr, patience, e);
    RunCounters(env, w, lr, patience, e);
  }

  /** The exact number of halvings since the last improvement, as a function of the counter. */
  lemma {:induction false} PlateauExact<Id>(env: Env<Id>, w: seq<real>, lr: real, patience: int, e: nat)
    ensures Run(env, Initial(w, lr), patience, e).Ok? ==>
      var s := Run(env, Initial(w, lr), patience, e).value;
      var h := if PyArith.FloorDiv(patience, 2) < 0 then 0 else PyArith.FloorDiv(patience, 2);
      var c := if s.stopped then s.counter - 1 else s.counter;
      s.halvingsAtImprovement <= s.halvings &&
      s.halvings - s.halvingsAtImprovement == (if c - h < 0 then 0 else c - h) &&
      (!s.stopped && s.epochs >= 1 ==> s.counter < patience)
  {
    RunCounters(env, w, lr, patience, e);
    if e > 0 {
      PlateauExact(env, w, lr, patience, e - 1);
      RunCounters(env, w, lr, patience, e - 1);
    }
  }

  /** Once stopped or failed, more epochs change nothing: the `break` and the raised error are final. */
  lemma {:induction false} RunStable<Id>(env: Env<Id>, w: seq<real>, lr: real, patience: int, e: nat, e2: nat)
    requires e <= e2
    requires Run(env, Initial(w, lr), patience, e).Err? || Run(env, Initial(w, lr), patience, e).value.stopped
    ensures Run(env, Initial(w, lr), patience, e2) == Run(env, Initial(w, lr), patience, e)
    decreases e2
  {
    if e < e2 {
      RunStable(env, w, lr, patience, e, e2 - 1);
    }
  }

  /**
   * The result is clamped weights of the configured dimension; `AttributeError` is raised
   * exactly when no epoch runs or every feedback item is skipped.
   */
  lemma TrainOutcomeProperties<Id>(env: Env<Id>, w: seq<real>, lr: real, maxEpochs: int, patience: int)
    ensures var r := TrainOutcome(env, w, lr, maxEpochs, patience);
      (r.Ok? ==> Clamped(r.value) && |r.value| == |w|) &&
      (r == Err(AttributeError) <==> maxEpochs <= 0 || !SomeTrainable(env))
  {
    var e: nat := if maxEpochs < 0 then 0 else maxEpochs;
    RunWeights(env, w, lr, patience, e);
    RunCounters(env, w, lr, patience, e);
    if !SomeTrainable(env) {
      NoTrainableNoError(env, w, lr, patience, e);
    }
    RunErrorKinds(env, w, lr, patience, e);
  }

  /** With every item skipped nothing is looked up, so no run fails. */
  lemma {:induction false} NoTrainableNoError<Id>(env: Env<Id>, w: seq<real>, lr: real, patience: int, e: nat)
    requires !SomeTrainable(env)
    ensures Run(env, Initial(w, lr), patience, e).Ok?
  {
    if e > 0 {
      NoTrainableNoError(env, w, lr, patience, e - 1);
      PreviousEpochFacts(env, w, lr, patience, e);
    }
  }

  /** A run only fails with the lookup errors of the inner loop. */
  lemma {:induction false} RunErrorKinds<Id>(env: Env<Id>, w: seq<real>, lr: real, patience: int, e: nat)
    ensures Run(env, Initial(w, lr), patience, e).Err? ==>
      Run(env, Initial(w, lr), patience, e).error in {KeyError, IndexError, ValueError, TypeError}
  {
    if e > 0 {
      RunErrorKinds(env, w, lr, patience, e - 1);
      PreviousEpochFacts(env, w, lr, patience, e);
    }
  }

  /** A failure inside an epoch ends the inner loop: later items do not change it. */
  lemma {:induction false} EpochUpToErrStable<Id>(env: Env<Id>, start: EpochAcc, lr: real, j: nat, j2: nat)
    requires j <= j2 <= |env.feedback|
    requires EpochUpTo(env, start, lr, j).Err?
    ensures EpochUpTo(env, start, lr, j2) == EpochUpTo(env, start, lr, j)
    decreases j2
  {
    if j < j2 {
      EpochUpToErrStable(env, start, lr, j, j2 - 1);
    }
  }

  /** `[x[1] for x in similar_tracks]`. */
  function Distances(similarTracks: seq<SN.Neighbor>): (r: seq<real>)
    ensures |r| == |similarTracks|
    ensures forall k :: 0 <= k < |r| ==> r[k] == similarTracks[k].distance
  {
    seq(|similarTracks|, k requires 0 <= k < |similarTracks| => similarTracks[k].distance)
  }

  /**
   * The run of `train_feature_weights_curses`: the feedback dict of the rating session, the
   * distances of `similar_tracks`, whose entry idx - 1 belongs to feedback item idx (item 0
   * is the origin), the origin's vector and `get_feature_vector` for every id. A track with
   * no row makes `get_feature_vector` index None, a TypeError.
   */
  function CursesEnv(similarTracks: seq<SN.Neighbor>, feedback: seq<(int, int)>, origin: int, originVec: seq<real>,
                     features: int -> Option<seq<real>>, sqrt: real -> real): (env: Env<int>)
    ensures |env.feedback| == |feedback| && env.origin == origin && env.originVec == originVec
    ensures env.vectors == features && Missing(env.source) == TypeError && env.offset == 1
    ensures forall k :: 0 <= k < |feedback| ==> env.feedback[k] == (feedback[k].0, IntRating(feedback[k].1))
  {
    Env(seq(|feedback|, k requires 0 <= k < |feedback| => (feedback[k].0, IntRating(feedback[k].1))),
        origin,
        Distances(similarTracks),
        1, originVec, features, Database, sqrt, DefaultAdjustmentFactor)
  }

  /**
   * What `train_feature_weights_curses` returns or raises: the origin's vector is fetched
   * before the first epoch, so an origin with no row raises TypeError whatever else holds;
   * otherwise the outcome of the training run.
   */
  function CursesOutcome(similarTracks: seq<SN.Neighbor>, feedback: seq<(int, int)>, origin: int,
                         configWeights: seq<real>, features: int -> Option<seq<real>>, sqrt: real -> real,
                         initialLearningRate: real, maxEpochs: int, patience: int): (r: Result<seq<real>>)
    ensures features(origin).None? ==> r == Err(TypeError)
    ensures features(origin).Some? ==>
      r == TrainOutcome(CursesEnv(similarTracks, feedback, origin, features(origin).value, features, sqrt),
                        configWeights, initialLearningRate, maxEpochs, patience)
  {
    match features(origin)
    case None => Err(TypeError)
    case Some(originVec) =>
      TrainOutcome(CursesEnv(similarTracks, feedback, origin, originVec, features, sqrt),
                   configWeights, initialLearningRate, maxEpochs, patience)
  }

  /** The inner loop extended by item j is the body of the loop applied to its first j items. */
  lemma EpochAdvance<Id>(env: Env<Id>, start: EpochAcc, lr: real, j: nat, acc: EpochAcc)
    requires j < |env.feedback|
    requires EpochUpTo(env, start, lr, j) == Ok(acc)
    ensures |acc.weights| == |start.weights|
    ensures EpochUpTo(env, start, lr, j + 1) == SampleStep(env, acc, lr, j)
  {
  }

  /** The four outcomes of an item that is not skipped. */
  lemma SampleCases<Id>(env: Env<Id>, acc: EpochAcc, lr: real, k: int)
    requires 0 <= k < |env.feedback| && !Skipped(env, k)
    ensures env.vectors(env.feedback[k].0).None? ==> SampleStep(env, acc, lr, k) == Err(Missing(env.source))
    ensures env.vectors(env.feedback[k].0).Some? && TargetAt(env, k).Err? ==>
      SampleStep(env, acc, lr, k) == Err(TargetAt(env, k).error)
    ensures env.vectors(env.feedback[k].0).Some? && TargetAt(env, k).Ok? ==>
      var t := env.vectors(env.feedback[k].0).value;
      (|env.originVec| != |acc.weights| || |t| != |acc.weights| ==> SampleStep(env, acc, lr, k) == Err(ValueError)) &&
      (|env.originVec| == |acc.weights| == |t| ==> SampleStep(env, acc, lr, k) == Ok(Train(env, acc, lr, t, TargetAt(env, k).value)))
  {
  }

  /**
   * The inner loop of one epoch, `for idx, (track_id, rating) in enumerate(feedback.items())`,
   * with the weights and the rate the epoch starts from.
   */
  method TrainEpoch<Id(==)>(env: Env<Id>, weights: seq<real>, trained: bool, learningRate: real)
    returns (r: Result<EpochAcc>)
    ensures r == EpochUpTo(env, EpochAcc(weights, trained, 0.0), learningRate, |env.feedback|)
  {
    ghost var start := EpochAcc(weights, trained, 0.0);
    var w := weights;
    var tr := trained;
    var totalLoss := 0.0;
    var idx := 0;
    while idx < |env.feedback|
      invariant idx <= |env.feedback| && |w| == |weights|
      invariant EpochUpTo(env, start, learningRate, idx) == Ok(EpochAcc(w, tr, totalLoss))
    {
      EpochAdvance(env, start, learningRate, idx, EpochAcc(w, tr, totalLoss));
      var step := TrainSample(env, EpochAcc(w, tr, totalLoss), learningRate, idx);
      if step.Err? {
        EpochUpToErrStable(env, start, learningRate, idx + 1, |env.feedback|);
        return Err(step.error);
      }
      w, tr, totalLoss := step.value.weights, step.value.trained, step.value.loss;
      idx := idx + 1;
    }
    return Ok(EpochAcc(w, tr, totalLoss));
  }

  /**
   * The body of the inner loop for item `idx`: the origin and items rated -1 are skipped;
   * otherwise the track's vector and target are looked up and one gradient step is taken.
   */
  method TrainSample<Id(==)>(env: Env<Id>, acc: EpochAcc, learningRate: real, idx: nat) returns (r: Result<EpochAcc>)
    requires idx < |env.feedback|
    ensures r == SampleStep(env, acc, learningRate, idx)
  {
    var (trackId, rating) := env.feedback[idx];
    if trackId == env.origin || IsMinusOne(rating) {
      return Ok(acc);
    }
    SampleCases(env, acc, learningRate, idx);
    var found := env.vectors(trackId);
    if found.None? {
      return Err(Missing(env.source));
    }
    var trackVector := found.value;
    var target := TargetAt(env, idx);
    if target.Err? {
      return Err(target.error);
    }
    if |env.originVec| != |acc.weights| || |trackVector| != |acc.weights| {
      return Err(ValueError);
    }
    r := Ok(Train(env, acc, learningRate, trackVector, target.value));
  }

  /** A run that has not stopped advances by one epoch through `AfterEpoch`, or fails with the epoch. */
  lemma RunStep<Id>(env: Env<Id>, w: seq<real>, lr: real, patience: int, e: nat, s: TrainState)
    requires Run(env, Initial(w, lr), patience, e) == Ok(s) && !s.stopped
    ensures |s.weights| == |w|
    ensures EpochOf(env, s).Ok? ==>
      Run(env, Initial(w, lr), patience, e + 1) == Ok(AfterEpoch(s, EpochOf(env, s).value, patience))
    ensures EpochOf(env, s).Err? ==> Run(env, Initial(w, lr), patience, e + 1) == Err(EpochOf(env, s).error)
  {
  }

  /**
   * `train_feature_weights_curses`: the epoch loop with early stopping and learning-rate
   * decay over the rated neighbours; it returns exactly the outcome `CursesOutcome` specifies.
   */
  method TrainFeatureWeightsCurses(similarTracks: seq<SN.Neighbor>, feedback: seq<(int, int)>, origin: int,
                                   configWeights: seq<real>, features: int -> Option<seq<real>>, sqrt: real -> real,
                                   initialLearningRate: real, maxEpochs: int, patience: int)
    returns (r: Result<seq<real>>)
    ensures r == CursesOutcome(similarTracks, feedback, origin, configWeights, features, sqrt,
                               initialLearningRate, maxEpochs, patience)
  {
    var originVector := features(origin);
    if originVector.None? {
      return Err(TypeError);
    }
    var env := CursesEnv(similarTracks, feedback, origin, originVector.value, features, sqrt);
    var weights := configWeights;
    var trained := false;
    var best := Infinity;
    var counter: nat := 0;
    var learningRate := initialLearningRate;
    ghost var state := Initial(configWeights, initialLearningRate);
    var epochs: nat := if maxEpochs < 0 then 0 else maxEpochs;
    var epoch: nat := 0;
    while epoch < epochs
      invariant epoch <= epochs
      invariant Run(env, Initial(configWeights, initialLearningRate), patience, epoch) == Ok(state)
      invariant state.weights == weights && state.trained == trained && state.best == best
      invariant state.counter == counter && state.lr == learningRate && !state.stopped
    {
      RunStep(env, configWeights, initialLearningRate, patience, epoch, state);
      var acc := TrainEpoch(env, weights, trained, learningRate);
      if acc.Err? {
        RunStable(env, configWeights, initialLearningRate, patience, epoch + 1, epochs);
        return Err(acc.error);
      }
      var stop, halved;
      best, counter, learningRate, stop, halved := EndEpoch(state, acc.value, acc.value.loss, best, counter, learningRate, patience);
      weights, trained := acc.value.weights, acc.value.trained;
      state := AfterEpoch(state, acc.value, patience);
      epoch := epoch + 1;
      if stop {
        RunStable(env, configWeights, initialLearningRate, patience, epoch, epochs);
        break;
      }
    }
    if !trained {
      return Err(AttributeError);
    }
    return Ok(weights);
  }
}
