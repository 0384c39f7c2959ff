// The real-time spectrum visualiser: the key handlers that tune the chunk size,
// the timer interval and the frequency cut-offs, the advance of the read
// position through the samples, and the scaling of the band magnitudes into
// bar heights. The FFT itself (Hann window, rfft, logarithmic bands, square
// root) is numeric work outside the model: its band magnitudes are a parameter.
module Spectrum {
  import opened Wrappers
  import PyArith

  const DefaultChunk: int := 2048
  const MinChunk: int := 512
  const MaxChunk: int := 8192
  const MinInterval: real := 0.01
  const MaxInterval: real := 0.5
  const IntervalStep: real := 0.01
  /** The initial values of the module's cut-off globals, in Hz. */
  const InitialLowCutoff: int := 80
  const InitialHighCutoff: int := 10000
  const MinLowCutoff: int := 20
  const MaxHighCutoff: int := 20000
  const CutoffStep: int := 10
  /** The rows of a bar at full height. */
  const MaxHeight: int := 7

  /** The largest magnitude (Python's `max`). */
  function MaxOf(xs: seq<real>): (m: real)
    requires |xs| > 0
    ensures m in xs
    ensures forall i :: 0 <= i < |xs| ==> xs[i] <= m
  {
    if |xs| == 1 then xs[0]
    else
      var rest := MaxOf(xs[1..]);
      assert forall i :: 1 <= i < |xs| ==> xs[i] == xs[1..][i - 1];
      if xs[0] >= rest then xs[0] else rest
  }

  /** `max(xs) or 1`: the largest magnitude, or 1 when it is zero. */
  function Divisor(xs: seq<real>): (d: real)
    requires |xs| > 0
    ensures d != 0.0
  {
    var m := MaxOf(xs);
    if m == 0.0 then 1.0 else m
  }

  /** Every magnitude divided by the largest one; `max` of nothing raises. */
  function Normalized(xs: seq<real>): (r: Result<seq<real>>)
    ensures r.Err? <==> xs == []
    ensures r.Err? ==> r.error == ValueError
    ensures r.Ok? ==> |r.value| == |xs|
  {
    if xs == [] then Err(ValueError)
    else
      var d := Divisor(xs);
      Ok(seq(|xs|, i requires 0 <= i < |xs| => xs[i] / d))
  }

  predicate NonNegative(xs: seq<real>)
  {
    forall i :: 0 <= i < |xs| ==> 0.0 <= xs[i]
  }

  lemma DivAtMostOne(a: real, m: real)
    requires 0.0 <= a <= m && m > 0.0
    ensures 0.0 <= a / m <= 1.0
  {
    var q := a / m;
    assert q * m == a;
  }

  lemma DivSelf(m: real)
    requires m != 0.0
    ensures m / m == 1.0
  {
  }

  /** Each scaled magnitude is the magnitude over the divisor. */
  lemma NormalizedAt(xs: seq<real>, i: int)
    requires 0 <= i < |xs|
    ensures Normalized(xs).value[i] == xs[i] / Divisor(xs)
  {
  }

  /**
   * Non-negative magnitudes scale into [0, 1]: the largest ones become exactly 1,
   * and when all are zero they are left as they are.
   */
  lemma NormalizedBounds(xs: seq<real>)
    requires xs != [] && NonNegative(xs)
    ensures NonNegative(Normalized(xs).value)
    ensures forall i :: 0 <= i < |xs| ==> Normalized(xs).value[i] <= 1.0
    ensures MaxOf(xs) != 0.0 ==>
              forall i :: 0 <= i < |xs| && xs[i] == MaxOf(xs) ==> Normalized(xs).value[i] == 1.0
    ensures MaxOf(xs) == 0.0 ==> Normalized(xs).value == xs
  {
    var m := MaxOf(xs);
    var r := Normalized(xs).value;
    forall i | 0 <= i < |xs|
      ensures 0.0 <= r[i] <= 1.0
      ensures m != 0.0 && xs[i] == m ==> r[i] == 1.0
      ensures m == 0.0 ==> r[i] == xs[i]
    {
      NormalizedAt(xs, i);
      if m != 0.0 {
        DivAtMostOne(xs[i], m);
        assert Divisor(xs) == m;
        DivSelf(m);
      }
    }
  }

  /** The largest of magnitudes that are all at most `v`, one of them `v`, is `v`. */
  lemma MaxOfIs(xs: seq<real>, v: real)
    requires |xs| > 0 && v in xs && forall i :: 0 <= i < |xs| ==> xs[i] <= v
    ensures MaxOf(xs) == v
  {
  }

  /** Scaling scaled magnitudes again changes nothing: `update_bars` redoes what `update_fft` did. */
  lemma NormalizedIdempotent(xs: seq<real>)
    requires xs != [] && NonNegative(xs)
    ensures Normalized(Normalized(xs).value) == Normalized(xs)
  {
    var r := Normalized(xs).value;
    NormalizedBounds(xs);
    var m := MaxOf(xs);
    if m != 0.0 {
      var k :| 0 <= k < |xs| && xs[k] == m;
      assert r[k] == 1.0;
      MaxOfIs(r, 1.0);
    } else {
      assert r == xs;
    }
    assert Normalized(r).value == r;
  }

  /** The rows a bar of normalised magnitude `m` fills (`int(m * MAX_HEIGHT)`). */
  function BarRows(m: real): (h: int)
    ensures 0.0 <= m <= 1.0 ==> 0 <= h <= MaxHeight
    ensures m == 1.0 ==> h == MaxHeight
  {
    var h := PyArith.Trunc(m * MaxHeight as real);
    assert 0.0 <= m <= 1.0 ==> 0.0 <= m * MaxHeight as real <= MaxHeight as real;
    h
  }

  /** The bars after `update_bars`: the first ones, as far as there are magnitudes, show the new heights. */
  function Shown(bars: seq<Option<real>>, heights: seq<real>): (r: seq<Option<real>>)
    ensures |r| == |bars|
    ensures forall i :: 0 <= i < |bars| ==> r[i] == if i < |heights| then Some(heights[i]) else bars[i]
  {
    seq(|bars|, i requires 0 <= i < |bars| => if i < |heights| then Some(heights[i]) else bars[i])
  }

  /** `chunk_size` after a key press: "t" doubles it up to 8192, "r" halves it down to 512. */
  function ChunkAfter(key: string, chunk: int): (r: int)
    ensures key == "t" ==> r <= MaxChunk && (chunk <= MaxChunk / 2 ==> r == 2 * chunk)
    ensures key == "r" ==> r >= MinChunk && (chunk >= 2 * MinChunk ==> 2 * r <= chunk < 2 * r + 2)
    ensures key != "t" && key != "r" ==> r == chunk
  {
    if key == "t" then (if chunk * 2 < MaxChunk then chunk * 2 else MaxChunk)
    else if key == "r" then (var half := PyArith.FloorDiv(chunk, 2); if half > MinChunk then half else MinChunk)
    else chunk
  }

  /** `update_interval` after a key press: "f" shortens it down to 0.01, "s" lengthens it up to 0.5. */
  function IntervalAfter(key: string, interval: real): (r: real)
    ensures key == "f" ==> r >= MinInterval && (interval >= MinInterval + IntervalStep ==> r == interval - IntervalStep)
    ensures key == "s" ==> r <= MaxInterval && (interval <= MaxInterval - IntervalStep ==> r == interval + IntervalStep)
    ensures key != "f" && key != "s" ==> r == interval
  {
    if key == "f" then (if interval - IntervalStep > MinInterval then interval - IntervalStep else MinInterval)
    else if key == "s" then (if interval + IntervalStep < MaxInterval then interval + IntervalStep else MaxInterval)
    else interval
  }

  /**
   * The cut-offs `(LOW_CUTOFF, HIGH_CUTOFF)` after a key press: "j"/"k" move the
   * low one down/up by 10 Hz, "u"/"i" the high one; each stops at its bound.
   */
  function CutoffsAfter(key: string, low: int, high: int): (r: (int, int))
    ensures key == "j" ==> r == (if low - CutoffStep > MinLowCutoff then low - CutoffStep else MinLowCutoff, high)
    ensures key == "k" ==> r.1 == high && r.0 <= high - CutoffStep
    ensures key == "u" ==> r.0 == low && r.1 >= low + CutoffStep
    ensures key == "i" ==> r.0 == low && r.1 <= MaxHighCutoff
    ensures key !in {"j", "k", "u", "i"} ==> r == (low, high)
  {
    if key == "j" then (if low - CutoffStep > MinLowCutoff then low - CutoffStep else MinLowCutoff, high)
    else if key == "k" then (if low + CutoffStep < high - CutoffStep then low + CutoffStep else high - CutoffStep, high)
    else if key == "u" then (low, if high - CutoffStep > low + CutoffStep then high - CutoffStep else low + CutoffStep)
    else if key == "i" then (low, if high + CutoffStep < MaxHighCutoff then high + CutoffStep else MaxHighCutoff)
    else (low, high)
  }

  /** The ranges the handlers are meant to keep. */
  predicate InRange(chunk: int, interval: real, low: int, high: int)
  {
    MinChunk <= chunk <= MaxChunk && MinInterval <= interval <= MaxInterval &&
    MinLowCutoff <= low <= high - CutoffStep && high <= MaxHighCutoff
  }

  /** Every key press keeps the chunk size, the interval and the cut-offs in range. */
  lemma KeysKeepRanges(key: string, chunk: int, interval: real, low: int, high: int)
    requires InRange(chunk, interval, low, high)
    ensures var c := CutoffsAfter(key, low, high);
            InRange(ChunkAfter(key, chunk), IntervalAfter(key, interval), c.0, c.1)
  {
  }

  /** The defaults are in range: the 8096-sample chunk and the 0.01 s interval with 80..10000 Hz. */
  lemma DefaultsInRange()
    ensures InRange(8096, 0.01, InitialLowCutoff, InitialHighCutoff)
  {
  }

  /** The bar widgets of `FFTVisualizer`. */
  class Visualizer {
    var fftData: seq<real>
    var barCount: int
    var updateInterval: real
    var chunkSize: int
    /** The normalised height each bar was last set to; `None` before its first update. */
    var bars: seq<Option<real>>

    constructor (fftData: seq<real>, barCount: int, updateInterval: real, chunkSize: int)
      ensures this.fftData == fftData && this.barCount == barCount && this.bars == []
      ensures this.updateInterval == updateInterval && this.chunkSize == chunkSize
    {
      this.fftData := fftData;
      this.barCount := barCount;
      this.updateInterval := updateInterval;
      this.chunkSize := chunkSize;
      bars := [];
    }

    /** `on_mount`: one bar per band, none yet drawn. */
    method OnMount()
      modifies this`bars
      ensures |bars| == (if barCount > 0 then barCount else 0)
      ensures forall i :: 0 <= i < |bars| ==> bars[i] == None
    {
      bars := seq(if barCount > 0 then barCount else 0, _ => None);
    }

    /**
     * `update_bars`: each bar paired with a magnitude is set to that magnitude
     * over the largest one; no magnitudes at all raise.
     */
    method UpdateBars() returns (r: Result<()>)
      modifies this`bars
      ensures r.Err? <==> fftData == []
      ensures r.Err? ==> bars == old(bars)
      ensures r.Ok? ==> bars == Shown(old(bars), Normalized(fftData).value)
    {
      if fftData == [] {
        return Err(ValueError);
      }
      var maxMagnitude := Divisor(fftData);
      ghost var heights := Normalized(fftData).value;
      var i := 0;
      while i < |bars| && i < |fftData|
        invariant 0 <= i <= |bars|
        invariant i <= |fftData|
        invariant |bars| == |old(bars)|
        invariant forall j :: 0 <= j < i ==> bars[j] == Some(heights[j])
        invariant forall j :: i <= j < |bars| ==> bars[j] == old(bars)[j]
      {
        bars := bars[i := Some(fftData[i] / maxMagnitude)];
        i := i + 1;
      }
      r := Ok(());
    }
  }

  /** The samples are there and a whole chunk is left from the read position. */
  predicate ChunkAvailable(audio: Option<seq<int>>, position: int, chunk: int)
  {
    audio.Some? && position + chunk <= |audio.value|
  }

  /** `AudioVisualizerApp`, with the module's cut-off globals as two of its fields. */
  class Analyzer {
    var updateInterval: real
    var chunkSize: int
    var fftData: seq<real>
    var audioData: Option<seq<int>>
    /** The interval of the running timer; `None` before `on_mount`. */
    var timerInterval: Option<real>
    var currentPosition: int
    var lowCutoff: int
    var highCutoff: int

    ghost predicate Valid()
      reads this
    {
      InRange(chunkSize, updateInterval, lowCutoff, highCutoff)
    }

    constructor (updateInterval: real, chunkSize: int)
      requires chunkSize >= 0
      ensures this.updateInterval == updateInterval && this.chunkSize == chunkSize
      ensures |fftData| == chunkSize / 2 && forall i :: 0 <= i < |fftData| ==> fftData[i] == 0.0
      ensures audioData == None && timerInterval == None && currentPosition == 0
      ensures lowCutoff == InitialLowCutoff && highCutoff == InitialHighCutoff
      ensures MinChunk <= chunkSize <= MaxChunk && MinInterval <= updateInterval <= MaxInterval ==> Valid()
    {
      this.updateInterval := updateInterval;
      this.chunkSize := chunkSize;
      fftData := seq(chunkSize / 2, _ => 0.0);
      audioData := None;
      timerInterval := None;
      currentPosition := 0;
      lowCutoff := InitialLowCutoff;
      highCutoff := InitialHighCutoff;
    }

    /** `on_mount`: the decoded samples (`None` when loading failed) and a timer at the current interval. */
    method OnMount(samples: Option<seq<int>>)
      modifies this`audioData, this`timerInterval
      ensures audioData == samples && timerInterval == Some(updateInterval)
    {
      audioData := samples;
      timerInterval := Some(updateInterval);
    }

    /** `on_key`: the tuning keys; the interval keys also restart the timer. */
    method OnKey(key: string)
      modifies this`chunkSize, this`updateInterval, this`timerInterval, this`lowCutoff, this`highCutoff
      ensures chunkSize == ChunkAfter(key, old(chunkSize))
      ensures updateInterval == IntervalAfter(key, old(updateInterval))
      ensures (lowCutoff, highCutoff) == CutoffsAfter(key, old(lowCutoff), old(highCutoff))
      ensures timerInterval == if key in {"f", "s"} then Some(updateInterval) else old(timerInterval)
      ensures old(Valid()) ==> Valid()
    {
      if Valid() {
        KeysKeepRanges(key, chunkSize, updateInterval, lowCutoff, highCutoff);
      }
      if key == "t" || key == "r" {
        chunkSize := ChunkAfter(key, chunkSize);
      } else if key == "f" || key == "s" {
        updateInterval := IntervalAfter(key, updateInterval);
        timerInterval := Some(updateInterval);
      } else if key in {"j", "k", "u", "i"} {
        var cutoffs := CutoffsAfter(key, lowCutoff, highCutoff);
        lowCutoff, highCutoff := cutoffs.0, cutoffs.1;
      }
    }

    /**
     * `update_fft`: without samples or a whole chunk left nothing happens;
     * otherwise the chunk's band magnitudes (`bands`) are normalised, the read
     * position moves on by half a chunk, and the visualiser redraws its bars.
     * The result says whether a chunk was consumed.
     */
    method UpdateFft(view: Visualizer, bands: seq<real>) returns (r: Result<bool>)
      modifies this`fftData, this`currentPosition
      modifies view`fftData, view`updateInterval, view`chunkSize, view`bars
      ensures !ChunkAvailable(old(audioData), old(currentPosition), old(chunkSize)) ==>
                r == Ok(false) && fftData == old(fftData) && currentPosition == old(currentPosition) &&
                view.bars == old(view.bars) && view.fftData == old(view.fftData)
      ensures ChunkAvailable(old(audioData), old(currentPosition), old(chunkSize)) && bands == [] ==>
                r == Err(ValueError) && fftData == old(fftData) && currentPosition == old(currentPosition) &&
                view.bars == old(view.bars)
      ensures ChunkAvailable(old(audioData), old(currentPosition), old(chunkSize)) && bands != [] ==>
                r == Ok(true) && fftData == Normalized(bands).value &&
                currentPosition == old(currentPosition) + PyArith.FloorDiv(chunkSize, 2) &&
                view.fftData == fftData && view.chunkSize == chunkSize && view.updateInterval == updateInterval &&
                view.bars == Shown(old(view.bars), Normalized(fftData).value)
    {
      if !ChunkAvailable(audioData, currentPosition, chunkSize) {
        return Ok(false);
      }
      var normalized := Normalized(bands);
      if normalized.Err? {
        return Err(normalized.error);
      }
      fftData := normalized.value;
      currentPosition := currentPosition + PyArith.FloorDiv(chunkSize, 2);
      view.fftData := fftData;
      view.updateInterval := updateInterval;
      view.chunkSize := chunkSize;
      var drawn := view.UpdateBars();
      r := Ok(true);
    }
  }

  /**
   * A consumed chunk lay within the samples, and with a chunk of at least two
   * samples the read position strictly advances.
   */
  lemma UpdateAdvances(audio: Option<seq<int>>, position: int, chunk: int)
    requires ChunkAvailable(audio, position, chunk) && chunk >= 2
    ensures position + chunk <= |audio.value|
    ensures position < position + PyArith.FloorDiv(chunk, 2) < position + chunk
  {
  }

  /** After an update on non-negative bands, every redrawn bar is the magnitude's share of the maximum, in [0, 1]. */
  lemma RedrawnBarsInRange(bars: seq<Option<real>>, bands: seq<real>)
    requires bands != [] && NonNegative(bands)
    ensures var shown := Shown(bars, Normalized(Normalized(bands).value).value);
            forall i :: 0 <= i < |bars| && i < |bands| ==>
              shown[i] == Some(Normalized(bands).value[i]) && 0.0 <= shown[i].value <= 1.0 &&
              0 <= BarRows(shown[i].value) <= MaxHeight
  {
    NormalizedIdempotent(bands);
    NormalizedBounds(bands);
  }
}
