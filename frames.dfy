// The frame generator of the terminal audio visualiser (application/player/test2.py): the
// samples are scaled down, averaged in groups of `step`, and the averages are handed out
// `width` at a time as the bar heights of one frame.
module Frames {
  import opened Wrappers
  import PyArith

  // ---------------------------------------------------------------------------
  // Integer helpers

  lemma MulMono(a: int, b: int, t: int)
    requires a <= b && t >= 0
    ensures a * t <= b * t
  {
    assert b * t == a * t + (b - a) * t;
  }

  /** Quotient and remainder are unique: the Euclidean ones are the only pair with 0 <= r < s. */
  lemma DivUnique(n: int, s: int, q: int, r: int)
    requires s > 0 && n == q * s + r && 0 <= r < s
    ensures n / s == q && n % s == r
  {
    var q0 := n / s;
    var r0 := n % s;
    assert n == q0 * s + r0;
    if q0 < q {
      MulMono(q0 + 1, q, s);
    } else if q < q0 {
      MulMono(q + 1, q0, s);
    }
  }

  /** The samples of the group still open after `n` samples: n % step, counted group by group. */
  function Pending(n: nat, step: nat): (p: nat)
    requires step > 0
    ensures p <= n && p < step
  {
    if n < step then n else Pending(n - step, step)
  }

  /** The groups completed after `n` samples: n // step, counted group by group. */
  function Complete(n: nat, step: nat): nat
    requires step > 0
  {
    if n < step then 0 else Complete(n - step, step) + 1
  }

  /** Counting group by group agrees with the remainder and quotient. */
  lemma {:induction false} PendingComplete(n: nat, step: nat)
    requires step > 0
    ensures Pending(n, step) == n % step && Complete(n, step) == n / step
  {
    if n >= step {
      PendingComplete(n - step, step);
      assert n - step == (n - step) / step * step + (n - step) % step;
      assert n == ((n - step) / step + 1) * step + (n - step) % step;
      DivUnique(n, step, (n - step) / step + 1, (n - step) % step);
    } else {
      DivUnique(n, step, 0, n);
    }
  }

  /** One more sample: the open group grows, or it completes, is counted and a new one starts. */
  lemma {:induction false} PendingStep(n: nat, step: nat)
    requires step > 0 && n > 0
    ensures var p := Pending(n - 1, step);
      Pending(n, step) == (if p + 1 == step then 0 else p + 1) &&
      Complete(n, step) == Complete(n - 1, step) + (if p + 1 == step then 1 else 0)
  {
    if n > step {
      PendingStep(n - step, step);
    }
  }

  /** Groups of `s` gathered `w` at a time: n // s // w == n // (s * w). */
  lemma DivDiv(n: nat, s: int, w: int)
    requires s > 0 && w > 0
    ensures n / s / w == n / (s * w)
  {
    var q1 := n / s;
    var r1 := n % s;
    var q2 := q1 / w;
    var r2 := q1 % w;
    assert n == q1 * s + r1;
    assert q1 == q2 * w + r2;
    assert q1 * s == q2 * (s * w) + r2 * s by {
      assert q1 * s == (q2 * w + r2) * s;
      assert (q2 * w + r2) * s == q2 * w * s + r2 * s;
      assert q2 * w * s == q2 * (s * w);
    }
    MulMono(r2, w - 1, s);
    assert (w - 1) * s == s * w - s;
    DivUnique(n, s * w, q2, r2 * s + r1);
  }

  // ---------------------------------------------------------------------------
  // graph_frames_from_audio

  /** What one sample adds to the running sum: `int(abs(x) // divisor)`. */
  function Contribution(x: real, divisor: real): int
    requires divisor != 0.0
  {
    PyArith.FloorDivReal(if x < 0.0 then -x else x, divisor)
  }

  function Contributions(data: seq<real>, divisor: real): (cs: seq<int>)
    requires divisor != 0.0
    ensures |cs| == |data|
    ensures forall i :: 0 <= i < |data| ==> cs[i] == Contribution(data[i], divisor)
  {
    seq(|data|, i requires 0 <= i < |data| => Contribution(data[i], divisor))
  }

  /** The value a complete group of `count` samples adds to the frame: `math.ceil(current_sum / point)`. */
  function GroupMean(sum: int, count: int): real
    requires count != 0
  {
    PyArith.Ceil(sum as real / count as real) as real
  }

  /** The generator's locals between two samples: `point`, `current_sum`, `current_frame`, and the frames yielded so far. */
  datatype Gen = Gen(point: int, sum: int, frame: seq<real>, out: seq<seq<real>>)

  /**
   * One turn of the sample loop on a sample worth `c`: add it, close the group after `step`
   * samples with the ceiling of its mean, and yield the frame once it has `width` values.
   */
  function Feed(g: Gen, c: int, step: int, width: int): Gen
    requires g.point >= 0
  {
    var sum := g.sum + c;
    var point := g.point + 1;
    var full := point == step;
    var frame := if full then g.frame + [GroupMean(sum, point)] else g.frame;
    var point' := if full then 0 else point;
    var sum' := if full then 0 else sum;
    if |frame| == width then Gen(point', sum', [], g.out + [frame]) else Gen(point', sum', frame, g.out)
  }

  /** The loop over the sample contributions `cs`; the sum is empty exactly when no group is open. */
  function Run(cs: seq<int>, step: int, width: int): (g: Gen)
    ensures g.point >= 0 && (g.point == 0 ==> g.sum == 0)
  {
    if cs == [] then Gen(0, 0, [], [])
    else Feed(Run(cs[..|cs| - 1], step, width), cs[|cs| - 1], step, width)
  }

  /** After the loop: a pending frame is yielded; otherwise an open group with a non-zero sum is yielded as its mean. */
  function Finish(g: Gen): seq<seq<real>>
    requires g.point >= 0 && (g.point == 0 ==> g.sum == 0)
  {
    if g.frame != [] then g.out + [g.frame]
    else if g.sum != 0 then g.out + [[g.sum as real / g.point as real]]
    else g.out
  }

  /** Every frame `graph_frames_from_audio(data, step, width, divisor)` yields, in order. */
  function GraphFrames(data: seq<real>, step: int, width: int, divisor: real): Result<seq<seq<real>>>
  {
    if data == [] then Ok([])
    else if divisor == 0.0 then Err(ZeroDivisionError)
    else Ok(Finish(Run(Contributions(data, divisor), step, width)))
  }

  /** The generator, run to exhaustion. */
  method GraphFramesFromAudio(data: seq<real>, step: int, width: int, divisor: real)
    returns (r: Result<seq<seq<real>>>)
    ensures r == GraphFrames(data, step, width, divisor)
  {
    var point := 0;
    var currentSum := 0;
    var currentFrame: seq<real> := [];
    var frames: seq<seq<real>> := [];
    for i := 0 to |data|
      invariant point >= 0 && (point == 0 ==> currentSum == 0)
      invariant divisor == 0.0 ==> i == 0 && Gen(point, currentSum, currentFrame, frames) == Gen(0, 0, [], [])
      invariant divisor != 0.0 ==>
        Gen(point, currentSum, currentFrame, frames) == Run(Contributions(data, divisor)[..i], step, width)
    {
      if divisor == 0.0 {
        return Err(ZeroDivisionError);
      }
      ghost var cs := Contributions(data, divisor);
      assert cs[..i + 1][..i] == cs[..i];
      var x := data[i];
      currentSum := currentSum + PyArith.FloorDivReal(if x < 0.0 then -x else x, divisor);
      point := point + 1;
      if point == step {
        currentFrame := currentFrame + [GroupMean(currentSum, point)];
        point := 0;
        currentSum := 0;
      }
      if |currentFrame| == width {
        frames := frames + [currentFrame];
        currentFrame := [];
      }
    }
    if data != [] {
      assert Contributions(data, divisor)[..|data|] == Contributions(data, divisor);
    }
    if currentFrame != [] {
      frames := frames + [currentFrame];
    } else if currentSum != 0 {
      frames := frames + [[currentSum as real / point as real]];
    }
    return Ok(frames);
  }

  // ---------------------------------------------------------------------------
  // What the frames hold

  function Sum(cs: seq<int>): int
  {
    if cs == [] then 0 else Sum(cs[..|cs| - 1]) + cs[|cs| - 1]
  }

  /** The frames one after another. */
  function Flatten(frames: seq<seq<real>>): seq<real>
  {
    if frames == [] then [] else Flatten(frames[..|frames| - 1]) + frames[|frames| - 1]
  }

  /**
   * The reference definition: one value for each complete group of `step` samples, in order,
   * the ceiling of the mean of the group's contributions.
   */
  function Values(cs: seq<int>, step: int): seq<real>
    requires step > 0
  {
    if cs == [] then []
    else
      var n := |cs|;
      Values(cs[..n - 1], step) + (if Pending(n, step) == 0 then [GroupMean(Sum(cs[n - step..]), step)] else [])
  }

  lemma SumAppend(s: seq<int>, x: int)
    ensures Sum(s + [x]) == Sum(s) + x
  {
    assert (s + [x])[..|s|] == s;
  }

  lemma FlattenAppend(frames: seq<seq<real>>, f: seq<real>)
    ensures Flatten(frames + [f]) == Flatten(frames) + f
  {
    assert (frames + [f])[..|frames|] == frames;
  }

  /** There are as many values as complete groups. */
  lemma {:induction false} ValuesLength(cs: seq<int>, step: int)
    requires step > 0
    ensures |Values(cs, step)| == Complete(|cs|, step)
  {
    if cs != [] {
      ValuesLength(cs[..|cs| - 1], step);
      PendingStep(|cs|, step);
    }
  }

  /** Frames of `w` values each hold `w` times as many values together. */
  lemma {:induction false} FlattenLength(frames: seq<seq<real>>, w: int)
    requires forall k :: 0 <= k < |frames| ==> |frames[k]| == w
    ensures |Flatten(frames)| == |frames| * w
  {
    if frames != [] {
      FlattenLength(frames[..|frames| - 1], w);
      assert (|frames| - 1) * w + w == |frames| * w;
    }
  }

  /** The loop's state after the samples `cs`, stated through the reference definition. */
  predicate Tracks(g: Gen, cs: seq<int>, step: int, width: int)
    requires step > 0
  {
    g.point == Pending(|cs|, step) && g.sum == Sum(cs[|cs| - g.point..]) && |g.frame| < width &&
    (forall k :: 0 <= k < |g.out| ==> |g.out[k]| == width) &&
    Flatten(g.out) + g.frame == Values(cs, step)
  }

  /** The values after one more sample: a new one exactly when it completes a group. */
  lemma ValuesAppend(cs: seq<int>, c: int, step: int)
    requires step > 0
    ensures var n := |cs| + 1;
      Values(cs + [c], step) ==
        Values(cs, step) + (if Pending(n, step) == 0 then [GroupMean(Sum((cs + [c])[n - step..]), step)] else [])
  {
    assert (cs + [c])[..|cs|] == cs;
  }

  /** A sample that leaves its group open adds to the sum and changes no frame. */
  lemma FeedOpen(cs: seq<int>, c: int, step: int, width: int, g: Gen)
    requires step > 0 && width > 0 && g.point >= 0 && g.point + 1 != step
    requires Tracks(g, cs, step, width)
    ensures Tracks(Feed(g, c, step, width), cs + [c], step, width)
  {
    var n := |cs| + 1;
    var s := cs + [c];
    PendingStep(n, step);
    var open := cs[n - 1 - g.point..];
    assert s[n - 1 - g.point..] == open + [c];
    SumAppend(open, c);
    ValuesAppend(cs, c, step);
    assert Feed(g, c, step, width) == Gen(g.point + 1, g.sum + c, g.frame, g.out);
  }

  /** The sample that completes a group adds the group's mean to the values. */
  lemma CloseValues(cs: seq<int>, c: int, step: int, before: seq<real>, sum: int)
    requires step > 0 && |cs| + 1 >= step && Pending(|cs| + 1, step) == 0
    requires before == Values(cs, step) && sum == Sum(cs[|cs| + 1 - step..])
    ensures Values(cs + [c], step) == before + [GroupMean(sum + c, step)]
  {
    var n := |cs| + 1;
    var s := cs + [c];
    assert s[n - step..] == cs[n - step..] + [c];
    SumAppend(cs[n - step..], c);
    ValuesAppend(cs, c, step);
  }

  /** A full frame joins the yielded frames: every yielded frame is full, and the values are kept. */
  lemma YieldFrame(out: seq<seq<real>>, frame: seq<real>, width: int)
    requires |frame| == width && forall k :: 0 <= k < |out| ==> |out[k]| == width
    ensures forall k :: 0 <= k < |out + [frame]| ==> |(out + [frame])[k]| == width
    ensures Flatten(out + [frame]) + [] == Flatten(out) + frame
  {
    FlattenAppend(out, frame);
    forall k | 0 <= k < |out + [frame]|
      ensures |(out + [frame])[k]| == width
    {
      if k < |out| {
        assert (out + [frame])[k] == out[k];
      }
    }
  }

  /** A sample that completes its group appends the group's value to the frame, which is yielded once full. */
  lemma FeedClose(cs: seq<int>, c: int, step: int, width: int, g: Gen)
    requires step > 0 && width > 0 && g.point >= 0 && g.point + 1 == step
    requires Tracks(g, cs, step, width)
    ensures Tracks(Feed(g, c, step, width), cs + [c], step, width)
  {
    var n := |cs| + 1;
    PendingStep(n, step);
    CloseValues(cs, c, step, Flatten(g.out) + g.frame, g.sum);
    var frame := g.frame + [GroupMean(g.sum + c, step)];
    assert Values(cs + [c], step) == Flatten(g.out) + frame;
    if |frame| == width {
      YieldFrame(g.out, frame, width);
      assert Feed(g, c, step, width) == Gen(0, 0, [], g.out + [frame]);
    } else {
      assert Feed(g, c, step, width) == Gen(0, 0, frame, g.out);
    }
  }

  /** The loop keeps its state in step with the reference definition throughout. */
  lemma {:induction false} RunTracks(cs: seq<int>, step: int, width: int)
    requires step > 0 && width > 0
    ensures Tracks(Run(cs, step, width), cs, step, width)
  {
    if cs != [] {
      var pre := cs[..|cs| - 1];
      RunTracks(pre, step, width);
      assert cs == pre + [cs[|cs| - 1]];
      var g := Run(pre, step, width);
      if g.point + 1 == step {
        FeedClose(pre, cs[|cs| - 1], step, width, g);
      } else {
        FeedOpen(pre, cs[|cs| - 1], step, width, g);
      }
    }
  }

  /** The full frames of the loop's state, and the values still pending in its current frame. */
  lemma GenCounts(g: Gen, cs: seq<int>, step: int, width: int)
    requires step > 0 && width > 0 && Tracks(g, cs, step, width)
    ensures |g.out| == |cs| / (step * width)
    ensures |g.frame| == |Values(cs, step)| % width
  {
    FlattenLength(g.out, width);
    ValuesLength(cs, step);
    PendingComplete(|cs|, step);
    DivUnique(|Values(cs, step)|, width, |g.out|, |g.frame|);
    DivDiv(|cs|, step, width);
  }

  /**
   * With a positive `step` and `width`, the first len(data) // (step * width) frames are full
   * frames of `width` values, and at most one shorter frame follows.
   */
  lemma GraphFramesShape(data: seq<real>, step: int, width: int, divisor: real)
    requires step > 0 && width > 0 && divisor != 0.0
    ensures GraphFrames(data, step, width, divisor).Ok?
    ensures var r := GraphFrames(data, step, width, divisor).value;
      var full := |data| / (step * width);
      full <= |r| <= full + 1 && forall k :: 0 <= k < full ==> |r[k]| == width
  {
    if data != [] {
      var cs := Contributions(data, divisor);
      RunTracks(cs, step, width);
      GenCounts(Run(cs, step, width), cs, step, width);
    } else {
      assert |data| / (step * width) == 0;
    }
  }

  /** What the frames hold after the loop, in terms of its final state. */
  lemma FinishFlatten(g: Gen, cs: seq<int>, step: int, width: int)
    requires step > 0 && width > 0 && Tracks(g, cs, step, width) && g.point >= 0 && (g.point == 0 ==> g.sum == 0)
    ensures Flatten(Finish(g)) ==
      Values(cs, step) + (if g.frame == [] && g.sum != 0 then [g.sum as real / g.point as real] else [])
  {
    if g.frame != [] {
      FlattenAppend(g.out, g.frame);
    } else if g.sum != 0 {
      FlattenAppend(g.out, [g.sum as real / g.point as real]);
    }
  }

  /**
   * The mean of the incomplete last group, yielded after the frames only when it is non-zero
   * and no partial frame was pending; empty otherwise.
   */
  function Leftover(cs: seq<int>, step: int, width: int): seq<real>
    requires step > 0 && width > 0
  {
    var n := |cs|;
    var rest := Sum(cs[n - n % step..]);
    if |Values(cs, step)| % width == 0 && n % step != 0 && rest != 0 then [rest as real / (n % step) as real] else []
  }

  /** The leftover in terms of the loop's final state. */
  lemma LeftoverOfRun(cs: seq<int>, step: int, width: int)
    requires step > 0 && width > 0
    ensures var g := Run(cs, step, width);
      Leftover(cs, step, width) == if g.frame == [] && g.sum != 0 then [g.sum as real / g.point as real] else []
  {
    var g := Run(cs, step, width);
    var n := |cs|;
    RunTracks(cs, step, width);
    GenCounts(g, cs, step, width);
    PendingComplete(n, step);
    assert g.point == n % step;
    assert Sum(cs[n - n % step..]) == g.sum;
    assert (|Values(cs, step)| % width == 0) == (g.frame == []);
  }

  /**
   * Read one after another, the frames are the group values, followed by the leftover mean
   * of the incomplete last group when one is yielded.
   */
  lemma GraphFramesValues(data: seq<real>, step: int, width: int, divisor: real)
    requires step > 0 && width > 0 && divisor != 0.0
    ensures var cs := Contributions(data, divisor);
      Flatten(GraphFrames(data, step, width, divisor).value) == Values(cs, step) + Leftover(cs, step, width)
  {
    var cs := Contributions(data, divisor);
    if data != [] {
      RunTracks(cs, step, width);
      FinishFlatten(Run(cs, step, width), cs, step, width);
      LeftoverOfRun(cs, step, width);
    } else {
      assert cs == [] && |cs| % step == 0;
    }
  }

  /** A length that is a whole number of frames is a whole number of groups, and of frames of groups. */
  lemma WholeFrames(n: nat, step: int, width: int)
    requires step > 0 && width > 0 && n % (step * width) == 0
    ensures n % step == 0 && (n / step) % width == 0
  {
    var k := n / (step * width);
    assert n == k * (step * width);
    assert n == (k * width) * step;
    DivUnique(n, step, k * width, 0);
    DivUnique(k * width, width, k, 0);
  }

  /** When the samples fill whole frames, every frame is full and nothing follows them. */
  lemma GraphFramesExact(data: seq<real>, step: int, width: int, divisor: real)
    requires step > 0 && width > 0 && divisor != 0.0 && |data| % (step * width) == 0
    ensures var r := GraphFrames(data, step, width, divisor).value;
      |r| == |data| / (step * width) && forall k :: 0 <= k < |r| ==> |r[k]| == width
  {
    if data != [] {
      var cs := Contributions(data, divisor);
      var g := Run(cs, step, width);
      RunTracks(cs, step, width);
      GenCounts(g, cs, step, width);
      ValuesLength(cs, step);
      PendingComplete(|data|, step);
      WholeFrames(|data|, step, width);
      assert g.frame == [] && g.point == 0;
    } else {
      assert |data| / (step * width) == 0;
    }
  }

  // ---------------------------------------------------------------------------
  // calc_data_for_visualization

  /** The figures the visualiser plays a stream with. */
  datatype Visualization = Visualization(length: int, pointInterval: int, lastFrameLength: real, interval: real, divisor: real)

  /**
   * `calc_data_for_visualization(data, frame_rate, max_amp, width, fps, height)`: the samples
   * averaged into one bar, None when that comes to zero, the frame time and the scale divisor.
   */
  function CalcDataForVisualization(data: seq<real>, frameRate: int, maxAmp: real, width: int, fps: int, height: int)
    : (r: Result<Option<Visualization>>)
    ensures r.Err? <==> width * fps == 0 || (PyArith.FloorDiv(frameRate, width * fps) != 0 && height == 0)
    ensures r == Ok(None) <==> width * fps != 0 && PyArith.FloorDiv(frameRate, width * fps) == 0
    ensures r.Ok? && r.value.Some? ==>
      var v := r.value.value;
      v.length == |data| && v.pointInterval == PyArith.FloorDiv(frameRate, width * fps) && v.pointInterval != 0 &&
      v.interval * fps as real == 1.0 && v.divisor * height as real == maxAmp
  {
    if width * fps == 0 then Err(ZeroDivisionError)
    else
      var pointInterval := PyArith.FloorDiv(frameRate, width * fps);
      if pointInterval == 0 then Ok(None)
      else
        var frameMod := PyArith.FloorMod(|data|, pointInterval * width);
        var lastFrameLength := if frameMod != 0 then frameRate as real / frameMod as real else 1.0;
        if height == 0 then Err(ZeroDivisionError)
        else Ok(Some(Visualization(|data|, pointInterval, lastFrameLength, 1.0 / fps as real, maxAmp / height as real)))
  }

  /**
   * For a positive rate, width and fps the interval is the most samples per bar that keep
   * `fps` frames of `width` bars within one second of samples, and it is at least one.
   */
  lemma VisualizationInterval(data: seq<real>, frameRate: int, maxAmp: real, width: int, fps: int, height: int)
    requires frameRate >= 0 && width > 0 && fps > 0 && height != 0
    ensures var r := CalcDataForVisualization(data, frameRate, maxAmp, width, fps, height);
      r.Ok? && (r.value.Some? <==> frameRate >= width * fps) &&
      (r.value.Some? ==>
        var pi := r.value.value.pointInterval;
        pi >= 1 && pi * (width * fps) <= frameRate < (pi + 1) * (width * fps))
  {
    var wf := width * fps;
    assert wf > 0 by {
      MulMono(1, width, fps);
    }
    var pi := PyArith.FloorDiv(frameRate, wf);
    assert wf * pi <= frameRate < wf * pi + wf;
    assert pi * wf == wf * pi;
    assert (pi + 1) * wf == wf * pi + wf;
    if frameRate >= wf && pi < 1 {
      MulMono(pi, 0, wf);
    }
  }

  /**
   * With the interval computed for the stream, the frame generator yields len // (interval *
   * width) full frames, and nothing more when the length leaves no remainder.
   */
  lemma VisualizationFrames(data: seq<real>, frameRate: int, maxAmp: real, width: int, fps: int, height: int)
    requires frameRate >= 0 && width > 0 && fps > 0 && height != 0 && maxAmp != 0.0
    ensures var r := CalcDataForVisualization(data, frameRate, maxAmp, width, fps, height);
      r.Ok? && r.value.Some? ==>
        var v := r.value.value;
        var frames := GraphFrames(data, v.pointInterval, width, v.divisor);
        frames.Ok? &&
        (var full := v.length / (v.pointInterval * width);
         full <= |frames.value| <= full + 1 &&
         (v.length % (v.pointInterval * width) == 0 ==> |frames.value| == full))
  {
    var r := CalcDataForVisualization(data, frameRate, maxAmp, width, fps, height);
    VisualizationInterval(data, frameRate, maxAmp, width, fps, height);
    if r.Ok? && r.value.Some? {
      var v := r.value.value;
      assert v.divisor != 0.0;
      GraphFramesShape(data, v.pointInterval, width, v.divisor);
      if v.length % (v.pointInterval * width) == 0 {
        GraphFramesExact(data, v.pointInterval, width, v.divisor);
      }
    }
  }
}
