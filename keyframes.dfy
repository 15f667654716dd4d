/**
 * Keyframe sampling of detect-faces: the frame indices
 * list(range(0, total_frames, max(1, interval)))[:15], where interval is
 * int(fps * 2), about one frame every two seconds.
 */
module Keyframes {

  const MaxKeyframes: nat := 15

  /** Python's range(start, stop, step) for a positive step. */
  function RangeStep(start: int, stop: int, step: int): seq<int>
    requires step >= 1
    decreases stop - start
  {
    if start >= stop then [] else [start] + RangeStep(start + step, stop, step)
  }

  /** s[:n] */
  function Take(s: seq<int>, n: nat): seq<int>
  {
    if |s| <= n then s else s[..n]
  }

  /** max(1, interval) */
  function Step(interval: int): int
  {
    if interval >= 1 then interval else 1
  }

  function SampleIndices(interval: int, totalFrames: int): seq<int>
  {
    Take(RangeStep(0, totalFrames, Step(interval)), MaxKeyframes)
  }

  lemma MulStep(k: nat, step: int)
    requires k >= 1
    ensures (k - 1) * step + step == k * step
  {
  }

  lemma MulSucc(k: int, step: int)
    ensures k * step + step == (k + 1) * step
  {
  }

  /**
   * range(start, stop, step) holds start, start + step, ... : every element
   * is below stop, and the first value it leaves out is at or beyond stop.
   */
  lemma {:induction false} RangeStepSpec(start: int, stop: int, step: int)
    requires step >= 1
    ensures var r := RangeStep(start, stop, step);
      && (forall k :: 0 <= k < |r| ==> r[k] == start + k * step && r[k] < stop)
      && start + |r| * step >= stop
    decreases stop - start
  {
    var r := RangeStep(start, stop, step);
    if start < stop {
      RangeStepSpec(start + step, stop, step);
      var tail := RangeStep(start + step, stop, step);
      assert r == [start] + tail;
      forall k | 0 <= k < |r|
        ensures r[k] == start + k * step && r[k] < stop
      {
        if k > 0 {
          assert r[k] == tail[k - 1];
          MulStep(k, step);
        }
      }
      MulStep(|r|, step);
    }
  }

  /** Multiples of a positive step grow strictly with the multiplier. */
  lemma {:induction false} MulGap(j: int, k: int, step: int)
    requires j < k && step >= 1
    ensures j * step < k * step
    decreases k - j
  {
    MulSucc(k - 1, step);
    if j < k - 1 {
      MulGap(j, k - 1, step);
    }
  }

  /**
   * The sampled indices: at most 15 of them, the k-th is k * step (so they
   * start at 0 and strictly increase by max(1, interval)), all are below
   * total_frames, and fewer than 15 only when the next multiple of the step
   * would reach total_frames.
   */
  lemma SampleIndicesSpec(interval: int, totalFrames: int)
    ensures var r := SampleIndices(interval, totalFrames);
      && |r| <= MaxKeyframes
      && (forall k :: 0 <= k < |r| ==> r[k] == k * Step(interval) && 0 <= r[k] < totalFrames)
      && (forall j, k :: 0 <= j < k < |r| ==> r[j] < r[k])
      && (|r| < MaxKeyframes ==> |r| * Step(interval) >= totalFrames)
      && (totalFrames > 0 ==> |r| >= 1 && r[0] == 0)
  {
    var step := Step(interval);
    var full := RangeStep(0, totalFrames, step);
    RangeStepSpec(0, totalFrames, step);
    var r := SampleIndices(interval, totalFrames);
    assert |r| <= |full| && forall k :: 0 <= k < |r| ==> r[k] == full[k];
    assert |r| < MaxKeyframes ==> r == full;
    forall k | 0 <= k < |r|
      ensures r[k] == k * step && 0 <= r[k] < totalFrames
    {
      assert full[k] == k * step;
      assert 0 * step <= k * step by {
        if k > 0 { MulGap(0, k, step); }
      }
    }
    forall j, k | 0 <= j < k < |r|
      ensures r[j] < r[k]
    {
      MulGap(j, k, step);
    }
    if totalFrames > 0 {
      assert |full| >= 1;
    }
  }
}
