/**
 * The frame loop of the face-swap handler: every detected face of every
 * video frame gets a track id by the same greedy IoU rule as the
 * detect-faces pass (threshold 0.3), with the next id recomputed per frame
 * as max(existing ids) + 1; the first face carrying the target id, if any,
 * is the one swapped, and frame i is written as frame_{i:08d}.png.
 */
module Swap {
  import opened Wrappers
  import opened Geometry
  import opened Tracking
  import Naming

  /** A detected face: its integer bbox and the detector's face object. */
  datatype Face<F> = Face(box: Box, face: F)

  const SwapIouThresh: real := 0.3

  /** The detection the detect-faces pass would see for a face. */
  function AsDetection<F>(f: Face<F>): Detection<F>
  {
    Detection(Some([f.box.x1, f.box.y1, f.box.x2, f.box.y2]), f.face)
  }

  function AsFrame<F>(fr: seq<Face<F>>): seq<Detection<F>>
  {
    seq(|fr|, k requires 0 <= k < |fr| => AsDetection(fr[k]))
  }

  function AsFrames<F>(frames: seq<seq<Face<F>>>): seq<seq<Detection<F>>>
  {
    seq(|frames|, i requires 0 <= i < |frames| => AsFrame(frames[i]))
  }

  /** The face object of the first detection carrying the target id. */
  function FirstWithId<F>(ts: seq<Tracked<F>>, target: int): (r: Option<F>)
    decreases |ts|
  {
    if |ts| == 0 then None
    else if ts[0].trackId == target then Some(ts[0].det.fields)
    else FirstWithId(ts[1..], target)
  }

  /**
   * The chosen face is the fields of the earliest detection with the target
   * id, and there is none exactly when no detection carries that id.
   */
  lemma {:induction false} FirstWithIdSpec<F>(ts: seq<Tracked<F>>, target: int)
    ensures FirstWithId(ts, target).None? <==> forall k :: 0 <= k < |ts| ==> ts[k].trackId != target
    ensures FirstWithId(ts, target).Some? ==>
      exists k :: 0 <= k < |ts| && ts[k].trackId == target && FirstWithId(ts, target).value == ts[k].det.fields
        && forall j :: 0 <= j < k ==> ts[j].trackId != target
    decreases |ts|
  {
    if |ts| > 0 {
      FirstWithIdSpec(ts[1..], target);
      if ts[0].trackId != target && FirstWithId(ts[1..], target).Some? {
        var k :| 0 <= k < |ts| - 1 && ts[1..][k].trackId == target
          && FirstWithId(ts[1..], target).value == ts[1..][k].det.fields
          && forall j :: 0 <= j < k ==> ts[1..][j].trackId != target;
        assert ts[k + 1].trackId == target;
        assert forall j :: 0 <= j < k + 1 ==> ts[j].trackId != target by {
          forall j | 0 <= j < k + 1 ensures ts[j].trackId != target {
            if j > 0 { assert ts[j] == ts[1..][j - 1]; }
          }
        }
      }
      if ts[0].trackId != target && FirstWithId(ts[1..], target).None? {
        forall k | 0 <= k < |ts| ensures ts[k].trackId != target {
          if k > 0 { assert ts[k] == ts[1..][k - 1]; }
        }
      }
    }
  }

  /** next_id = max(track_bbox.keys(), default=-1) + 1 */
  method NextIdFromKeys(boxes: map<nat, Box>) returns (n: nat)
    ensures forall k :: k in boxes ==> k < n
    ensures n > 0 ==> n - 1 in boxes
  {
    var rest := boxes.Keys;
    n := 0;
    while rest != {}
      invariant rest <= boxes.Keys
      invariant forall k :: k in boxes && k !in rest ==> k < n
      invariant n > 0 ==> n - 1 in boxes
      decreases rest
    {
      var k :| k in rest;
      if k + 1 > n {
        n := k + 1;
      }
      rest := rest - {k};
    }
  }

  /**
   * The select loop: the first detection of the frame whose trackId equals
   * the target, or None when no detection carries it.
   */
  method SelectTarget<F>(ts: seq<Tracked<F>>, target: int) returns (chosen: Option<F>)
    ensures chosen == FirstWithId(ts, target)
  {
    chosen := None;
    var k := 0;
    while k < |ts|
      invariant 0 <= k <= |ts|
      invariant FirstWithId(ts, target) == FirstWithId(ts[k..], target)
    {
      if ts[k].trackId == target {
        chosen := Some(ts[k].det.fields);
        return;
      }
      k := k + 1;
    }
  }

  /** With ids 0 .. c - 1 in use, max(ids) + 1 (or 0) is c. */
  lemma CounterIsMaxKeyPlusOne(d: BoxDict, c: nat, n: nat)
    requires Holds(d, Tracks(c, d.boxes))
    requires forall k :: k in d.boxes ==> k < n
    requires n > 0 ==> n - 1 in d.boxes
    ensures n == c
  {
    if c > 0 {
      assert c - 1 in d.boxes;
    }
  }

  lemma AsFramesSnoc<F>(frames: seq<seq<Face<F>>>, i: nat)
    requires i < |frames|
    ensures AsFrames(frames)[..i + 1] == AsFrames(frames)[..i] + [AsFrame(frames[i])]
  {
  }

  /** The per-frame id loop of the swap handler, from counter nextId. */
  method TrackFaces<F>(trackBox: BoxDict, nextId: nat, frameDets: seq<Face<F>>)
    returns (frameTracked: seq<Tracked<F>>, trackBox': BoxDict, nextId': nat)
    requires Holds(trackBox, Tracks(nextId, trackBox.boxes))
    ensures Holds(trackBox', Tracks(nextId', trackBox'.boxes))
    ensures (frameTracked, Tracks(nextId', trackBox'.boxes))
      == TrackFrame(Tracks(nextId, trackBox.boxes), AsFrame(frameDets), SwapIouThresh)
  {
    ghost var start := Tracks(nextId, trackBox.boxes);
    ghost var dets := AsFrame(frameDets);
    trackBox', nextId' := trackBox, nextId;
    frameTracked := [];
    for k := 0 to |frameDets|
      invariant Holds(trackBox', Tracks(nextId', trackBox'.boxes))
      invariant (frameTracked, Tracks(nextId', trackBox'.boxes)) == TrackFrame(start, dets[..k], SwapIouThresh)
    {
      var bbox := frameDets[k].box;
      assert dets[..k + 1] == dets[..k] + [AsDetection(frameDets[k])];
      TrackFrameSnoc(start, dets[..k], AsDetection(frameDets[k]), SwapIouThresh);
      assert BoxOf(AsDetection(frameDets[k]).bbox.value) == bbox;
      var bestId;
      bestId, trackBox', nextId' := AssignOne(trackBox', nextId', bbox, SwapIouThresh);
      frameTracked := frameTracked + [Tracked(AsDetection(frameDets[k]), bestId)];
    }
    assert dets[..|frameDets|] == dets;
  }

  /** The face chosen in each tracked frame. */
  function ChosenFaces<F>(tracked: seq<seq<Tracked<F>>>, target: int): (r: seq<Option<F>>)
    ensures |r| == |tracked|
  {
    seq(|tracked|, i requires 0 <= i < |tracked| => FirstWithId(tracked[i], target))
  }

  /** The file names of frames 0 .. n - 1. */
  function FrameFiles(n: nat): (r: seq<string>)
    ensures |r| == n
  {
    seq(n, i requires 0 <= i < n => Naming.FrameFileName(i))
  }

  /**
   * The swap handler's loop over the video's frames: per frame, the face
   * to swap (None leaves the frame as read) and the file it is written to.
   * The ids agree with those assign_track_ids gives the same frames at 0.3,
   * as the handler's comment asserts.
   */
  method SwapFrames<F>(frames: seq<seq<Face<F>>>, targetTrackId: int)
    returns (chosen: seq<Option<F>>, files: seq<string>)
    ensures |chosen| == |frames| && |files| == |frames|
    ensures forall i :: 0 <= i < |frames| ==>
      chosen[i] == FirstWithId(Track(AsFrames(frames), SwapIouThresh).0[i], targetTrackId)
    ensures forall i :: 0 <= i < |frames| ==> files[i] == Naming.FrameFileName(i)
  {
    var trackBox := BoxDict(map[], []);
    ghost var counter: nat := 0;
    ghost var tracked: seq<seq<Tracked<F>>> := [];
    chosen, files := [], [];
    var frameIdx := 0;
    while frameIdx < |frames|
      invariant 0 <= frameIdx <= |frames|
      invariant Holds(trackBox, Tracks(counter, trackBox.boxes))
      invariant (tracked, Tracks(counter, trackBox.boxes)) == TrackFrom(Initial, AsFrames(frames)[..frameIdx], SwapIouThresh)
      invariant chosen == ChosenFaces(tracked, targetTrackId)
      invariant files == FrameFiles(frameIdx)
    {
      var nextId: nat := NextIdFromKeys(trackBox.boxes);
      CounterIsMaxKeyPlusOne(trackBox, counter, nextId);
      ghost var prefix := AsFrames(frames)[..frameIdx];
      AsFramesSnoc(frames, frameIdx);
      TrackFromSnoc(Initial, prefix, AsFrame(frames[frameIdx]), SwapIouThresh);
      var frameTracked;
      frameTracked, trackBox, nextId := TrackFaces(trackBox, nextId, frames[frameIdx]);
      var face := SelectTarget(frameTracked, targetTrackId);
      assert ChosenFaces(tracked + [frameTracked], targetTrackId) == chosen + [face];
      assert FrameFiles(frameIdx + 1) == files + [Naming.FrameFileName(frameIdx)];
      tracked := tracked + [frameTracked];
      counter := nextId;
      chosen := chosen + [face];
      files := files + [Naming.FrameFileName(frameIdx)];
      frameIdx := frameIdx + 1;
    }
    assert AsFrames(frames)[..|frames|] == AsFrames(frames);
  }
}
