/**
 * The greedy IoU track assigner of the face-morph service: every detection
 * whose bbox has four coordinates joins the existing track whose last box
 * overlaps it best (strictly above the threshold, earliest track on ties),
 * or opens a new track numbered by a counter.
 *
 * The pure functions Scan, Match, TrackFrame and Track specify the
 * algorithm; AssignOne and AssignTrackIds are its imperative form, with the
 * track dictionary kept as a map plus its key insertion order.
 */
module Tracking {
  import opened Wrappers
  import opened Geometry

  /** The default iou_thresh (0.3, taken as an exact rational). */
  const DefaultIouThresh: real := 0.3

  /** A raw detection: an optional bbox list and the other fields it carries. */
  datatype Detection<F> = Detection(bbox: Option<seq<int>>, fields: F)

  /** A kept detection together with the track id assigned to it. */
  datatype Tracked<F> = Tracked(det: Detection<F>, trackId: nat)

  /** Detections with a present bbox of exactly four numbers are processed. */
  predicate Kept<F>(d: Detection<F>) { d.bbox.Some? && |d.bbox.value| == 4 }

  function BoxOf(b: seq<int>): Box
    requires |b| == 4
  {
    Box(b[0], b[1], b[2], b[3])
  }

  /** Tracker state: the id counter and each track's last box. */
  datatype Tracks = Tracks(nextId: nat, last: map<nat, Box>) {
    /** Track ids are exactly 0 .. nextId - 1. */
    ghost predicate Valid() { forall i: nat :: i in last <==> i < nextId }
  }

  const Initial: Tracks := Tracks(0, map[])

  /** The ids 0 .. n - 1. */
  function Ids(n: nat): set<nat>
  {
    if n == 0 then {} else Ids(n - 1) + {n - 1}
  }

  lemma {:induction false} IdsMember(n: nat, i: nat)
    ensures i in Ids(n) <==> i < n
  {
    if n > 0 {
      IdsMember(n - 1, i);
    }
  }

  /** The IoU of b with the last box of each track 0 .. k - 1, in insertion order. */
  function Scores(b: Box, last: map<nat, Box>, k: nat): (sc: seq<real>)
    requires forall i: nat :: i < k ==> i in last
    ensures |sc| == k
    ensures forall i :: 0 <= i < k ==> sc[i] == Iou(b, last[i])
  {
    seq(k, i requires 0 <= i < k => Iou(b, last[i]))
  }

  /**
   * The scan over a sequence of scores: the best index so far and its score,
   * starting from (None, thresh) and replacing on a strictly larger score.
   */
  function ScanScores(sc: seq<real>, thresh: real): (r: (Option<nat>, real))
    ensures r.0.Some? ==> r.0.value < |sc|
    decreases |sc|
  {
    if |sc| == 0 then (None, thresh)
    else
      var prev := ScanScores(sc[..|sc| - 1], thresh);
      if sc[|sc| - 1] > prev.1 then (Some(|sc| - 1), sc[|sc| - 1]) else prev
  }

  /**
   * The scan over tracks 0 .. k - 1 in insertion order: the best id so far
   * and its IoU, starting from (None, thresh) and replacing on a strictly
   * larger IoU.
   */
  function Scan(b: Box, last: map<nat, Box>, k: nat, thresh: real): (r: (Option<nat>, real))
    requires forall i: nat :: i < k ==> i in last
    ensures r.0.Some? ==> r.0.value < k
  {
    if k == 0 then (None, thresh)
    else
      var prev := Scan(b, last, k - 1, thresh);
      var iou := Iou(b, last[k - 1]);
      if iou > prev.1 then (Some(k - 1), iou) else prev
  }

  /** Scanning the tracks is scanning their IoU scores. */
  lemma {:induction false} ScanIsScanScores(b: Box, last: map<nat, Box>, k: nat, thresh: real)
    requires forall i: nat :: i < k ==> i in last
    ensures Scan(b, last, k, thresh) == ScanScores(Scores(b, last, k), thresh)
  {
    if k > 0 {
      ScanIsScanScores(b, last, k - 1, thresh);
      assert Scores(b, last, k)[..k - 1] == Scores(b, last, k - 1);
    }
  }

  /** None when no score is strictly above thresh; otherwise the lowest index with the highest score. */
  predicate BestScore(sc: seq<real>, thresh: real, r: Option<nat>)
  {
    match r
    case None => forall i :: 0 <= i < |sc| ==> sc[i] <= thresh
    case Some(j) =>
      && j < |sc|
      && sc[j] > thresh
      && (forall i :: 0 <= i < |sc| ==> sc[i] <= sc[j])
      && (forall i :: 0 <= i < j ==> sc[i] < sc[j])
  }

  lemma {:induction false} ScanScoresBest(sc: seq<real>, thresh: real)
    ensures BestScore(sc, thresh, ScanScores(sc, thresh).0)
    ensures ScanScores(sc, thresh).1 ==
      match ScanScores(sc, thresh).0
      case None => thresh
      case Some(j) => sc[j]
    decreases |sc|
  {
    if |sc| > 0 {
      var init := sc[..|sc| - 1];
      ScanScoresBest(init, thresh);
      forall i | 0 <= i < |init|
        ensures init[i] == sc[i]
      {
      }
    }
  }

  /**
   * Independent statement of the matching rule: None when no track scores
   * strictly above thresh; otherwise the lowest id with the highest IoU.
   */
  ghost predicate IsBestMatch(b: Box, last: map<nat, Box>, k: nat, thresh: real, r: Option<nat>)
    requires forall i: nat :: i < k ==> i in last
  {
    match r
    case None => forall i: nat :: i < k ==> Iou(b, last[i]) <= thresh
    case Some(j) =>
      && j < k
      && Iou(b, last[j]) > thresh
      && (forall i: nat :: i < k ==> Iou(b, last[i]) <= Iou(b, last[j]))
      && (forall i: nat :: i < j ==> Iou(b, last[i]) < Iou(b, last[j]))
  }

  lemma ScanIsBestMatch(b: Box, last: map<nat, Box>, k: nat, thresh: real)
    requires forall i: nat :: i < k ==> i in last
    ensures IsBestMatch(b, last, k, thresh, Scan(b, last, k, thresh).0)
    ensures Scan(b, last, k, thresh).1 ==
      match Scan(b, last, k, thresh).0
      case None => thresh
      case Some(j) => Iou(b, last[j])
  {
    ScanIsScanScores(b, last, k, thresh);
    ScanScoresBest(Scores(b, last, k), thresh);
  }

  /** The scan over a single track. */
  lemma ScanOne(b: Box, last: map<nat, Box>, thresh: real)
    requires 0 in last
    ensures Scan(b, last, 1, thresh) ==
      if Iou(b, last[0]) > thresh then (Some(0), Iou(b, last[0])) else (None, thresh)
  {
  }

  /** The matching rule determines its answer uniquely. */
  lemma BestMatchUnique(b: Box, last: map<nat, Box>, k: nat, thresh: real, r1: Option<nat>, r2: Option<nat>)
    requires forall i: nat :: i < k ==> i in last
    requires IsBestMatch(b, last, k, thresh, r1) && IsBestMatch(b, last, k, thresh, r2)
    ensures r1 == r2
  {
  }

  /**
   * One detection: join the best-matching track or take the counter's id,
   * then make bbox that track's last box.
   */
  function Match(s: Tracks, b: Box, thresh: real): (r: (nat, Tracks))
    requires s.Valid()
    ensures r.1.Valid()
  {
    match Scan(b, s.last, s.nextId, thresh).0
    case Some(j) => (j, Tracks(s.nextId, s.last[j := b]))
    case None => (s.nextId, Tracks(s.nextId + 1, s.last[s.nextId := b]))
  }

  /** The detections of one frame, in order, starting from state s. */
  function TrackFrame<F>(s: Tracks, dets: seq<Detection<F>>, thresh: real): (r: (seq<Tracked<F>>, Tracks))
    requires s.Valid()
    ensures r.1.Valid()
    decreases |dets|
  {
    if |dets| == 0 then ([], s)
    else
      var prev := TrackFrame(s, dets[..|dets| - 1], thresh);
      var d := dets[|dets| - 1];
      if Kept(d) then
        var m := Match(prev.1, BoxOf(d.bbox.value), thresh);
        (prev.0 + [Tracked(d, m.0)], m.1)
      else prev
  }

  /** All frames in order, starting from state s. */
  function TrackFrom<F>(s: Tracks, frames: seq<seq<Detection<F>>>, thresh: real): (r: (seq<seq<Tracked<F>>>, Tracks))
    requires s.Valid()
    ensures r.1.Valid()
    ensures |r.0| == |frames|
    decreases |frames|
  {
    if |frames| == 0 then ([], s)
    else
      var prev := TrackFrom(s, frames[..|frames| - 1], thresh);
      var f := TrackFrame(prev.1, frames[|frames| - 1], thresh);
      (prev.0 + [f.0], f.1)
  }

  /** A whole tracking pass from an empty track table. */
  function Track<F>(frames: seq<seq<Detection<F>>>, thresh: real): (seq<seq<Tracked<F>>>, Tracks)
  {
    TrackFrom(Initial, frames, thresh)
  }

  // ----- Properties of the specification -----

  /** The detections kept from a frame, in their original order. */
  function KeptDets<F>(dets: seq<Detection<F>>): seq<Detection<F>>
    decreases |dets|
  {
    if |dets| == 0 then []
    else KeptDets(dets[..|dets| - 1]) + (if Kept(dets[|dets| - 1]) then [dets[|dets| - 1]] else [])
  }

  /** The detections of an output frame with their track ids removed. */
  function Dets<F>(ts: seq<Tracked<F>>): seq<Detection<F>>
    decreases |ts|
  {
    if |ts| == 0 then [] else Dets(ts[..|ts| - 1]) + [ts[|ts| - 1].det]
  }

  /** The track ids used in an output frame. */
  function FrameIds<F>(ts: seq<Tracked<F>>): set<nat>
    decreases |ts|
  {
    if |ts| == 0 then {} else FrameIds(ts[..|ts| - 1]) + {ts[|ts| - 1].trackId}
  }

  /** The track ids used anywhere in an output. */
  function AllIds<F>(out: seq<seq<Tracked<F>>>): set<nat>
    decreases |out|
  {
    if |out| == 0 then {} else AllIds(out[..|out| - 1]) + FrameIds(out[|out| - 1])
  }

  lemma DetsAppend<F>(ts: seq<Tracked<F>>, t: Tracked<F>)
    ensures Dets(ts + [t]) == Dets(ts) + [t.det]
    ensures FrameIds(ts + [t]) == FrameIds(ts) + {t.trackId}
  {
    assert (ts + [t])[..|ts|] == ts;
  }

  /**
   * For one detection: it joins an existing track exactly when some track's
   * last box has IoU strictly above thresh, and then it is the lowest id with
   * the highest IoU; otherwise it gets the counter's value, which is no
   * existing id, and the counter grows by one. Its track's last box becomes
   * the detection's box and no other last box changes.
   */
  lemma MatchRule(s: Tracks, b: Box, thresh: real)
    requires s.Valid()
    ensures var (id, s') := Match(s, b, thresh);
      && s'.last == s.last[id := b]
      && (id < s.nextId <==> exists i: nat :: i < s.nextId && Iou(b, s.last[i]) > thresh)
      && (id < s.nextId ==>
            && s'.nextId == s.nextId
            && Iou(b, s.last[id]) > thresh
            && (forall i: nat :: i < s.nextId ==> Iou(b, s.last[i]) <= Iou(b, s.last[id]))
            && (forall i: nat :: i < id ==> Iou(b, s.last[i]) < Iou(b, s.last[id])))
      && (id >= s.nextId ==> id == s.nextId && id !in s.last && s'.nextId == s.nextId + 1)
  {
    ScanIsBestMatch(b, s.last, s.nextId, thresh);
  }

  /** A match either reuses an existing id or takes the counter's value and advances it. */
  lemma MatchIds(s: Tracks, b: Box, thresh: real)
    requires s.Valid()
    ensures var (id, s') := Match(s, b, thresh);
      || (id < s.nextId && s'.nextId == s.nextId)
      || (id == s.nextId && s'.nextId == s.nextId + 1)
  {
    var r := Scan(b, s.last, s.nextId, thresh).0;
    assert r.Some? ==> r.value < s.nextId;
  }

  /**
   * One frame: its output holds exactly the kept detections in order, the
   * counter never decreases, and the ids in use afterwards are the old ones
   * plus those assigned in this frame, with no gaps.
   */
  lemma TrackFrameFacts<F>(s: Tracks, dets: seq<Detection<F>>, thresh: real)
    requires s.Valid()
    ensures var (out, s') := TrackFrame(s, dets, thresh);
      && Dets(out) == KeptDets(dets)
      && s.nextId <= s'.nextId
      && Ids(s.nextId) + FrameIds(out) == Ids(s'.nextId)
  {
    TrackFrameDets(s, dets, thresh);
    TrackFrameIds(s, dets, thresh);
  }

  lemma {:induction false} TrackFrameDets<F>(s: Tracks, dets: seq<Detection<F>>, thresh: real)
    requires s.Valid()
    ensures Dets(TrackFrame(s, dets, thresh).0) == KeptDets(dets)
    decreases |dets|
  {
    if |dets| > 0 {
      var prev := TrackFrame(s, dets[..|dets| - 1], thresh);
      TrackFrameDets(s, dets[..|dets| - 1], thresh);
      var d := dets[|dets| - 1];
      if Kept(d) {
        var m := Match(prev.1, BoxOf(d.bbox.value), thresh);
        DetsAppend(prev.0, Tracked(d, m.0));
      }
    }
  }

  /** Reusing an id below the counter, or taking the counter and advancing it, keeps the ids 0 .. counter - 1. */
  lemma IdsStep(n: nat, id: nat, n': nat)
    requires (id < n && n' == n) || (id == n && n' == n + 1)
    ensures Ids(n) + {id} == Ids(n')
  {
    if id < n {
      IdsMember(n, id);
    }
  }

  lemma {:induction false} TrackFrameIds<F>(s: Tracks, dets: seq<Detection<F>>, thresh: real)
    requires s.Valid()
    ensures var (out, s') := TrackFrame(s, dets, thresh);
      && s.nextId <= s'.nextId
      && Ids(s.nextId) + FrameIds(out) == Ids(s'.nextId)
    decreases |dets|
  {
    if |dets| > 0 {
      var prev := TrackFrame(s, dets[..|dets| - 1], thresh);
      TrackFrameIds(s, dets[..|dets| - 1], thresh);
      var d := dets[|dets| - 1];
      var n := prev.1.nextId;
      if Kept(d) {
        var m := Match(prev.1, BoxOf(d.bbox.value), thresh);
        assert TrackFrame(s, dets, thresh) == (prev.0 + [Tracked(d, m.0)], m.1);
        DetsAppend(prev.0, Tracked(d, m.0));
        MatchIds(prev.1, BoxOf(d.bbox.value), thresh);
        IdsStep(n, m.0, m.1.nextId);
      } else {
        assert TrackFrame(s, dets, thresh) == prev;
      }
    }
  }


  /**
   * A whole pass: one output frame per input frame, each holding that frame's
   * kept detections unchanged and in order; the ids used are exactly
   * 0 .. counter - 1, so tracks are numbered 0, 1, 2, ... with no gaps.
   */
  lemma {:induction false} TrackShape<F>(frames: seq<seq<Detection<F>>>, thresh: real)
    ensures var (out, s) := Track(frames, thresh);
      && |out| == |frames|
      && (forall i :: 0 <= i < |frames| ==> Dets(out[i]) == KeptDets(frames[i]))
      && AllIds(out) == Ids(s.nextId)
  {
    TrackFromFacts(Initial, frames, thresh);
  }

  lemma {:induction false} TrackFromFacts<F>(s: Tracks, frames: seq<seq<Detection<F>>>, thresh: real)
    requires s.Valid()
    ensures var (out, s') := TrackFrom(s, frames, thresh);
      && |out| == |frames|
      && (forall i :: 0 <= i < |frames| ==> Dets(out[i]) == KeptDets(frames[i]))
      && Ids(s.nextId) + AllIds(out) == Ids(s'.nextId)
    decreases |frames|
  {
    if |frames| > 0 {
      var prev := TrackFrom(s, frames[..|frames| - 1], thresh);
      TrackFromFacts(s, frames[..|frames| - 1], thresh);
      TrackFrameFacts(prev.1, frames[|frames| - 1], thresh);
      var out := TrackFrom(s, frames, thresh).0;
      assert out[..|out| - 1] == prev.0;
      forall i | 0 <= i < |frames|
        ensures Dets(out[i]) == KeptDets(frames[i])
      {
        if i < |frames| - 1 {
          assert out[i] == prev.0[i] && frames[i] == frames[..|frames| - 1][i];
        }
      }
    }
  }

  lemma TrackFrameOne<F>(s: Tracks, d: Detection<F>, thresh: real)
    requires s.Valid()
    ensures TrackFrame(s, [d], thresh) ==
      if Kept(d) then
        var m := Match(s, BoxOf(d.bbox.value), thresh);
        ([Tracked(d, m.0)], m.1)
      else ([], s)
  {
    assert [d][..0] == [];
    assert [d][|[d]| - 1] == d;
    var prev := TrackFrame(s, [d][..0], thresh);
    assert prev == ([], s);
    if Kept(d) {
      var m := Match(prev.1, BoxOf(d.bbox.value), thresh);
      assert TrackFrame(s, [d], thresh) == (prev.0 + [Tracked(d, m.0)], m.1);
      assert prev.0 + [Tracked(d, m.0)] == [Tracked(d, m.0)];
    }
  }

  lemma TrackFrameSnoc<F>(s: Tracks, dets: seq<Detection<F>>, d: Detection<F>, thresh: real)
    requires s.Valid()
    ensures TrackFrame(s, dets + [d], thresh) ==
      var prev := TrackFrame(s, dets, thresh);
      if Kept(d) then
        var m := Match(prev.1, BoxOf(d.bbox.value), thresh);
        (prev.0 + [Tracked(d, m.0)], m.1)
      else prev
  {
    assert (dets + [d])[..|dets|] == dets;
    assert (dets + [d])[|dets + [d]| - 1] == d;
  }

  lemma TrackFromSnoc<F>(s: Tracks, frames: seq<seq<Detection<F>>>, fr: seq<Detection<F>>, thresh: real)
    requires s.Valid()
    ensures TrackFrom(s, frames + [fr], thresh) ==
      var prev := TrackFrom(s, frames, thresh);
      var f := TrackFrame(prev.1, fr, thresh);
      (prev.0 + [f.0], f.1)
  {
    assert (frames + [fr])[..|frames|] == frames;
  }

  lemma DivAbove(x: real, d: real, c: real)
    requires d > 0.0 && c * d < x
    ensures x / d > c
  {
    var q := x / d;
    assert q * d == x;
    assert (q - c) * d == x - c * d;
  }

  /** The first detection ever opens track 0. */
  lemma MatchFirst(b: Box, thresh: real)
    ensures Match(Initial, b, thresh) == (0, Tracks(1, map[0 := b]))
  {
  }

  /** With one track, a detection joins it exactly when its IoU beats the threshold. */
  lemma MatchSecond(b0: Box, b: Box, thresh: real)
    ensures Match(Tracks(1, map[0 := b0]), b, thresh) ==
      if Iou(b, b0) > thresh then (0, Tracks(1, map[0 := b])) else (1, Tracks(2, map[0 := b0, 1 := b]))
  {
    ScanOne(b, map[0 := b0], thresh);
    assert map[0 := b0][0 := b] == map[0 := b];
  }

  /** Appending a frame holding one kept detection that matches to (id, s'). */
  lemma TrackFromSingle<F>(frames: seq<seq<Detection<F>>>, out: seq<seq<Tracked<F>>>, s: Tracks,
                           d: Detection<F>, id: nat, s': Tracks, thresh: real)
    requires s.Valid() && TrackFrom(Initial, frames, thresh) == (out, s)
    requires Kept(d) && Match(s, BoxOf(d.bbox.value), thresh) == (id, s')
    ensures TrackFrom(Initial, frames + [[d]], thresh) == (out + [[Tracked(d, id)]], s')
  {
    TrackFrameOne(s, d, thresh);
    TrackFromSnoc(Initial, frames, [d], thresh);
  }

  /** A well-formed box overlaps itself above the default threshold. */
  lemma SelfAboveThresh(b: Box)
    requires WellFormed(b)
    ensures Iou(b, b) > DefaultIouThresh
  {
    IouSelf(b);
    var a := Area(b) as real;
    assert a >= 1.0;
    DivAbove(a, a + Eps, DefaultIouThresh);
  }

  /** Two identical boxes in one frame share track 0: there is no per-frame used set. */
  lemma SameFrameSharesId<F>(b: Box, f1: F, f2: F)
    requires WellFormed(b)
    ensures
      var d1 := Detection(Some([b.x1, b.y1, b.x2, b.y2]), f1);
      var d2 := Detection(Some([b.x1, b.y1, b.x2, b.y2]), f2);
      Track([[d1, d2]], DefaultIouThresh).0 == [[Tracked(d1, 0), Tracked(d2, 0)]]
  {
    var t := DefaultIouThresh;
    var d1 := Detection(Some([b.x1, b.y1, b.x2, b.y2]), f1);
    var d2 := Detection(Some([b.x1, b.y1, b.x2, b.y2]), f2);
    var s1 := Tracks(1, map[0 := b]);
    assert Kept(d1) && BoxOf(d1.bbox.value) == b;
    assert Kept(d2) && BoxOf(d2.bbox.value) == b;
    SelfAboveThresh(b);
    MatchFirst(b, t);
    MatchSecond(b, b, t);
    TrackFrameOne(Initial, d1, t);
    TrackFrameSnoc(Initial, [d1], d2, t);
    assert [d1] + [d2] == [d1, d2];
    assert [Tracked(d1, 0)] + [Tracked(d2, 0)] == [Tracked(d1, 0), Tracked(d2, 0)];
    TrackFromSnoc(Initial, [], [d1, d2], t);
    assert [] + [[d1, d2]] == [[d1, d2]];
  }

  /** IoU of [1,1,11,11] with [0,0,10,10] is 81 / (119 + Eps), above 0.3; [50,50,60,60] misses [1,1,11,11]. */
  lemma ExampleIous()
    ensures Iou(Box(1, 1, 11, 11), Box(0, 0, 10, 10)) > DefaultIouThresh
    ensures Iou(Box(50, 50, 60, 60), Box(1, 1, 11, 11)) == 0.0
  {
    assert Iou(Box(1, 1, 11, 11), Box(0, 0, 10, 10)) == 81.0 / (119.0 + Eps);
  }

  /** The example's detections, all carrying the same other fields f. */
  function ExampleDet<F>(x1: int, y1: int, x2: int, y2: int, f: F): (d: Detection<F>)
    ensures Kept(d) && BoxOf(d.bbox.value) == Box(x1, y1, x2, y2)
  {
    Detection(Some([x1, y1, x2, y2]), f)
  }

  /** The example's first frame opens track 0. */
  lemma ExampleFirstFrame<F>(f: F)
    ensures TrackFrom(Initial, [[ExampleDet(0, 0, 10, 10, f)]], DefaultIouThresh)
      == ([[Tracked(ExampleDet(0, 0, 10, 10, f), 0)]], Tracks(1, map[0 := Box(0, 0, 10, 10)]))
  {
    var d1 := ExampleDet(0, 0, 10, 10, f);
    MatchFirst(Box(0, 0, 10, 10), DefaultIouThresh);
    TrackFromSingle([], [], Initial, d1, 0, Tracks(1, map[0 := Box(0, 0, 10, 10)]), DefaultIouThresh);
    assert [] + [[d1]] == [[d1]] && [] + [[Tracked(d1, 0)]] == [[Tracked(d1, 0)]];
  }

  /** The example's second frame joins track 0, whose last box becomes [1,1,11,11]. */
  lemma ExampleSecondFrame<F>(f: F)
    ensures TrackFrom(Initial, [[ExampleDet(0, 0, 10, 10, f)], [ExampleDet(1, 1, 11, 11, f)]], DefaultIouThresh)
      == ([[Tracked(ExampleDet(0, 0, 10, 10, f), 0)], [Tracked(ExampleDet(1, 1, 11, 11, f), 0)]],
          Tracks(1, map[0 := Box(1, 1, 11, 11)]))
  {
    var d1, d2 := ExampleDet(0, 0, 10, 10, f), ExampleDet(1, 1, 11, 11, f);
    var o1 := [Tracked(d1, 0)];
    ExampleFirstFrame(f);
    ExampleIous();
    MatchSecond(Box(0, 0, 10, 10), Box(1, 1, 11, 11), DefaultIouThresh);
    TrackFromSingle([[d1]], [o1], Tracks(1, map[0 := Box(0, 0, 10, 10)]), d2, 0,
                    Tracks(1, map[0 := Box(1, 1, 11, 11)]), DefaultIouThresh);
    assert [[d1]] + [[d2]] == [[d1], [d2]] && [o1] + [[Tracked(d2, 0)]] == [o1, [Tracked(d2, 0)]];
  }

  /**
   * The three-frame example: boxes [0,0,10,10], [1,1,11,11], [50,50,60,60]
   * get ids 0, 0, 1 (the first two overlap with IoU 81/119, the third with neither).
   */
  lemma ExampleThreeFrames<F>(f: F)
    ensures
      var d1 := Detection(Some([0, 0, 10, 10]), f);
      var d2 := Detection(Some([1, 1, 11, 11]), f);
      var d3 := Detection(Some([50, 50, 60, 60]), f);
      Track([[d1], [d2], [d3]], DefaultIouThresh).0
        == [[Tracked(d1, 0)], [Tracked(d2, 0)], [Tracked(d3, 1)]]
  {
    var d1, d2, d3 := ExampleDet(0, 0, 10, 10, f), ExampleDet(1, 1, 11, 11, f), ExampleDet(50, 50, 60, 60, f);
    var o1, o2 := [Tracked(d1, 0)], [Tracked(d2, 0)];
    ExampleSecondFrame(f);
    ExampleIous();
    MatchSecond(Box(1, 1, 11, 11), Box(50, 50, 60, 60), DefaultIouThresh);
    TrackFromSingle([[d1], [d2]], [o1, o2], Tracks(1, map[0 := Box(1, 1, 11, 11)]), d3, 1,
                    Tracks(2, map[0 := Box(1, 1, 11, 11), 1 := Box(50, 50, 60, 60)]), DefaultIouThresh);
    assert [[d1], [d2]] + [[d3]] == [[d1], [d2], [d3]] && [o1, o2] + [[Tracked(d3, 1)]] == [o1, o2, [Tracked(d3, 1)]];
  }

  // ----- The imperative assigner -----

  /** A Python dict from track id to last box: its entries and its key insertion order. */
  datatype BoxDict = BoxDict(boxes: map<nat, Box>, order: seq<nat>)

  /** `d[k] = v`: a new key goes to the end of the order, an old key keeps its place. */
  function Put(d: BoxDict, k: nat, v: Box): BoxDict
  {
    BoxDict(d.boxes[k := v], if k in d.boxes then d.order else d.order + [k])
  }

  /** The dict holds tracker state s, and its keys were inserted as 0, 1, 2, ... */
  ghost predicate Holds(d: BoxDict, s: Tracks)
  {
    && s.Valid()
    && d.boxes == s.last
    && |d.order| == s.nextId
    && (forall i :: 0 <= i < |d.order| ==> d.order[i] == i)
  }

  /**
   * The body of the inner loop of assign_track_ids: scan the dict in
   * insertion order for the best IoU, take a new id if none beats thresh,
   * store the box.
   */
  method AssignOne(d: BoxDict, nextId: nat, bbox: Box, thresh: real)
    returns (id: nat, d': BoxDict, nextId': nat)
    requires Holds(d, Tracks(nextId, d.boxes))
    ensures (id, Tracks(nextId', d'.boxes)) == Match(Tracks(nextId, d.boxes), bbox, thresh)
    ensures Holds(d', Tracks(nextId', d'.boxes))
  {
    var bestId: Option<nat> := None;
    var bestIou := thresh;
    for k := 0 to |d.order|
      invariant (bestId, bestIou) == Scan(bbox, d.boxes, k, thresh)
    {
      var tid := d.order[k];
      var iou := Iou(bbox, d.boxes[tid]);
      assert tid == k;
      if iou > bestIou {
        bestIou := iou;
        bestId := Some(tid);
      }
    }
    nextId' := nextId;
    if bestId.None? {
      id := nextId';
      nextId' := nextId' + 1;
    } else {
      id := bestId.value;
    }
    d' := Put(d, id, bbox);
  }

  /** assign_track_ids: give every kept detection of every frame its track id. */
  method AssignTrackIds<F>(frames: seq<seq<Detection<F>>>, iouThresh: real)
    returns (out: seq<seq<Tracked<F>>>)
    ensures out == Track(frames, iouThresh).0
  {
    var nextId: nat := 0;
    var trackBox := BoxDict(map[], []);
    out := [];
    for f := 0 to |frames|
      invariant Holds(trackBox, Tracks(nextId, trackBox.boxes))
      invariant (out, Tracks(nextId, trackBox.boxes)) == TrackFrom(Initial, frames[..f], iouThresh)
    {
      ghost var start := Tracks(nextId, trackBox.boxes);
      var frameDets := frames[f];
      var newFrame := [];
      for k := 0 to |frameDets|
        invariant Holds(trackBox, Tracks(nextId, trackBox.boxes))
        invariant (newFrame, Tracks(nextId, trackBox.boxes)) == TrackFrame(start, frameDets[..k], iouThresh)
      {
        var det := frameDets[k];
        assert frameDets[..k + 1][..k] == frameDets[..k];
        if det.bbox.None? || |det.bbox.value| != 4 {
          continue;
        }
        var bestId;
        bestId, trackBox, nextId := AssignOne(trackBox, nextId, BoxOf(det.bbox.value), iouThresh);
        newFrame := newFrame + [Tracked(det, bestId)];
      }
      assert frameDets[..|frameDets|] == frameDets;
      assert frames[..f + 1][..f] == frames[..f];
      out := out + [newFrame];
    }
    assert frames[..|frames|] == frames;
  }
}
