/**
 * The deblur service's enhancement job: which records the worker writes for
 * its job id, in order, for every outcome of the steps it cannot see into
 * (file checks, model loading, video decoding, the encoder process), and the
 * encoder settings chosen by quality mode.
 */
module Deblur {
  import opened Wrappers
  import opened Jobs
  import Naming

  // ----- Quality mode -----

  datatype EncoderSettings = EncoderSettings(crf: string, preset: string)

  /** The settings of one ffmpeg run: crf and preset, and the unsharp amount when the filter is applied. */
  datatype FfmpegRun = FfmpegRun(encoder: EncoderSettings, unsharp: Option<string>)

  /** crf and preset for libx264; any mode other than "best" and "fast" is balanced. */
  function Encoder(qualityMode: string): EncoderSettings
  {
    if qualityMode == "best" then EncoderSettings("18", "slow")
    else if qualityMode == "fast" then EncoderSettings("28", "veryfast")
    else EncoderSettings("23", "fast")
  }

  /** The luma amount of the unsharp filter used by the fallback path. */
  function UnsharpAmount(qualityMode: string): string
  {
    if qualityMode == "best" then "2.0"
    else if qualityMode == "fast" then "1.0"
    else "1.5"
  }

  function CrfValue(qualityMode: string): nat
  {
    var c := Encoder(qualityMode).crf;
    assert forall k :: 0 <= k < |c| ==> Naming.IsDigit(c[k]);
    Naming.DecimalValue(c)
  }

  /**
   * Unknown modes are treated exactly as "balanced", and a better mode asks
   * the encoder for a lower constant rate factor (higher quality); each mode
   * has its own encoder preset and fallback unsharp amount.
   */
  lemma QualityModes(qualityMode: string)
    ensures qualityMode != "best" && qualityMode != "fast" ==>
      Encoder(qualityMode) == Encoder("balanced") && UnsharpAmount(qualityMode) == UnsharpAmount("balanced")
    ensures CrfValue("best") == 18 && CrfValue("balanced") == 23 && CrfValue("fast") == 28
    ensures CrfValue("best") < CrfValue("balanced") < CrfValue("fast")
    ensures Encoder("best").preset == "slow" && Encoder("balanced").preset == "fast"
         && Encoder("fast").preset == "veryfast"
    ensures UnsharpAmount("best") == "2.0" && UnsharpAmount("balanced") == "1.5"
         && UnsharpAmount("fast") == "1.0"
  {
    var b, m, f := Encoder("best").crf, Encoder("balanced").crf, Encoder("fast").crf;
    assert b == "18" && m == "23" && f == "28";
    assert b[..1] == "1" && m[..1] == "2" && f[..1] == "2";
    assert Naming.DecimalValue(b) == Naming.DecimalValue(b[..1]) * 10 + 8;
    assert Naming.DecimalValue(m) == Naming.DecimalValue(m[..1]) * 10 + 3;
    assert Naming.DecimalValue(f) == Naming.DecimalValue(f[..1]) * 10 + 8;
  }

  // ----- Frame-loop progress -----

  /** Python's int() on a float: truncation toward zero. */
  function Trunc(x: real): int
  {
    if x >= 0.0 then x.Floor else -((-x).Floor)
  }

  const DivisionByZero := "division by zero"

  /** 15 + int((frame_idx / total_frames) * 75); a zero total raises ZeroDivisionError. */
  function FrameProgress(frameIdx: int, totalFrames: int): Result<int, string>
  {
    if totalFrames == 0 then Err(DivisionByZero)
    else Ok(15 + Trunc((frameIdx as real / totalFrames as real) * 75.0))
  }

  /** Progress is written after every tenth frame and after the last expected one. */
  predicate ReportsAt(frameIdx: int, totalFrames: int)
  {
    frameIdx % 10 == 0 || frameIdx == totalFrames
  }

  /** x <= y / t exactly when x * t <= y, for a positive t. */
  lemma {:induction false} LeQuotient(x: real, y: real, t: real)
    requires t > 0.0
    ensures x <= y / t <==> x * t <= y
  {
    var z := y / t;
    assert z * t == y;
    assert x * t - z * t == (x - z) * t;
  }

  lemma {:induction false} FloorOfQuotient(a: int, t: int)
    requires a >= 0 && t > 0
    ensures (a as real / t as real).Floor == a / t
  {
    var q := a / t;
    assert q * t <= a < q * t + t;
    var x := a as real / t as real;
    assert (q * t) as real == q as real * t as real;
    assert ((q + 1) * t) as real == (q as real + 1.0) * t as real;
    LeQuotient(q as real, a as real, t as real);
    LeQuotient(q as real + 1.0, a as real, t as real);
  }

  /** With frames read and a positive total, the exact value is 15 + (75 * frame_idx) div total. */
  lemma FrameProgressExact(frameIdx: nat, totalFrames: int)
    requires totalFrames > 0
    ensures FrameProgress(frameIdx, totalFrames) == Ok(15 + (75 * frameIdx) / totalFrames)
  {
    var x := (frameIdx as real / totalFrames as real) * 75.0;
    assert x == (75 * frameIdx) as real / totalFrames as real;
    FloorOfQuotient(75 * frameIdx, totalFrames);
  }

  lemma MulCancel(x: int, y: int, t: int)
    requires t > 0 && x * t < y * t
    ensures x < y
  {
  }

  lemma DivMonotone(a: int, b: int, t: int)
    requires 0 <= a <= b && t > 0
    ensures a / t <= b / t
  {
    var qa, qb := a / t, b / t;
    assert qa * t <= a;
    assert b < qb * t + t;
    assert qb * t + t == (qb + 1) * t;
    MulCancel(qa, qb + 1, t);
  }

  lemma MulDiv(k: int, t: int)
    requires t > 0
    ensures (k * t) / t == k
  {
    var q := (k * t) / t;
    assert q * t <= k * t < q * t + t;
    assert q * t + t == (q + 1) * t;
    MulCancel(q, k + 1, t);
    MulCancel(k, q + 1, t);
  }

  /**
   * For 1 <= frame_idx <= total_frames the progress lies in [15, 90], never
   * decreases as frame_idx grows, and is 90 at the last expected frame.
   */
  lemma FrameProgressBounds(i: nat, j: nat, totalFrames: int)
    requires 1 <= i <= j <= totalFrames
    ensures FrameProgress(i, totalFrames).Ok? && FrameProgress(j, totalFrames).Ok?
    ensures 15 <= FrameProgress(i, totalFrames).value <= FrameProgress(j, totalFrames).value <= 90
    ensures FrameProgress(totalFrames, totalFrames) == Ok(90)
  {
    var t := totalFrames;
    FrameProgressExact(i, t);
    FrameProgressExact(j, t);
    FrameProgressExact(t, t);
    var a, b, c := 75 * i, 75 * j, 75 * t;
    assert 0 <= a <= b <= c;
    DivMonotone(a, b, t);
    DivMonotone(b, c, t);
    MulDiv(75, t);
    assert c == 75 * t;
  }

  // ----- The worker's records -----

  datatype EnhanceRequest = EnhanceRequest(videoPath: string, jobId: Option<string>, useCuda: bool, qualityMode: string)

  /** The outcomes of the steps the worker cannot see into. */
  datatype DeblurEnv = DeblurEnv(
    videoExists: bool,             // Path(video_path).exists()
    modelAvailable: bool,          // get_ai_enhancer() returned a model
    unsharpError: Option<string>,  // message of the fallback encoder's failure, if it failed
    videoOpens: bool,              // cap.isOpened()
    totalFrames: int,              // int(cap.get(CAP_PROP_FRAME_COUNT))
    framesRead: nat,               // frames cap.read() delivers before it reports the end
    framesDir: string,             // the directory tempfile.mkdtemp(prefix="deblur_") made
    encodeError: Option<string>)   // message of the encoder's failure, if it failed

  const VideoNotFound := "Video file not found"
  const OpenFailed := "Failed to open video"
  const EnhancedOutputName := "enhanced_output.mp4"
  const UnsharpMethod := "ffmpeg_unsharp"

  /** The record written after frame k of an expected total. */
  function Report(k: int, totalFrames: int, p: int): JobRecord
  {
    JobRecord(p as real, ProcessingFrames, FrameCounts(k, totalFrames))
  }

  /** Records written by the frame loop, an exception it raised, and how many frame files it wrote. */
  datatype LoopOutcome = LoopOutcome(writes: seq<JobRecord>, raised: Option<string>, framesWritten: nat)

  /** The frame loop after n frames have been read (or the loop raised earlier). */
  function FrameLoop(n: nat, totalFrames: int): LoopOutcome
  {
    if n == 0 then LoopOutcome([], None, 0)
    else
      var prev := FrameLoop(n - 1, totalFrames);
      if prev.raised.Some? then prev
      else if ReportsAt(n, totalFrames) then
        match FrameProgress(n, totalFrames)
        case Ok(p) => LoopOutcome(prev.writes + [Report(n, totalFrames, p)], None, n)
        case Err(m) => LoopOutcome(prev.writes, Some(m), n)
      else LoopOutcome(prev.writes, None, n)
  }

  /** _do_ffmpeg_enhance: ffmpeg_processing 20, then completed with the unsharp result or the error. */
  function FfmpegTrace(req: EnhanceRequest, env: DeblurEnv): seq<JobRecord>
  {
    [Progress(20, FfmpegProcessing)] +
    match env.unsharpError
    case Some(m) => [Failed(m)]
    case None =>
      [JobRecord(100.0, Completed, UnsharpDone(Naming.FallbackOutputPath(req.videoPath), req.qualityMode, UnsharpMethod))]
  }

  /** What follows the frame loop: the loop's exception, or encoding 95 and then the encoder's outcome. */
  function AfterFrames(req: EnhanceRequest, env: DeblurEnv, raised: Option<string>, frames: nat): seq<JobRecord>
  {
    match raised
    case Some(m) => [Failed(m)]
    case None =>
      [Progress(95, Encoding)] +
      match env.encodeError
      case Some(m) => [Failed(m)]
      case None => [Done(req, env, frames)]
  }

  /** _do_enhance: every record the worker writes for its job, in order. */
  function DeblurTrace(req: EnhanceRequest, env: DeblurEnv): seq<JobRecord>
  {
    [Progress(0, Starting)] +
    if !env.videoExists then [Failed(VideoNotFound)]
    else [Progress(5, LoadingModel)] + ModelStage(req, env)
  }

  function ModelStage(req: EnhanceRequest, env: DeblurEnv): seq<JobRecord>
  {
    if !env.modelAvailable then FfmpegTrace(req, env)
    else [Progress(10, ReadingVideo)] + VideoStage(req, env)
  }

  function VideoStage(req: EnhanceRequest, env: DeblurEnv): seq<JobRecord>
  {
    if !env.videoOpens then [Failed(OpenFailed)] else FramesStage(req, env)
  }

  /** From processing_frames 15 on: the frame loop's reports, then what follows it. */
  function FramesStage(req: EnhanceRequest, env: DeblurEnv): seq<JobRecord>
  {
    var loop := FrameLoop(env.framesRead, env.totalFrames);
    [Progress(15, ProcessingFrames)] + loop.writes + AfterFrames(req, env, loop.raised, loop.framesWritten)
  }

  /** The records the frame loop writes after n frames. */
  function Loop(n: nat, totalFrames: int): seq<JobRecord>
  {
    FrameLoop(n, totalFrames).writes
  }

  /** How many frame files the worker writes. */
  function FramesWritten(env: DeblurEnv): nat
  {
    if env.videoExists && env.modelAvailable && env.videoOpens
    then FrameLoop(env.framesRead, env.totalFrames).framesWritten
    else 0
  }

  /** frames_dir / f"frame_{k:08d}.png" for the first n frames. */
  function FramePaths(framesDir: string, n: nat): (r: seq<string>)
    ensures |r| == n
    ensures forall k :: 0 <= k < n ==> r[k] == Naming.Join(framesDir, Naming.FrameFileName(k))
  {
    seq(n, k requires 0 <= k < n => Naming.Join(framesDir, Naming.FrameFileName(k)))
  }

  // ----- Properties of the frame loop -----

  /**
   * The loop raises only when no total is known and a tenth frame is reached,
   * and then with "division by zero" after writing exactly ten frame files;
   * otherwise it writes one file per frame read.
   */
  lemma {:induction false} FrameLoopRaises(n: nat, totalFrames: int)
    ensures var lo := FrameLoop(n, totalFrames);
      && (lo.raised.Some? <==> totalFrames == 0 && n >= 10)
      && (lo.raised.Some? ==> lo.raised.value == DivisionByZero && lo.framesWritten == 10)
      && (lo.raised.None? ==> lo.framesWritten == n)
  {
    if n > 0 {
      FrameLoopRaises(n - 1, totalFrames);
    }
  }

  /** The frames_processed a progress record carries (0 for other records). */
  function ReportedFrame(w: JobRecord): int
  {
    if w.result.FrameCounts? then w.result.framesProcessed else 0
  }

  /** A processing_frames report for a reporting frame in 1..n, with that frame's progress. */
  predicate IsReport(w: JobRecord, n: nat, totalFrames: int)
  {
    && w.status == ProcessingFrames && w.result.FrameCounts?
    && w.result.totalFrames == totalFrames
    && 1 <= w.result.framesProcessed <= n
    && ReportsAt(w.result.framesProcessed, totalFrames)
    && FrameProgress(w.result.framesProcessed, totalFrames).Ok?
    && w.progress == FrameProgress(w.result.framesProcessed, totalFrames).value as real
  }

  /**
   * Every record the loop writes is a processing_frames report at a reporting
   * frame k in 1..n, carrying frames_processed k, the expected total and the
   * progress for k; the reported k strictly increase.
   */
  lemma {:induction false} FrameLoopReports(n: nat, totalFrames: int)
    ensures forall i :: 0 <= i < |Loop(n, totalFrames)| ==> IsReport(Loop(n, totalFrames)[i], n, totalFrames)
    ensures forall i, j :: 0 <= i < j < |Loop(n, totalFrames)| ==>
      ReportedFrame(Loop(n, totalFrames)[i]) < ReportedFrame(Loop(n, totalFrames)[j])
  {
    if n > 0 {
      FrameLoopReports(n - 1, totalFrames);
      var prev := FrameLoop(n - 1, totalFrames);
      var ws := Loop(n, totalFrames);
      assert prev.writes == Loop(n - 1, totalFrames);
      forall i | 0 <= i < |prev.writes|
        ensures IsReport(prev.writes[i], n, totalFrames)
      {
        assert IsReport(Loop(n - 1, totalFrames)[i], n - 1, totalFrames);
      }
      if prev.raised.None? && ReportsAt(n, totalFrames) && FrameProgress(n, totalFrames).Ok? {
        var p := FrameProgress(n, totalFrames).value;
        assert ws == prev.writes + [Report(n, totalFrames, p)];
        assert IsReport(Report(n, totalFrames, p), n, totalFrames);
      } else {
        assert ws == prev.writes;
      }
    }
  }

  /** With a positive total, the loop's last record reports frame n whenever n is a reporting frame. */
  lemma {:induction false} FrameLoopLast(n: nat, totalFrames: int)
    requires totalFrames != 0 && n >= 1 && ReportsAt(n, totalFrames)
    ensures var ws := FrameLoop(n, totalFrames).writes;
      ws != [] && ws[|ws| - 1].result == FrameCounts(n, totalFrames)
  {
    FrameLoopRaises(n - 1, totalFrames);
  }

  lemma ReportsOrdered(v: JobRecord, w: JobRecord, n: nat, totalFrames: int)
    requires IsReport(v, n, totalFrames) && IsReport(w, n, totalFrames) && n <= totalFrames
    requires ReportedFrame(v) <= ReportedFrame(w)
    ensures 15.0 <= v.progress <= w.progress <= 90.0
  {
    FrameProgressBounds(v.result.framesProcessed, w.result.framesProcessed, totalFrames);
  }

  /**
   * As long as no more frames are read than the container announced, the
   * loop's progress stays in [15, 90] and never decreases, and reaching the
   * announced total reports 90.
   */
  lemma FrameLoopMonotone(n: nat, totalFrames: int)
    requires n <= totalFrames
    ensures NonDecreasing(Loop(n, totalFrames))
    ensures forall i :: 0 <= i < |Loop(n, totalFrames)| ==> 15.0 <= Loop(n, totalFrames)[i].progress <= 90.0
    ensures n == totalFrames >= 1 ==>
      Loop(n, totalFrames) != [] && Loop(n, totalFrames)[|Loop(n, totalFrames)| - 1].progress == 90.0
  {
    var ws := Loop(n, totalFrames);
    FrameLoopReports(n, totalFrames);
    forall i, j | 0 <= i < j < |ws|
      ensures ws[i].progress <= ws[j].progress
    {
      ReportsOrdered(ws[i], ws[j], n, totalFrames);
    }
    forall i | 0 <= i < |ws|
      ensures 15.0 <= ws[i].progress <= 90.0
    {
      ReportsOrdered(ws[i], ws[i], n, totalFrames);
    }
    if n == totalFrames >= 1 {
      FrameLoopLast(n, totalFrames);
      FrameProgressBounds(n, n, totalFrames);
    }
  }

  /** Once the loop has raised, reading more frames changes nothing. */
  lemma {:induction false} FrameLoopStops(m: nat, n: nat, totalFrames: int)
    requires m <= n && FrameLoop(m, totalFrames).raised.Some?
    ensures FrameLoop(n, totalFrames) == FrameLoop(m, totalFrames)
    decreases n - m
  {
    if m < n {
      FrameLoopStops(m, n - 1, totalFrames);
    }
  }

  // ----- Properties of the whole trace -----

  lemma LoopRunning(n: nat, totalFrames: int)
    ensures Running(Loop(n, totalFrames))
  {
    FrameLoopReports(n, totalFrames);
    forall i | 0 <= i < |Loop(n, totalFrames)|
      ensures !IsTerminal(Loop(n, totalFrames)[i].status)
    {
      assert IsReport(Loop(n, totalFrames)[i], n, totalFrames);
    }
  }

  /**
   * Whatever happens, the worker first writes starting 0, its last record is
   * the only terminal one (completed or error), and an error record has
   * progress 0 and a message.
   */
  lemma DeblurTraceEnds(req: EnhanceRequest, env: DeblurEnv)
    ensures DeblurTrace(req, env)[0] == Progress(0, Starting)
    ensures Ends(DeblurTrace(req, env))
  {
    var head := [Progress(0, Starting)];
    if !env.videoExists {
      EndsAfter(head, [Failed(VideoNotFound)]);
    } else {
      var mid := [Progress(5, LoadingModel)];
      ModelStageEnds(req, env);
      EndsAfter(mid, ModelStage(req, env));
      EndsAfter(head, mid + ModelStage(req, env));
      assert DeblurTrace(req, env) == head + (mid + ModelStage(req, env));
    }
  }

  lemma ModelStageEnds(req: EnhanceRequest, env: DeblurEnv)
    ensures Ends(ModelStage(req, env))
  {
    if !env.modelAvailable {
      var f := FfmpegTrace(req, env);
      assert f[..|f| - 1] == [Progress(20, FfmpegProcessing)];
    } else {
      VideoStageEnds(req, env);
      EndsAfter([Progress(10, ReadingVideo)], VideoStage(req, env));
    }
  }

  lemma VideoStageEnds(req: EnhanceRequest, env: DeblurEnv)
    ensures Ends(VideoStage(req, env))
  {
    if env.videoOpens {
      var loop := FrameLoop(env.framesRead, env.totalFrames);
      var after := AfterFrames(req, env, loop.raised, loop.framesWritten);
      assert Ends(after) by {
        if loop.raised.None? {
          assert after[..|after| - 1] == [Progress(95, Encoding)];
        }
      }
      LoopRunning(env.framesRead, env.totalFrames);
      RunningConcat([Progress(15, ProcessingFrames)], loop.writes);
      EndsAfter([Progress(15, ProcessingFrames)] + loop.writes, after);
    }
  }

  /** The encoded video's completed record on the AI path. */
  function Done(req: EnhanceRequest, env: DeblurEnv, frames: nat): JobRecord
  {
    JobRecord(100.0, Completed, EnhanceDone(Naming.Join(env.framesDir, EnhancedOutputName), req.qualityMode, frames))
  }

  /**
   * The AI path with a video, a model, an opened stream and a working
   * encoder, when no more frames are read than announced: progress never
   * decreases (0, 5, 10, 15, the frame reports, 95, 100) and the job
   * completes reporting every frame read.
   */
  lemma DeblurHappyPath(req: EnhanceRequest, env: DeblurEnv)
    requires env.videoExists && env.modelAvailable && env.videoOpens && env.encodeError == None
    requires env.framesRead <= env.totalFrames
    ensures NonDecreasing(DeblurTrace(req, env))
    ensures LastRecord(DeblurTrace(req, env)) == Done(req, env, env.framesRead)
  {
    var n, t := env.framesRead, env.totalFrames;
    HappyShape(req, env);
    FrameLoopMonotone(n, t);
    var ws := Loop(n, t);
    assert AtLeast(ws, 15.0) && AtMost(ws, 90.0);
    HappyOrder(ws, Done(req, env, n));
  }

  /** 0, 5, 10, 15, reports within [15, 90] in order, 95, 100 never decreases. */
  lemma HappyOrder(ws: seq<JobRecord>, done: JobRecord)
    requires NonDecreasing(ws) && AtLeast(ws, 15.0) && AtMost(ws, 90.0) && done.progress == 100.0
    ensures NonDecreasing(
      [Progress(0, Starting), Progress(5, LoadingModel), Progress(10, ReadingVideo), Progress(15, ProcessingFrames)]
      + ws + [Progress(95, Encoding), done])
  {
    var head := [Progress(0, Starting), Progress(5, LoadingModel), Progress(10, ReadingVideo), Progress(15, ProcessingFrames)];
    var tail := [Progress(95, Encoding), done];
    assert NonDecreasing(head) && AtMost(head, 15.0);
    assert NonDecreasing(tail) && AtLeast(tail, 90.0);
    NonDecreasingBetween(head, ws, tail, 15.0, 90.0);
  }

  /** Four records in front of a sequence, in the order DeblurTrace nests them. */
  lemma PrependFour<T>(a: T, b: T, c: T, d: T, w: seq<T>, z: seq<T>)
    ensures [a] + ([b] + ([c] + ([d] + w + z))) == [a, b, c, d] + w + z
  {
  }

  lemma HappyShape(req: EnhanceRequest, env: DeblurEnv)
    requires env.videoExists && env.modelAvailable && env.videoOpens && env.encodeError == None
    requires env.framesRead <= env.totalFrames
    ensures DeblurTrace(req, env) ==
      [Progress(0, Starting), Progress(5, LoadingModel), Progress(10, ReadingVideo), Progress(15, ProcessingFrames)]
      + Loop(env.framesRead, env.totalFrames) + [Progress(95, Encoding), Done(req, env, env.framesRead)]
  {
    var n, t := env.framesRead, env.totalFrames;
    FrameLoopRaises(n, t);
    var loop := FrameLoop(n, t);
    var tail := [Progress(95, Encoding), Done(req, env, n)];
    assert AfterFrames(req, env, loop.raised, loop.framesWritten) == tail;
    var f := FramesStage(req, env);
    assert f == [Progress(15, ProcessingFrames)] + loop.writes + tail;
    var m := ModelStage(req, env);
    assert m == [Progress(10, ReadingVideo)] + f;
    assert DeblurTrace(req, env) == [Progress(0, Starting)] + ([Progress(5, LoadingModel)] + m);
    PrependFour(Progress(0, Starting), Progress(5, LoadingModel), Progress(10, ReadingVideo),
                Progress(15, ProcessingFrames), loop.writes, tail);
  }

  /**
   * Progress can go backwards when the container under-reports its frame
   * count: with one frame announced and ten read, frame 1 reports 90, frame
   * 10 reports 15 + 750 = 765, and encoding then writes 95.
   */
  lemma UnderreportedTotalOvershoots(req: EnhanceRequest, env: DeblurEnv)
    requires env.videoExists && env.modelAvailable && env.videoOpens
    requires env.totalFrames == 1 && env.framesRead == 10
    ensures !NonDecreasing(DeblurTrace(req, env))
    ensures exists i :: 0 <= i < |DeblurTrace(req, env)| && DeblurTrace(req, env)[i].progress == 765.0
  {
    assert FrameProgress(1, 1) == Ok(90);
    assert FrameProgress(10, 1) == Ok(765);
    var r1 := Report(1, 1, 90);
    assert FrameLoop(1, 1) == LoopOutcome([r1], None, 1);
    assert FrameLoop(2, 1) == LoopOutcome([r1], None, 2);
    assert FrameLoop(3, 1) == LoopOutcome([r1], None, 3);
    assert FrameLoop(4, 1) == LoopOutcome([r1], None, 4);
    assert FrameLoop(5, 1) == LoopOutcome([r1], None, 5);
    assert FrameLoop(6, 1) == LoopOutcome([r1], None, 6);
    assert FrameLoop(7, 1) == LoopOutcome([r1], None, 7);
    assert FrameLoop(8, 1) == LoopOutcome([r1], None, 8);
    assert FrameLoop(9, 1) == LoopOutcome([r1], None, 9);
    var r10 := Report(10, 1, 765);
    assert FrameLoop(10, 1) == LoopOutcome([r1, r10], None, 10);
    var tr := DeblurTrace(req, env);
    assert tr[5] == r10 && tr[6] == Progress(95, Encoding);
  }

  /**
   * A negative frame count passes through unchecked: every report then lies
   * at or below the processing_frames record of 15, since k / t * 75 is not
   * positive and int() truncates it toward zero.
   */
  lemma NegativeTotalProgress(k: nat, t: int)
    requires t < 0
    ensures FrameProgress(k, t).Ok?
    ensures FrameProgress(k, t).value <= 15
  {
    var x := (k as real / t as real) * 75.0;
    assert k as real / t as real == -(k as real / (-t) as real);
    assert x <= 0.0;
  }

  /** With a frame count of -1 and ten frames read, the tenth frame reports -735 right after 15. */
  lemma NegativeTotalReportsBelowZero(req: EnhanceRequest, env: DeblurEnv)
    requires env.videoExists && env.modelAvailable && env.videoOpens
    requires env.totalFrames == -1 && env.framesRead == 10
    ensures DeblurTrace(req, env)[3] == Progress(15, ProcessingFrames)
    ensures DeblurTrace(req, env)[4] == Report(10, -1, -735)
    ensures DeblurTrace(req, env)[4].progress < 0.0
  {
    assert (10 as real / -1 as real) * 75.0 == -750.0;
    assert FrameProgress(10, -1) == Ok(-735);
    assert FrameLoop(1, -1) == LoopOutcome([], None, 1);
    assert FrameLoop(2, -1) == LoopOutcome([], None, 2);
    assert FrameLoop(3, -1) == LoopOutcome([], None, 3);
    assert FrameLoop(4, -1) == LoopOutcome([], None, 4);
    assert FrameLoop(5, -1) == LoopOutcome([], None, 5);
    assert FrameLoop(6, -1) == LoopOutcome([], None, 6);
    assert FrameLoop(7, -1) == LoopOutcome([], None, 7);
    assert FrameLoop(8, -1) == LoopOutcome([], None, 8);
    assert FrameLoop(9, -1) == LoopOutcome([], None, 9);
    var r10 := Report(10, -1, -735);
    assert FrameLoop(10, -1) == LoopOutcome([r10], None, 10);
  }

  lemma MulLe(x: int, y: int, t: int)
    requires x <= y && t > 0
    ensures x * t <= y * t
  {
    assert y * t - x * t == (y - x) * t;
  }

  /** a div t reaches c exactly when a reaches c * t. */
  lemma DivAtLeast(a: int, t: int, c: int)
    requires a >= 0 && t > 0
    ensures a / t >= c <==> a >= c * t
  {
    var q := a / t;
    assert q * t <= a < q * t + t;
    if q >= c {
      MulLe(c, q, t);
    } else {
      MulLe(q + 1, c, t);
      assert (q + 1) * t == q * t + t;
    }
  }

  /**
   * A frame report is never above 90 while the frame is within the announced
   * total; beyond it, the report exceeds the encoding record of 95 that comes
   * after the loop exactly when 75 * k >= 81 * t.
   */
  lemma ReportAboveEncoding(k: nat, t: int)
    requires t > 0
    ensures FrameProgress(k, t).Ok?
    ensures k <= t ==> FrameProgress(k, t).value <= 90
    ensures FrameProgress(k, t).value > 95 <==> 75 * k >= 81 * t
  {
    FrameProgressExact(k, t);
    DivAtLeast(75 * k, t, 81);
    DivAtLeast(75 * k, t, 76);
    if k <= t {
      MulLe(k, t, 75);
      MulLe(75, 76, t);
    }
  }

  /**
   * The failure records: a missing file gives exactly "Video file not found"
   * right after starting; a stream that does not open gives "Failed to open
   * video" right after reading_video, before any frame is processed.
   */
  lemma DeblurEarlyFailures(req: EnhanceRequest, env: DeblurEnv)
    ensures !env.videoExists ==>
      DeblurTrace(req, env) == [Progress(0, Starting), Failed(VideoNotFound)]
    ensures env.videoExists && env.modelAvailable && !env.videoOpens ==>
      DeblurTrace(req, env) ==
        [Progress(0, Starting), Progress(5, LoadingModel), Progress(10, ReadingVideo), Failed(OpenFailed)]
  {
  }

  /**
   * Without a model the job goes loading_model 5, ffmpeg_processing 20 and
   * then completed 100 with method "ffmpeg_unsharp" and an output file named
   * enhanced_<stem>.mp4 next to the input, or error with the encoder's message.
   */
  lemma DeblurFallbackPath(req: EnhanceRequest, env: DeblurEnv)
    requires env.videoExists && !env.modelAvailable
    ensures env.unsharpError.None? ==>
      && DeblurTrace(req, env) == [Progress(0, Starting), Progress(5, LoadingModel), Progress(20, FfmpegProcessing),
                                   JobRecord(100.0, Completed, UnsharpDone(Naming.FallbackOutputPath(req.videoPath), req.qualityMode, UnsharpMethod))]
      && NonDecreasing(DeblurTrace(req, env))
    ensures env.unsharpError.Some? ==>
      DeblurTrace(req, env) == [Progress(0, Starting), Progress(5, LoadingModel), Progress(20, FfmpegProcessing),
                                Failed(env.unsharpError.value)]
    ensures Naming.Parent(Naming.FallbackOutputPath(req.videoPath)) == Naming.Parent(req.videoPath)
    ensures Naming.Name(Naming.FallbackOutputPath(req.videoPath)) ==
      "enhanced_" + Naming.Stem(Naming.Name(req.videoPath)) + ".mp4"
  {
    Naming.FallbackOutputInSameDirectory(req.videoPath);
  }

  /**
   * With no frame count known the loop fails at the tenth frame with
   * "division by zero" after ten frame files; a video of fewer than ten
   * frames completes without any frame report.
   */
  lemma DeblurZeroTotal(req: EnhanceRequest, env: DeblurEnv)
    requires env.videoExists && env.modelAvailable && env.videoOpens && env.totalFrames == 0
    ensures env.framesRead >= 10 ==>
      LastRecord(DeblurTrace(req, env)) == Failed(DivisionByZero) && FramesWritten(env) == 10
    ensures env.framesRead < 10 && env.encodeError == None ==>
      DeblurTrace(req, env) ==
        [Progress(0, Starting), Progress(5, LoadingModel), Progress(10, ReadingVideo),
         Progress(15, ProcessingFrames), Progress(95, Encoding), Done(req, env, env.framesRead)]
  {
    FrameLoopRaises(env.framesRead, 0);
    if env.framesRead < 10 {
      NoReportBelowTen(env.framesRead);
    }
  }

  lemma {:induction false} NoReportBelowTen(n: nat)
    requires n < 10
    ensures Loop(n, 0) == []
  {
    if n > 0 {
      NoReportBelowTen(n - 1);
      FrameLoopRaises(n - 1, 0);
    }
  }

  /** Whenever the AI path completes, frames_processed is the number of frames read. */
  lemma DeblurCompletedCountsFrames(req: EnhanceRequest, env: DeblurEnv)
    requires env.videoExists && env.modelAvailable
    requires LastRecord(DeblurTrace(req, env)).status == Completed
    ensures LastRecord(DeblurTrace(req, env)) == Done(req, env, env.framesRead)
  {
    FrameLoopRaises(env.framesRead, env.totalFrames);
  }

  // ----- The service's methods -----

  /** POST /enhance: record starting 0 under the chosen id and answer "queued"; the worker runs after. */
  method Enhance(store: JobStore, req: EnhanceRequest, freshId: string) returns (resp: SubmitResponse)
    requires store.Valid()
    modifies store
    ensures store.Valid()
    ensures resp == SubmitResponse(ChooseJobId(req.jobId, freshId), "queued")
    ensures store.jobs == old(store.jobs)[resp.jobId := Progress(0, Starting)]
    ensures store.log == old(store.log) + [Write(resp.jobId, Progress(0, Starting))]
  {
    var jobId := ChooseJobId(req.jobId, freshId);
    store.Update(jobId, 0.0, Starting, NoResult);
    resp := SubmitResponse(jobId, "queued");
  }

  /** The frame loop of _do_enhance: read, enhance, save, count, and report every tenth and the last frame. */
  method ProcessFrames(store: JobStore, jobId: string, env: DeblurEnv)
    returns (frameIdx: nat, raised: Option<string>, frameFiles: seq<string>)
    modifies store
    ensures store.log == old(store.log) + WritesFor(jobId, Loop(env.framesRead, env.totalFrames))
    ensures Loop(env.framesRead, env.totalFrames) == [] ==> store.jobs == old(store.jobs)
    ensures Loop(env.framesRead, env.totalFrames) != [] ==>
      store.jobs == old(store.jobs)[jobId := LastRecord(Loop(env.framesRead, env.totalFrames))]
    ensures LoopOutcome(Loop(env.framesRead, env.totalFrames), raised, frameIdx)
            == FrameLoop(env.framesRead, env.totalFrames)
    ensures frameFiles == FramePaths(env.framesDir, frameIdx)
  {
    var t := env.totalFrames;
    frameIdx, raised, frameFiles := 0, None, [];
    ghost var ws: seq<JobRecord> := [];
    while frameIdx < env.framesRead && raised == None
      invariant frameIdx <= env.framesRead
      invariant FrameLoop(frameIdx, t) == LoopOutcome(ws, raised, frameIdx)
      invariant frameFiles == FramePaths(env.framesDir, frameIdx)
      invariant store.log == old(store.log) + WritesFor(jobId, ws)
      invariant ws == [] ==> store.jobs == old(store.jobs)
      invariant ws != [] ==> store.jobs == old(store.jobs)[jobId := LastRecord(ws)]
      decreases env.framesRead - frameIdx
    {
      assert FramePaths(env.framesDir, frameIdx + 1)
          == FramePaths(env.framesDir, frameIdx) + [Naming.Join(env.framesDir, Naming.FrameFileName(frameIdx))];
      frameFiles := frameFiles + [Naming.Join(env.framesDir, Naming.FrameFileName(frameIdx))];
      ghost var ws0 := ws;
      raised, ws := ProcessFrame(store, jobId, env, frameIdx, old(store.log), ws);
      if ws != ws0 && ws0 != [] {
        UpdateTwice(old(store.jobs), jobId, LastRecord(ws0), LastRecord(ws));
      }
      frameIdx := frameIdx + 1;
    }
    if raised.Some? {
      FrameLoopStops(frameIdx, env.framesRead, t);
    }
  }

  /**
   * The loop body for the frame after frameIdx: once the frame is saved and
   * counted, a report is due at every tenth and at the last expected frame;
   * with no total known it raises instead of reporting.
   */
  method ProcessFrame(store: JobStore, jobId: string, env: DeblurEnv, frameIdx: nat,
                      ghost base: seq<Write>, ghost ws: seq<JobRecord>)
    returns (raised: Option<string>, ghost ws': seq<JobRecord>)
    requires FrameLoop(frameIdx, env.totalFrames) == LoopOutcome(ws, None, frameIdx)
    requires store.log == base + WritesFor(jobId, ws)
    modifies store
    ensures FrameLoop(frameIdx + 1, env.totalFrames) == LoopOutcome(ws', raised, frameIdx + 1)
    ensures store.log == base + WritesFor(jobId, ws')
    ensures ws' == ws ==> store.jobs == old(store.jobs)
    ensures ws' != ws ==> ws' != [] && store.jobs == old(store.jobs)[jobId := LastRecord(ws')]
  {
    var t := env.totalFrames;
    var n := frameIdx + 1;
    raised, ws' := None, ws;
    if n % 10 == 0 || n == t {
      if t == 0 {
        raised := Some(DivisionByZero);
      } else {
        var progress := 15 + Trunc((n as real / t as real) * 75.0);
        var r := Report(n, t, progress);
        store.Append(jobId, r, base, ws);
        ws' := ws + [r];
      }
    }
  }

  /**
   * _do_ffmpeg_enhance: the fallback unsharp filter run by the encoder on the
   * whole video. The luma amount it passes follows the quality mode, while
   * the encoder itself always gets the balanced crf and preset.
   */
  method DoFfmpegEnhance(store: JobStore, jobId: string, req: EnhanceRequest, env: DeblurEnv)
    returns (amount: string, encoder: EncoderSettings)
    modifies store
    ensures amount == UnsharpAmount(req.qualityMode)
    ensures encoder == Encoder("balanced")
    ensures store.log == old(store.log) + WritesFor(jobId, FfmpegTrace(req, env))
    ensures store.jobs == old(store.jobs)[jobId := LastRecord(FfmpegTrace(req, env))]
  {
    var outputPath := Naming.FallbackOutputPath(req.videoPath);
    var r0 := Progress(20, FfmpegProcessing);
    store.Append(jobId, r0, old(store.log), []);
    if req.qualityMode == "best" {
      amount := "2.0";
    } else if req.qualityMode == "fast" {
      amount := "1.0";
    } else {
      amount := "1.5";
    }
    encoder := EncoderSettings("23", "fast");
    var r1;
    match env.unsharpError {
      case Some(m) => r1 := Failed(m);
      case None => r1 := JobRecord(100.0, Completed, UnsharpDone(outputPath, req.qualityMode, UnsharpMethod));
    }
    store.Append(jobId, r1, old(store.log), [r0]);
    assert FfmpegTrace(req, env) == [r0] + [r1];
  }

  /**
   * _do_enhance: the worker writes exactly DeblurTrace for its job, the job
   * ends holding its last record, and the frame files it saves are
   * frame_00000000.png, frame_00000001.png, ... in the frame directory.
   */
  method DoEnhance(store: JobStore, jobId: string, req: EnhanceRequest, env: DeblurEnv)
    returns (frameFiles: seq<string>, ffmpeg: Option<FfmpegRun>)
    requires store.Valid()
    modifies store
    ensures ffmpeg == (if !env.videoExists then None
                       else if !env.modelAvailable then
                         Some(FfmpegRun(Encoder("balanced"), Some(UnsharpAmount(req.qualityMode))))
                       else if env.videoOpens && FrameLoop(env.framesRead, env.totalFrames).raised.None? then
                         Some(FfmpegRun(Encoder(req.qualityMode), None))
                       else None)
    ensures store.Valid()
    ensures store.log == old(store.log) + WritesFor(jobId, DeblurTrace(req, env))
    ensures store.jobs == old(store.jobs)[jobId := LastRecord(DeblurTrace(req, env))]
    ensures frameFiles == FramePaths(env.framesDir, FramesWritten(env))
  {
    frameFiles, ffmpeg := [], None;
    ghost var base := old(store.log);
    ghost var J := old(store.jobs);
    ghost var trace := DeblurTrace(req, env);
    DeblurTraceShape(req, env);
    var r0 := Progress(0, Starting);
    store.Append(jobId, r0, base, []);
    if !env.videoExists {
      store.Append(jobId, Failed(VideoNotFound), base, [r0]);
    } else {
      var r1 := Progress(5, LoadingModel);
      store.Append(jobId, r1, base, [r0]);
      UpdateTwice(J, jobId, r0, r1);
      ghost var stage := ModelStage(req, env);
      if !env.modelAvailable {
        var amount, encoder := DoFfmpegEnhance(store, jobId, req, env);
        ffmpeg := Some(FfmpegRun(encoder, Some(amount)));
      } else {
        var encoder;
        frameFiles, encoder := EnhanceFrames(store, jobId, req, env);
        if encoder.Some? {
          ffmpeg := Some(FfmpegRun(encoder.value, None));
        }
      }
      UpdateTwice(J, jobId, r1, LastRecord(stage));
      WritesForConcat(jobId, [r0, r1], stage);
    }
    assert store.log == base + WritesFor(jobId, trace);
    assert store.jobs == J[jobId := LastRecord(trace)];
    ApplyAllWritesFor(map[], base, jobId, trace);
  }

  /** DeblurTrace branch by branch, in the shape DoEnhance writes it. */
  lemma DeblurTraceShape(req: EnhanceRequest, env: DeblurEnv)
    ensures !env.videoExists ==>
      && DeblurTrace(req, env) == [Progress(0, Starting)] + [Failed(VideoNotFound)]
      && FramesWritten(env) == 0
    ensures env.videoExists ==>
      && DeblurTrace(req, env) == [Progress(0, Starting), Progress(5, LoadingModel)] + ModelStage(req, env)
      && ModelStage(req, env) != []
      && LastRecord(DeblurTrace(req, env)) == LastRecord(ModelStage(req, env))
    ensures env.videoExists && !env.modelAvailable ==> FramesWritten(env) == 0
    ensures env.videoExists && env.modelAvailable && !env.videoOpens ==> FramesWritten(env) == 0
    ensures env.videoExists && env.modelAvailable && env.videoOpens ==>
      FramesWritten(env) == FrameLoop(env.framesRead, env.totalFrames).framesWritten
  {
    if env.videoExists {
      var d := DeblurTrace(req, env);
      assert d == [Progress(0, Starting), Progress(5, LoadingModel)] + ModelStage(req, env);
      assert d[|d| - 1] == ModelStage(req, env)[|ModelStage(req, env)| - 1];
    }
  }

  /** ModelStage branch by branch, in the shape EnhanceFrames writes it. */
  lemma ModelStageShape(req: EnhanceRequest, env: DeblurEnv)
    requires env.modelAvailable
    ensures !env.videoOpens ==> ModelStage(req, env) == [Progress(10, ReadingVideo)] + [Failed(OpenFailed)]
    ensures env.videoOpens ==>
      var loop := FrameLoop(env.framesRead, env.totalFrames);
      && ModelStage(req, env) == [Progress(10, ReadingVideo), Progress(15, ProcessingFrames)] + loop.writes
                                 + AfterFrames(req, env, loop.raised, loop.framesWritten)
      && LastRecord(ModelStage(req, env)) == LastRecord(AfterFrames(req, env, loop.raised, loop.framesWritten))
  {
    if env.videoOpens {
      var loop := FrameLoop(env.framesRead, env.totalFrames);
      var after := AfterFrames(req, env, loop.raised, loop.framesWritten);
      var m := ModelStage(req, env);
      assert m == ([Progress(10, ReadingVideo), Progress(15, ProcessingFrames)] + loop.writes) + after;
      assert m[|m| - 1] == after[|after| - 1];
    }
  }

  /** _do_enhance once the model is loaded: open the video, then process it. */
  method EnhanceFrames(store: JobStore, jobId: string, req: EnhanceRequest, env: DeblurEnv)
    returns (frameFiles: seq<string>, encoder: Option<EncoderSettings>)
    requires env.modelAvailable
    modifies store
    ensures encoder == (if env.videoOpens && FrameLoop(env.framesRead, env.totalFrames).raised.None?
                        then Some(Encoder(req.qualityMode)) else None)
    ensures store.log == old(store.log) + WritesFor(jobId, ModelStage(req, env))
    ensures store.jobs == old(store.jobs)[jobId := LastRecord(ModelStage(req, env))]
    ensures frameFiles == (if env.videoOpens then FramePaths(env.framesDir, FrameLoop(env.framesRead, env.totalFrames).framesWritten) else [])
  {
    frameFiles, encoder := [], None;
    ghost var base := old(store.log);
    ghost var J := old(store.jobs);
    var r0 := Progress(10, ReadingVideo);
    store.Append(jobId, r0, base, []);
    if !env.videoOpens {
      store.Append(jobId, Failed(OpenFailed), base, [r0]);
      UpdateTwice(J, jobId, r0, Failed(OpenFailed));
      return;
    }
    frameFiles, encoder := ProcessVideo(store, jobId, req, env, base, [r0]);
    ghost var f := FramesStage(req, env);
    UpdateTwice(J, jobId, r0, LastRecord(f));
    assert ModelStage(req, env) == [r0] + f;
    assert LastRecord(ModelStage(req, env)) == LastRecord(f);
  }

  /** _do_enhance once the video is open: report processing_frames 15, run the frame loop, encode. */
  method ProcessVideo(store: JobStore, jobId: string, req: EnhanceRequest, env: DeblurEnv,
                      ghost base: seq<Write>, ghost written: seq<JobRecord>)
    returns (frameFiles: seq<string>, encoder: Option<EncoderSettings>)
    requires store.log == base + WritesFor(jobId, written)
    modifies store
    ensures encoder == (if FrameLoop(env.framesRead, env.totalFrames).raised.None?
                        then Some(Encoder(req.qualityMode)) else None)
    ensures store.log == base + WritesFor(jobId, written + FramesStage(req, env))
    ensures store.jobs == old(store.jobs)[jobId := LastRecord(FramesStage(req, env))]
    ensures frameFiles == FramePaths(env.framesDir, FrameLoop(env.framesRead, env.totalFrames).framesWritten)
  {
    ghost var J := old(store.jobs);
    ghost var loop := FrameLoop(env.framesRead, env.totalFrames);
    var r1 := Progress(15, ProcessingFrames);
    store.Append(jobId, r1, base, written);
    var frameIdx, raised;
    frameIdx, raised, frameFiles := ProcessFrames(store, jobId, env);
    WritesForConcat(jobId, written + [r1], loop.writes);
    ghost var w := written + [r1] + loop.writes;
    encoder := EncodeStage(store, jobId, req, env, raised, frameIdx, base, w);
    ghost var after := AfterFrames(req, env, raised, frameIdx);
    if loop.writes == [] {
      UpdateTwice(J, jobId, r1, LastRecord(after));
    } else {
      UpdateTwice(J[jobId := r1], jobId, LastRecord(loop.writes), LastRecord(after));
      UpdateTwice(J, jobId, r1, LastRecord(after));
    }
    FramesStageShape(req, env);
    assert w + after == written + FramesStage(req, env);
  }

  lemma FramesStageShape(req: EnhanceRequest, env: DeblurEnv)
    ensures var loop := FrameLoop(env.framesRead, env.totalFrames);
      && FramesStage(req, env) == [Progress(15, ProcessingFrames)] + loop.writes
                                   + AfterFrames(req, env, loop.raised, loop.framesWritten)
      && LastRecord(FramesStage(req, env)) == LastRecord(AfterFrames(req, env, loop.raised, loop.framesWritten))
  {
    var loop := FrameLoop(env.framesRead, env.totalFrames);
    var after := AfterFrames(req, env, loop.raised, loop.framesWritten);
    var f := FramesStage(req, env);
    assert f == ([Progress(15, ProcessingFrames)] + loop.writes) + after;
    assert f[|f| - 1] == after[|after| - 1];
  }

  /**
   * The end of _do_enhance after the frame loop: the loop's exception, or
   * encoding 95 and the encoder's outcome. The encoder runs only when the loop
   * did not raise, and then with the crf and preset of the quality mode.
   */
  method EncodeStage(store: JobStore, jobId: string, req: EnhanceRequest, env: DeblurEnv,
                     raised: Option<string>, frames: nat, ghost base: seq<Write>, ghost written: seq<JobRecord>)
    returns (encoder: Option<EncoderSettings>)
    requires store.log == base + WritesFor(jobId, written)
    modifies store
    ensures encoder == if raised.None? then Some(Encoder(req.qualityMode)) else None
    ensures store.log == base + WritesFor(jobId, written + AfterFrames(req, env, raised, frames))
    ensures store.jobs == old(store.jobs)[jobId := LastRecord(AfterFrames(req, env, raised, frames))]
  {
    if raised.Some? {
      store.Append(jobId, Failed(raised.value), base, written);
      return None;
    }
    var r := Progress(95, Encoding);
    store.Append(jobId, r, base, written);
    var crf, preset;
    if req.qualityMode == "best" {
      crf, preset := "18", "slow";
    } else if req.qualityMode == "fast" {
      crf, preset := "28", "veryfast";
    } else {
      crf, preset := "23", "fast";
    }
    encoder := Some(EncoderSettings(crf, preset));
    var last;
    match env.encodeError {
      case Some(m) => last := Failed(m);
      case None => last := Done(req, env, frames);
    }
    store.Append(jobId, last, base, written + [r]);
    UpdateTwice(old(store.jobs), jobId, r, last);
    assert written + [r] + [last] == written + AfterFrames(req, env, raised, frames);
  }

  /** Every written frame file is what the encoder's frame_%08d.png input pattern names for that index. */
  lemma FramePathsMatchEncoderInput(framesDir: string, n: nat, k: nat)
    requires k < n
    ensures Naming.Expand(Naming.FramePattern, k, false) == Some(Naming.FrameFileName(k))
    ensures FramePaths(framesDir, n)[k] == Naming.Join(framesDir, Naming.FrameFileName(k))
  {
    Naming.FramePatternExpands(k);
  }
}
