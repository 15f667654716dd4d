/**
 * The text-to-video service: the generation request, the choices made from it
 * (frame count, negative prompt, device, dtype and placement, the arguments of
 * the pipeline call), and the records the worker writes for its job id, in
 * order, for every outcome of the steps it cannot see into (model loading,
 * the denoising run, video export).
 */
module Wan {
  import opened Wrappers
  import opened Jobs
  import Naming

  // ----- The request and what is derived from it -----

  const ImageToVideo := "image-to-video"
  const TextToVideo := "text-to-video"

  /** The body of POST /generate, with its defaults. */
  datatype GenerateRequest = GenerateRequest(
    mode: string,                    // "text-to-video" (default) or "image-to-video"
    prompt: string,
    negativePrompt: Option<string>,
    imagePath: Option<string>,       // accepted but never read
    duration: int,                   // seconds: 3, 5 (default) or 8
    guidanceScale: real,             // 6.0 by default
    useCuda: bool,                   // true by default
    lowVram: bool,                   // false by default
    jobId: Option<string>)

  /** The request with every optional field at its default. */
  function DefaultRequest(prompt: string): (r: GenerateRequest)
    ensures r.mode == TextToVideo && r.duration == 5 && r.guidanceScale == 6.0
    ensures r.useCuda && !r.lowVram && r.negativePrompt.None? && r.jobId.None?
  {
    GenerateRequest(TextToVideo, prompt, None, None, 5, 6.0, true, false, None)
  }

  /** Duration in seconds to number of frames. */
  const DurationToFrames: map<int, int> := map[3 := 45, 5 := 81, 8 := 129]

  /** DURATION_TO_FRAMES.get(duration, 81) */
  function NumFrames(duration: int): int
  {
    if duration in DurationToFrames then DurationToFrames[duration] else 81
  }

  /**
   * The frame count is one of the three table values; 3 and 8 seconds map
   * to 45 and 129 frames, and every other duration, asked for or not, to
   * the 81 of the 5-second default.
   */
  lemma NumFramesSpec(duration: int)
    ensures NumFrames(duration) in {45, 81, 129}
    ensures NumFrames(duration) == 45 <==> duration == 3
    ensures NumFrames(duration) == 129 <==> duration == 8
    ensures NumFrames(duration) == 81 <==> duration != 3 && duration != 8
    ensures NumFrames(DefaultRequest([]).duration) == 81
  {
  }

  const DefaultNegativePrompt :=
    "Bright tones, overexposed, static, blurred details, subtitles, style, works, "
    + "paintings, images, static, overall gray, worst quality, low quality, JPEG compression "
    + "residue, ugly, incomplete, extra fingers, poorly drawn hands, poorly drawn faces, "
    + "deformed, disfigured, misshapen limbs, fused fingers, still picture, messy background, "
    + "three legs, many people in the background, walking backwards"

  /** `req.negative_prompt or DEFAULT_NEGATIVE_PROMPT`: None and "" both fall back. */
  function NegativePrompt(requested: Option<string>): (r: string)
    ensures requested.Some? && requested.value != "" ==> r == requested.value
    ensures requested.None? || requested.value == "" ==> r == DefaultNegativePrompt
    ensures r != ""
  {
    match requested
    case Some(p) => if p != "" then p else DefaultNegativePrompt
    case None => DefaultNegativePrompt
  }

  const ImageToVideoUnsupported := "Image-to-Video requires 14B model. Use Text-to-Video for now."

  // ----- The pipeline -----

  datatype Device = Cuda | Cpu
  datatype DType = BFloat16 | Float32
  /** Where the pipeline's weights live: on the device, or offloaded to the CPU between uses. */
  datatype Placement = OnDevice | CpuOffload

  /** The loaded pipeline: its device, its weights' dtype, its placement; the VAE is always float32. */
  datatype Pipeline = Pipeline(device: Device, dtype: DType, placement: Placement, vaeDtype: DType)

  const ModelId := "Wan-AI/Wan2.1-T2V-1.3B-Diffusers"

  /** The pipeline's setup as chosen from the request and whether CUDA is available. */
  function PipelineSetup(useCuda: bool, cudaAvailable: bool, lowVram: bool): Pipeline
  {
    var device := if useCuda && cudaAvailable then Cuda else Cpu;
    Pipeline(device,
             if device == Cuda then BFloat16 else Float32,
             if device == Cuda && lowVram then CpuOffload else OnDevice,
             Float32)
  }

  /**
   * CUDA is used exactly when asked for and available; bfloat16 exactly on
   * CUDA; CPU offload exactly on CUDA in low-VRAM mode, so that low_vram
   * has no effect on the CPU.
   */
  lemma PipelineSetupSpec(useCuda: bool, cudaAvailable: bool, lowVram: bool)
    ensures var p := PipelineSetup(useCuda, cudaAvailable, lowVram);
      && (p.device == Cuda <==> useCuda && cudaAvailable)
      && (p.dtype == BFloat16 <==> p.device == Cuda)
      && (p.placement == CpuOffload <==> p.device == Cuda && lowVram)
      && p.vaeDtype == Float32
    ensures !(useCuda && cudaAvailable) ==>
      PipelineSetup(useCuda, cudaAvailable, lowVram) == PipelineSetup(useCuda, cudaAvailable, !lowVram)
  {
  }

  const Height := 480
  const Width := 832
  /** WanPipeline's default number of denoising steps. */
  const InferenceSteps := 50
  const OutputName := "output.mp4"

  /** The arguments of the pipeline call. */
  datatype InferenceCall = InferenceCall(
    prompt: string, negativePrompt: string, height: int, width: int,
    numFrames: int, guidanceScale: real, steps: int)

  function PipelineCall(req: GenerateRequest): (c: InferenceCall)
    ensures c.prompt == req.prompt && c.guidanceScale == req.guidanceScale
    ensures c.negativePrompt == NegativePrompt(req.negativePrompt)
    ensures c.numFrames == NumFrames(req.duration)
    ensures c.height == 480 && c.width == 832 && c.steps == 50
  {
    InferenceCall(req.prompt, NegativePrompt(req.negativePrompt), Height, Width,
                  NumFrames(req.duration), req.guidanceScale, InferenceSteps)
  }

  // ----- Progress during denoising -----

  /** 15 + (step_index + 1) / 50 * (90 - 15) */
  function StepProgress(stepIndex: int): real
  {
    15.0 + ((stepIndex + 1) as real / InferenceSteps as real) * (90.0 - 15.0)
  }

  /**
   * Each step's report lies in (15, 90], later steps report strictly more,
   * and the last step reports exactly 90, the value the encoding record
   * then repeats.
   */
  lemma StepProgressSpec(s: int, t: int)
    requires 0 <= s < InferenceSteps
    ensures 15.0 < StepProgress(s) <= 90.0
    ensures s < t ==> StepProgress(s) < StepProgress(t)
    ensures StepProgress(s) == 90.0 <==> s == InferenceSteps - 1
  {
  }

  /** The record progress_callback writes after a step. */
  function StepRecord(stepIndex: int): JobRecord
  {
    JobRecord(StepProgress(stepIndex), Generating, NoResult)
  }

  /** The callback's records after the first n steps. */
  function StepWrites(n: nat): (r: seq<JobRecord>)
    ensures |r| == n
    ensures forall s :: 0 <= s < n ==> r[s] == StepRecord(s)
  {
    seq(n, s requires 0 <= s < n => StepRecord(s))
  }

  /** The step reports of a run of at most 50 steps never decrease and stay within (15, 90]. */
  lemma StepWritesBounds(n: nat)
    requires n <= InferenceSteps
    ensures NonDecreasing(StepWrites(n)) && Running(StepWrites(n))
    ensures AtLeast(StepWrites(n), 15.0) && AtMost(StepWrites(n), 90.0)
  {
    var w := StepWrites(n);
    forall i, j | 0 <= i < j < n
      ensures w[i].progress <= w[j].progress
    {
      StepProgressSpec(i, j);
    }
    forall i | 0 <= i < n
      ensures 15.0 <= w[i].progress <= 90.0
    {
      StepProgressSpec(i, i);
    }
  }

  // ----- The worker -----

  /** What the worker cannot see into, as the outcomes it observes. */
  datatype WanEnv = WanEnv(
    cudaAvailable: bool,             // torch.cuda.is_available()
    loadError: Option<string>,       // message of a failure importing or loading the pipeline
    outputDir: string,               // the directory tempfile.mkdtemp(prefix="wan_gen_") made
    stepsCompleted: nat,             // steps finished before inferenceError was raised
    inferenceError: Option<string>,  // message of a failure during or after the denoising run
    exportError: Option<string>)     // message of export_to_video's failure

  /** How many times the pipeline calls progress_callback: every step, or those finished before it failed. */
  function StepsRun(env: WanEnv): nat
  {
    if env.inferenceError.None? then InferenceSteps
    else if env.stepsCompleted < InferenceSteps then env.stepsCompleted
    else InferenceSteps
  }

  function OutputPath(env: WanEnv): string
  {
    Naming.Join(env.outputDir, OutputName)
  }

  function Completion(req: GenerateRequest, env: WanEnv): JobRecord
  {
    JobRecord(100.0, Completed, VideoDone(OutputPath(env), NumFrames(req.duration)))
  }

  /** _run_t2v_inference: every record the worker writes for its job, in order. */
  function WanTrace(req: GenerateRequest, env: WanEnv): seq<JobRecord>
  {
    [Progress(0, Starting)] +
    if req.mode == ImageToVideo then [Failed(ImageToVideoUnsupported)]
    else [Progress(5, LoadingModel)] + LoadStage(req, env)
  }

  /** After loading_model: the loading failure, or generating 15, the step reports and the end. */
  function LoadStage(req: GenerateRequest, env: WanEnv): seq<JobRecord>
  {
    match env.loadError
    case Some(m) => [Failed(m)]
    case None => [Progress(15, Generating)] + StepWrites(StepsRun(env)) + GenTail(req, env)
  }

  /** After the steps: the inference failure, or encoding 90 and the export's outcome. */
  function GenTail(req: GenerateRequest, env: WanEnv): seq<JobRecord>
  {
    match env.inferenceError
    case Some(m) => [Failed(m)]
    case None =>
      [Progress(90, Encoding)] +
      match env.exportError
      case Some(m) => [Failed(m)]
      case None => [Completion(req, env)]
  }

  // ----- What the trace promises -----

  lemma GenTailEnds(req: GenerateRequest, env: WanEnv)
    ensures Ends(GenTail(req, env))
  {
    if env.inferenceError.None? {
      var g := GenTail(req, env);
      assert g[..|g| - 1] == [Progress(90, Encoding)];
    }
  }

  lemma LoadStageEnds(req: GenerateRequest, env: WanEnv)
    ensures Ends(LoadStage(req, env))
  {
    if env.loadError.None? {
      StepWritesBounds(StepsRun(env));
      GenTailEnds(req, env);
      RunningConcat([Progress(15, Generating)], StepWrites(StepsRun(env)));
      EndsAfter([Progress(15, Generating)] + StepWrites(StepsRun(env)), GenTail(req, env));
    }
  }

  /**
   * Every run starts with starting 0 and ends with exactly one terminal
   * record, completed or an error record at progress 0.
   */
  lemma WanTraceEnds(req: GenerateRequest, env: WanEnv)
    ensures WanTrace(req, env)[0] == Progress(0, Starting)
    ensures Ends(WanTrace(req, env))
  {
    if req.mode != ImageToVideo {
      LoadStageEnds(req, env);
      EndsAfter([Progress(0, Starting), Progress(5, LoadingModel)], LoadStage(req, env));
      assert WanTrace(req, env) == [Progress(0, Starting), Progress(5, LoadingModel)] + LoadStage(req, env);
    }
  }

  /** Image-to-video is refused right after starting: the model is never loaded, for any environment. */
  lemma ImageToVideoRefused(req: GenerateRequest, env: WanEnv)
    ensures req.mode == ImageToVideo ==>
      WanTrace(req, env) == [Progress(0, Starting), Failed(ImageToVideoUnsupported)]
    ensures (exists i :: 0 <= i < |WanTrace(req, env)| && WanTrace(req, env)[i].status == LoadingModel)
            <==> req.mode != ImageToVideo
  {
    var t := WanTrace(req, env);
    if req.mode != ImageToVideo {
      assert t[1] == Progress(5, LoadingModel);
    } else {
      assert forall i :: 0 <= i < |t| ==> t[i].status != LoadingModel;
    }
  }

  /**
   * A text-to-video run with no failure writes starting 0, loading_model 5,
   * generating 15, fifty step reports, encoding 90 and completed 100 with
   * the output path and frame count, and its progress never decreases.
   */
  lemma WanHappyPath(req: GenerateRequest, env: WanEnv)
    requires req.mode != ImageToVideo
    requires env.loadError.None? && env.inferenceError.None? && env.exportError.None?
    ensures WanTrace(req, env) ==
      [Progress(0, Starting), Progress(5, LoadingModel), Progress(15, Generating)]
      + StepWrites(InferenceSteps) + [Progress(90, Encoding), Completion(req, env)]
    ensures |WanTrace(req, env)| == 55
    ensures NonDecreasing(WanTrace(req, env))
    ensures LastRecord(WanTrace(req, env)).result == VideoDone(Naming.Join(env.outputDir, "output.mp4"), NumFrames(req.duration))
  {
    var head := [Progress(0, Starting), Progress(5, LoadingModel), Progress(15, Generating)];
    var steps := StepWrites(InferenceSteps);
    var tail := [Progress(90, Encoding), Completion(req, env)];
    assert GenTail(req, env) == tail;
    assert LoadStage(req, env) == [Progress(15, Generating)] + steps + tail;
    PrependThree(Progress(0, Starting), Progress(5, LoadingModel), Progress(15, Generating), steps, tail);
    StepWritesBounds(InferenceSteps);
    assert NonDecreasing(tail) && AtLeast(tail, 90.0);
    WanOrder(steps, tail);
  }

  /** Three records in front of a sequence, in the order WanTrace nests them. */
  lemma PrependThree<T>(a: T, b: T, c: T, w: seq<T>, z: seq<T>)
    ensures [a] + ([b] + ([c] + w + z)) == [a, b, c] + w + z
  {
  }

  /** 0, 5, 15, step reports within [15, 90] in order, then records from 90 up, never decreases. */
  lemma WanOrder(steps: seq<JobRecord>, tail: seq<JobRecord>)
    requires NonDecreasing(steps) && AtLeast(steps, 15.0) && AtMost(steps, 90.0)
    requires NonDecreasing(tail) && AtLeast(tail, 90.0)
    ensures NonDecreasing([Progress(0, Starting), Progress(5, LoadingModel), Progress(15, Generating)] + steps + tail)
  {
    var head := [Progress(0, Starting), Progress(5, LoadingModel), Progress(15, Generating)];
    assert NonDecreasing(head) && AtMost(head, 15.0);
    NonDecreasingBetween(head, steps, tail, 15.0, 90.0);
  }

  /**
   * On every path, everything before the final record climbs: only the
   * error record, at 0, can go back.
   */
  lemma WanProgressBeforeEnd(req: GenerateRequest, env: WanEnv)
    ensures WanTrace(req, env) != []
    ensures NonDecreasing(WanTrace(req, env)[..|WanTrace(req, env)| - 1])
  {
    var t := WanTrace(req, env);
    var p := t[..|t| - 1];
    WanTraceShape(req, env);
    if req.mode == ImageToVideo {
      assert p == [Progress(0, Starting)];
    } else if env.loadError.Some? {
      assert p == [Progress(0, Starting), Progress(5, LoadingModel)];
    } else {
      var head := [Progress(0, Starting), Progress(5, LoadingModel), Progress(15, Generating)];
      var steps := StepWrites(StepsRun(env));
      LoadStageShape(req, env);
      assert t == head + steps + GenTail(req, env);
      StepWritesBounds(StepsRun(env));
      if env.inferenceError.Some? {
        assert GenTail(req, env) == [Failed(env.inferenceError.value)];
        assert p == head + steps + [];
        WanOrder(steps, []);
      } else {
        assert GenTail(req, env) == [Progress(90, Encoding), LastRecord(t)];
        assert p == head + steps + [Progress(90, Encoding)];
        WanOrder(steps, [Progress(90, Encoding)]);
      }
    }
  }

  /**
   * A denoising failure after k steps leaves exactly min(k, 50) step reports
   * between generating 15 and the error record carrying its message.
   */
  lemma WanInferenceFailure(req: GenerateRequest, env: WanEnv)
    requires req.mode != ImageToVideo && env.loadError.None? && env.inferenceError.Some?
    ensures WanTrace(req, env) ==
      [Progress(0, Starting), Progress(5, LoadingModel), Progress(15, Generating)]
      + StepWrites(if env.stepsCompleted < 50 then env.stepsCompleted else 50)
      + [Failed(env.inferenceError.value)]
  {
    WanTraceShape(req, env);
    LoadStageShape(req, env);
    assert GenTail(req, env) == [Failed(env.inferenceError.value)];
    assert StepsRun(env) == if env.stepsCompleted < 50 then env.stepsCompleted else 50;
  }

  /** The other failures: each is the last record, with its message, and nothing is written after it. */
  lemma WanEarlyFailures(req: GenerateRequest, env: WanEnv)
    ensures req.mode != ImageToVideo && env.loadError.Some? ==>
      WanTrace(req, env) == [Progress(0, Starting), Progress(5, LoadingModel), Failed(env.loadError.value)]
    ensures req.mode != ImageToVideo && env.loadError.None? && env.inferenceError.None? && env.exportError.Some? ==>
      WanTrace(req, env) ==
        [Progress(0, Starting), Progress(5, LoadingModel), Progress(15, Generating)]
        + StepWrites(50) + [Progress(90, Encoding), Failed(env.exportError.value)]
  {
  }

  /** The completed record names output.mp4 inside the directory the worker made. */
  lemma OutputInOutputDir(env: WanEnv)
    requires |env.outputDir| > 0 && env.outputDir == Naming.Parent(env.outputDir + "/x")
    ensures Naming.Parent(OutputPath(env)) == env.outputDir
    ensures Naming.Name(OutputPath(env)) == "output.mp4"
  {
    Naming.JoinParts(env.outputDir, OutputName);
  }

  /** WanTrace and LoadStage branch by branch, in the shape the worker writes them. */
  lemma WanTraceShape(req: GenerateRequest, env: WanEnv)
    ensures req.mode == ImageToVideo ==> WanTrace(req, env) == [Progress(0, Starting)] + [Failed(ImageToVideoUnsupported)]
    ensures req.mode != ImageToVideo ==>
      && WanTrace(req, env) == [Progress(0, Starting), Progress(5, LoadingModel)] + LoadStage(req, env)
      && LoadStage(req, env) != []
      && LastRecord(WanTrace(req, env)) == LastRecord(LoadStage(req, env))
  {
    if req.mode != ImageToVideo {
      var t := WanTrace(req, env);
      var l := LoadStage(req, env);
      assert t == [Progress(0, Starting), Progress(5, LoadingModel)] + l;
      assert t[|t| - 1] == l[|l| - 1];
    }
  }

  lemma LoadStageShape(req: GenerateRequest, env: WanEnv)
    requires env.loadError.None?
    ensures LoadStage(req, env) == [Progress(15, Generating)] + StepWrites(StepsRun(env)) + GenTail(req, env)
    ensures LastRecord(LoadStage(req, env)) == LastRecord(GenTail(req, env))
  {
    var l := LoadStage(req, env);
    var g := GenTail(req, env);
    assert l == ([Progress(15, Generating)] + StepWrites(StepsRun(env))) + g;
    assert l[|l| - 1] == g[|g| - 1];
  }

  // ----- The service's methods -----

  /** POST /generate: record queued 0 under the chosen id and answer "queued"; the worker runs after. */
  method Generate(store: JobStore, req: GenerateRequest, freshId: string) returns (resp: SubmitResponse)
    requires store.Valid()
    modifies store
    ensures store.Valid()
    ensures resp == SubmitResponse(ChooseJobId(req.jobId, freshId), "queued")
    ensures store.jobs == old(store.jobs)[resp.jobId := Progress(0, Queued)]
    ensures store.log == old(store.log) + [Write(resp.jobId, Progress(0, Queued))]
  {
    var jobId := ChooseJobId(req.jobId, freshId);
    store.Update(jobId, 0.0, Queued, NoResult);
    resp := SubmitResponse(jobId, "queued");
  }

  /** progress_callback after step stepIndex: one generating update at that step's progress. */
  method ProgressCallback(store: JobStore, jobId: string, stepIndex: nat, ghost base: seq<Write>, ghost written: seq<JobRecord>)
    requires store.log == base + WritesFor(jobId, written)
    modifies store
    ensures store.log == base + WritesFor(jobId, written + [StepRecord(stepIndex)])
    ensures store.jobs == old(store.jobs)[jobId := StepRecord(stepIndex)]
  {
    var stepProgress := (stepIndex + 1) as real / InferenceSteps as real;
    var pct := 15.0 + stepProgress * (90.0 - 15.0);
    store.Append(jobId, JobRecord(pct, Generating, NoResult), base, written);
  }

  /** The pipeline's denoising run as the worker sees it: the callback after each of the steps that finish. */
  method RunSteps(store: JobStore, jobId: string, steps: nat, ghost base: seq<Write>, ghost written: seq<JobRecord>)
    requires store.log == base + WritesFor(jobId, written)
    modifies store
    ensures store.log == base + WritesFor(jobId, written + StepWrites(steps))
    ensures steps == 0 ==> store.jobs == old(store.jobs)
    ensures steps > 0 ==> store.jobs == old(store.jobs)[jobId := StepRecord(steps - 1)]
  {
    assert written + StepWrites(0) == written;
    for s := 0 to steps
      invariant store.log == base + WritesFor(jobId, written + StepWrites(s))
      invariant s == 0 ==> store.jobs == old(store.jobs)
      invariant s > 0 ==> store.jobs == old(store.jobs)[jobId := StepRecord(s - 1)]
    {
      ProgressCallback(store, jobId, s, base, written + StepWrites(s));
      assert StepWrites(s) + [StepRecord(s)] == StepWrites(s + 1);
      assert written + StepWrites(s) + [StepRecord(s)] == written + StepWrites(s + 1);
    }
  }

  /**
   * _run_t2v_inference: the worker writes exactly WanTrace for its job and
   * the job ends holding its last record; the pipeline is set up and called
   * as PipelineSetup and PipelineCall say, exactly when loading succeeds.
   */
  method RunT2VInference(store: JobStore, jobId: string, req: GenerateRequest, env: WanEnv)
    returns (pipeline: Option<Pipeline>, call: Option<InferenceCall>)
    requires store.Valid()
    modifies store
    ensures store.Valid()
    ensures store.log == old(store.log) + WritesFor(jobId, WanTrace(req, env))
    ensures store.jobs == old(store.jobs)[jobId := LastRecord(WanTrace(req, env))]
    ensures pipeline == (if req.mode == ImageToVideo || env.loadError.Some? then None
                         else Some(PipelineSetup(req.useCuda, env.cudaAvailable, req.lowVram)))
    ensures call == (if pipeline.None? then None else Some(PipelineCall(req)))
  {
    pipeline, call := None, None;
    ghost var base := old(store.log);
    ghost var J := old(store.jobs);
    ghost var trace := WanTrace(req, env);
    WanTraceShape(req, env);
    var r0 := Progress(0, Starting);
    store.Append(jobId, r0, base, []);
    if req.mode == ImageToVideo {
      store.Append(jobId, Failed(ImageToVideoUnsupported), base, [r0]);
    } else {
      var r1 := Progress(5, LoadingModel);
      store.Append(jobId, r1, base, [r0]);
      UpdateTwice(J, jobId, r0, r1);
      pipeline, call := Load(store, jobId, req, env, base, [r0, r1]);
      UpdateTwice(J, jobId, r1, LastRecord(LoadStage(req, env)));
    }
    assert store.log == base + WritesFor(jobId, trace);
    assert store.jobs == J[jobId := LastRecord(trace)];
    ApplyAllWritesFor(map[], base, jobId, trace);
  }

  /** From loading_model on: load and place the pipeline, report generating, run it, then export. */
  method Load(store: JobStore, jobId: string, req: GenerateRequest, env: WanEnv,
              ghost base: seq<Write>, ghost written: seq<JobRecord>)
    returns (pipeline: Option<Pipeline>, call: Option<InferenceCall>)
    requires store.log == base + WritesFor(jobId, written)
    modifies store
    ensures store.log == base + WritesFor(jobId, written + LoadStage(req, env))
    ensures store.jobs == old(store.jobs)[jobId := LastRecord(LoadStage(req, env))]
    ensures pipeline == (if env.loadError.Some? then None else Some(PipelineSetup(req.useCuda, env.cudaAvailable, req.lowVram)))
    ensures call == (if env.loadError.Some? then None else Some(PipelineCall(req)))
  {
    pipeline, call := None, None;
    ghost var J := old(store.jobs);
    if env.loadError.Some? {
      store.Append(jobId, Failed(env.loadError.value), base, written);
      return;
    }
    LoadStageShape(req, env);
    var device := if req.useCuda && env.cudaAvailable then Cuda else Cpu;
    var dtype := if device == Cuda then BFloat16 else Float32;
    var placement := OnDevice;
    if device == Cuda && req.lowVram {
      placement := CpuOffload;
    }
    pipeline := Some(Pipeline(device, dtype, placement, Float32));
    var r := Progress(15, Generating);
    store.Append(jobId, r, base, written);
    ghost var w1 := written + [r];
    var numFrames := NumFrames(req.duration);
    var negative := NegativePrompt(req.negativePrompt);
    call := Some(InferenceCall(req.prompt, negative, Height, Width, numFrames, req.guidanceScale, InferenceSteps));
    var steps := StepsRun(env);
    RunSteps(store, jobId, steps, base, w1);
    ghost var K := store.jobs;
    ghost var w2 := w1 + StepWrites(steps);
    Finish(store, jobId, req, env, base, w2);
    ghost var last := LastRecord(GenTail(req, env));
    if steps == 0 {
      UpdateTwice(J, jobId, r, last);
    } else {
      UpdateTwice(J[jobId := r], jobId, StepRecord(steps - 1), last);
      UpdateTwice(J, jobId, r, last);
    }
    assert w2 + GenTail(req, env) == written + LoadStage(req, env);
  }

  /** After the pipeline returns or raises: the failure, or encoding 90, the export, and completed 100. */
  method Finish(store: JobStore, jobId: string, req: GenerateRequest, env: WanEnv,
                ghost base: seq<Write>, ghost written: seq<JobRecord>)
    requires store.log == base + WritesFor(jobId, written)
    modifies store
    ensures store.log == base + WritesFor(jobId, written + GenTail(req, env))
    ensures store.jobs == old(store.jobs)[jobId := LastRecord(GenTail(req, env))]
  {
    if env.inferenceError.Some? {
      store.Append(jobId, Failed(env.inferenceError.value), base, written);
      return;
    }
    var r := Progress(90, Encoding);
    store.Append(jobId, r, base, written);
    var last;
    match env.exportError {
      case Some(m) => last := Failed(m);
      case None =>
        last := JobRecord(100.0, Completed, VideoDone(Naming.Join(env.outputDir, OutputName), NumFrames(req.duration)));
    }
    store.Append(jobId, last, base, written + [r]);
    UpdateTwice(old(store.jobs), jobId, r, last);
    assert written + [r] + [last] == written + GenTail(req, env);
  }
}
