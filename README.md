# Vidzaro video services: a verified model of the tracking and job core

This project models, in Dafny, the deterministic core of three small Python
video services:

- **morph-service**: the face-morph service. `iou_box` scores two face boxes.
  `assign_track_ids` is the greedy IoU tracker that gives every per-frame face
  detection a track id. The `/swap` handler runs the same tracker inline and
  then picks the face to swap in each frame. The service also keeps a
  compute-provider preference (CPU or CUDA). Changing that preference drops
  the two cached models. Finally, `detect_faces` samples keyframe indices.
- **deblur-service**: the video enhancement service. It keeps an in-memory
  job progress dictionary. `POST /enhance` submits a job. The worker writes a
  fixed sequence of progress records: the AI path weights progress by frame
  count from 15 to 90, and the fallback path uses an ffmpeg unsharp filter.
  The service also maps a quality mode to encoder settings and builds frame
  and output file names.
- **wan-service**: the text-to-video service. It uses the same kind of job
  dictionary. `POST /generate` submits a job. The worker writes its records,
  weighting progress by denoising step from 15 to 90. The service also has
  the duration to frame-count table, the negative-prompt fallback and the
  device/dtype choice.

Layout, one module per file:

| file | module | what it holds |
|---|---|---|
| wrappers.dfy | Wrappers | `Option` (Python `None`) and `Result` (raised errors) |
| geometry.dfy | Geometry | integer boxes and IoU over exact reals |
| tracking.dfy | Tracking | the pure specification of `assign_track_ids` and its imperative form |
| swap.dfy | Swap | the `/swap` frame loop: inline tracker, `max(keys)+1`, target selection |
| keyframes.dfy | Keyframes | `list(range(0, total, max(1, interval)))[:15]` |
| providers.dfy | Providers | `_get_providers`, `_apply_use_cuda`, the model cache as a class |
| naming.dfy | Naming | zero-padded decimal, `frame_%08d.png`, pathlib parent/name/stem |
| jobs.dfy | Jobs | job records, the job dictionary as a class with a ghost write log |
| deblur.dfy | Deblur | quality tables, frame-loop progress, the worker's record trace |
| wan.dfy | Wan | duration table, negative prompt, step progress, the worker's trace |

Modelling choices:

- The source's state-changing code is imperative Dafny. The `track_bbox`
  dictionary is a map plus its key insertion order. Python dictionaries
  iterate in insertion order, so the order decides ties. The model proves
  that the order is always 0, 1, 2, …
- The module-level globals become classes. `_prefer_cpu_override`,
  `_face_app` and `_swapper` become `Providers.ModelCache`. Each service's
  `_jobs` becomes `Jobs.JobStore`, whose ghost `log` records every
  `update_job_progress` call. Each imperative method's contract ties its
  result or its new state to a pure function, and the properties are proved
  about those functions: the tracker to `Tracking.Match` and
  `Tracking.Track`, the swap loop to `Swap.FirstWithId`, the cache to
  `Providers.GetProviders`, `Providers.AfterUseCuda`,
  `Providers.FaceAppStep` and `Providers.SwapperStep`, the job store to
  `Jobs.Lookup` and its write log, and the workers to `Deblur.DeblurTrace`
  and `Wan.WanTrace`.
- Foreign calls are parameters. This covers the face detector and swapper,
  Real-ESRGAN, the Wan pipeline, OpenCV capture, the ffmpeg subprocess, file
  existence checks, `tempfile.mkdtemp` and `uuid4`. Each one is given as its
  observed outcome: a `DeblurEnv` or `WanEnv` value, a fresh id string, or an
  optional error message.
- IoU and progress are exact reals. Python's `int()` on a float truncates
  toward zero, so it is modelled as floor for non-negative values and as
  ceiling for negative ones (`Deblur.Trunc`).

Some behaviours of the code are easy to miss; the model keeps them and
proves each one:

- The tracker keeps no per-frame "used" set, so two detections in one frame
  can share a track id (`Tracking.SameFrameSharesId`).
- The tracker matches by IoU alone. A detection takes the id of the stored
  box with the largest IoU strictly above the threshold, the lowest such id
  on a tie, or else a new id (`Tracking.ScanIsBestMatch`).
- Frame-loop progress is computed only on every tenth frame and on the frame
  equal to the announced total. A zero frame count therefore raises only
  when the tenth frame is reached, and a video of fewer than ten frames with
  a zero count completes normally (`Deblur.DeblurZeroTotal`).
- Deblur progress is proved non-decreasing when no more frames are read
  than the container announced; when the count is under-reported it can
  fail. For a positive announced total t, a report at a frame k within it is
  at most 90; beyond it, the report exceeds the encoding record of 95 that
  follows the loop exactly when 75·k ≥ 81·t (`Deblur.ReportAboveEncoding`).
  With total 1 and ten frames read the trace reports 765 and then 95
  (`Deblur.UnderreportedTotalOvershoots`); with a smaller excess, such as
  total 5 and seven frames, no report is due after frame 5, so nothing
  exceeds 90.
- The frame count from OpenCV is used unchecked, and it can be negative.
  Every report is then at most the processing_frames record of 15
  (`Deblur.NegativeTotalProgress`), and it can fall below 0, outside the
  0 to 100 range of the other records: with a count of -1 the tenth frame
  reports -735 right after 15 (`Deblur.NegativeTotalReportsBelowZero`).

## Model

| member | source | states |
|---|---|---|
| Geometry.IouSymmetric | morph-service/main.py:117-130 | `iou_box(a, b) == iou_box(b, a)` for every pair of boxes |
| Geometry.IouBounds | morph-service/main.py:117-130 | IoU lies in [0, 1). It is positive exactly when the overlap has positive width and height, and then both boxes are well formed and IoU is inter / (area_a + area_b - inter + 1e-6); otherwise it is 0 |
| Geometry.IouSelf | morph-service/main.py:117-130 | a well-formed box against itself scores area / (area + 1e-6), strictly between 0 and 1 |
| Tracking.ScanIsBestMatch | morph-service/main.py:147-153 | the scan over tracks in insertion order from (None, iou_thresh) returns None iff no track's IoU is strictly above the threshold; otherwise it returns the lowest id among those with the highest IoU, together with that IoU |
| Tracking.BestMatchUnique | morph-service/main.py:147-153 | the matching rule (strictly above the threshold, maximal, lowest id on ties) admits at most one answer |
| Tracking.MatchRule | morph-service/main.py:147-157 | a detection joins an existing track iff some last box has IoU above the threshold, and then the best and lowest such id; otherwise it gets the counter, which is no existing id, and the counter grows by 1. Only the chosen track's last box changes, and it becomes the detection's box |
| Tracking.TrackFrameFacts | morph-service/main.py:142-158 | within one frame, the output is exactly the detections with a 4-element bbox, in order; the counter never decreases; the ids in use afterwards are the old ids plus this frame's ids, with no gaps |
| Tracking.TrackShape | morph-service/main.py:133-160 | one output frame per input frame, each holding that frame's kept detections unchanged and in order; the ids used are exactly 0 .. counter-1 |
| Tracking.SameFrameSharesId | morph-service/main.py:143-158 | two identical well-formed boxes in one frame both get id 0, because there is no per-frame used set |
| Tracking.ExampleThreeFrames | morph-service/main.py:133-160 | frames [0,0,10,10], [1,1,11,11], [50,50,60,60] get ids [0], [0], [1] at threshold 0.3 |
| Tracking.AssignOne | morph-service/main.py:144-157 | one iteration of the inner loop (dict scan, new id, store box) equals `Match` and keeps the dict's keys 0 .. counter-1 in insertion order |
| Tracking.AssignTrackIds | morph-service/main.py:133-160 | the nested imperative loops return exactly `Track(frames, iou_thresh)`, so every property above holds of them |
| Swap.NextIdFromKeys | morph-service/main.py:285 | `max(keys, default=-1) + 1`: above every key, and n-1 is a key when n > 0 |
| Swap.CounterIsMaxKeyPlusOne | morph-service/main.py:283-285 | with ids 0 .. c-1 in use, max(keys)+1 is exactly the counter c |
| Swap.TrackFaces | morph-service/main.py:284-299 | the swap handler's per-frame id loop computes the same ids and tracker state as `assign_track_ids` at 0.3 |
| Swap.FirstWithIdSpec | morph-service/main.py:300-304 | the chosen face belongs to the earliest detection with the target id; there is none iff no detection carries it |
| Swap.SelectTarget | morph-service/main.py:300-306 | the selection loop returns that first matching face, or None, which leaves the frame unswapped |
| Swap.SwapFrames | morph-service/main.py:275-309 | per video frame, the swapped face is the first face whose id, as `assign_track_ids` would assign it, equals the target; frame i is written as `frame_{i:08d}.png` |
| Keyframes.RangeStepSpec | morph-service/main.py:199 | `range(start, stop, step)` holds start + k*step for k = 0, 1, …, every value below stop, and the first value left out is at least stop |
| Keyframes.SampleIndicesSpec | morph-service/main.py:197-199 | at most 15 indices; the k-th is k*max(1, interval), so they start at 0 and strictly increase; all lie in [0, total_frames); fewer than 15 only when the range ran out |
| Providers.SkipSpaceFrom | morph-service/main.py:63 | the leading run `strip()` removes is all whitespace and ends at a non-space character or at the end of the string |
| Providers.SkipSpaceBack | morph-service/main.py:63 | the trailing run `strip()` removes is all whitespace and starts right after a non-space character or at the leading cut |
| Providers.StripSpec | morph-service/main.py:63 | `str.strip()` removes exactly a whitespace run at each end, and the result neither starts nor ends with whitespace |
| Providers.StripIsOne | morph-service/main.py:63 | "1" surrounded by whitespace only strips to "1" |
| Providers.GetProviders | morph-service/main.py:58-65 | the provider list has one or two entries and always ends with the CPU provider |
| Providers.GetProvidersSpec | morph-service/main.py:58-65 | CPU-only iff the override is True, or there is no override and USE_CPU strips to "1"; otherwise [CUDA, CPU] |
| Providers.ApplyUseCudaSpec | morph-service/main.py:68-77 | None changes nothing; otherwise the override becomes `not use_cuda`; both cached models are kept iff the override did not change and are cleared iff it did |
| Providers.ApplyUseCudaIdempotent | morph-service/main.py:68-77 | applying the same preference twice equals applying it once |
| Providers.ApplyUseCudaConsistent | morph-service/main.py:68-77 | every cached model was built with the providers the current override selects, before and after the call |
| Providers.FaceAppCaches | morph-service/main.py:80-91 | a load uses the current providers; a failure of either the constructor or `prepare` is wrapped as RuntimeError "Failed to load FaceAnalysis: …"; the model is cached after a successful load and also after a failing `prepare` (the global was already assigned), so the next call returns it without loading; only a failing constructor caches nothing; the swapper and the override are untouched |
| Providers.SwapperCaches | morph-service/main.py:94-114 | the same caching law for the swapper, through each of its error branches |
| Providers.SwapperDownloadFallback | morph-service/main.py:101-109 | a "Failed downloading" error with no local file ends in the fixed advice message; with a loadable local file it succeeds |
| Providers.ModelCache.constructor | morph-service/main.py:52-55 | no override and no cached model at start |
| Providers.ModelCache.ApplyUseCuda | morph-service/main.py:68-77 | the globals become `AfterUseCuda` of the old globals, and cache consistency is preserved |
| Providers.ModelCache.CurrentProviders | morph-service/main.py:58-65 | the imperative `_get_providers` returns `GetProviders` of the current override and environment |
| Providers.ModelCache.GetFaceApp | morph-service/main.py:80-91 | result and new globals are those of `FaceAppStep` (the global is assigned before `prepare` can fail), and consistency is preserved |
| Providers.ModelCache.GetSwapper | morph-service/main.py:94-114 | result and new globals are those of `SwapperStep`, and consistency is preserved |
| Naming.FormatIntRoundTrip | deblur-service/main.py:223 | `format(n, "08d")` is all digits, at least 8 long, and reads back as n |
| Naming.FrameFileNameInjective | deblur-service/main.py:223 | distinct frame indices give distinct `frame_XXXXXXXX.png` names |
| Naming.FramePatternExpands | deblur-service/main.py:262 | the encoder's `frame_%08d.png` pattern names frame i exactly as the frame writer does |
| Naming.FallbackOutputInSameDirectory | deblur-service/main.py:294 | for a clean POSIX input path, the fallback output's parent is the input's parent, and its name is `enhanced_<stem>.mp4` |
| Jobs.ApplyAllLastWins | wan-service/main.py:47-54 | after any sequence of updates an id holds its last written record, or its old entry (or absence) if it was never written; updates never remove ids |
| Jobs.ApplyAllWritesFor | deblur-service/main.py:48-54 | one job's run of updates leaves that job at its last record and every other id unchanged |
| Jobs.Lookup | deblur-service/main.py:150-157 | found iff the id has a record, and then that record; otherwise 404 "Job not found" |
| Jobs.ChooseJobId | deblur-service/main.py:161 | the requested id unless it is missing or empty, then the fresh id |
| Jobs.JobStore.constructor | deblur-service/main.py:46 | the dictionary starts empty |
| Jobs.JobStore.Update | deblur-service/main.py:48-54 | the whole record for the id is replaced by (progress, status, result), and no other id changes |
| Jobs.JobStore.Append | wan-service/main.py:47-54 | the same update, for use inside a worker run whose writes are tracked as a block |
| Jobs.JobStore.GetProgress | wan-service/main.py:153-159 | returns `Lookup` of the dictionary and cannot change it, so an unknown id is never created |
| Deblur.QualityModes | deblur-service/main.py:244-252 | "best" gives crf 18 / slow, "fast" gives 28 / veryfast, anything else gives balanced 23 / fast; the unsharp amount is likewise 2.0 / 1.0 / 1.5; a better mode asks for a lower crf |
| Deblur.FrameProgressExact | deblur-service/main.py:230 | with a positive total, progress is 15 + floor(75*frame_idx / total) |
| Deblur.FrameProgressBounds | deblur-service/main.py:228-235 | for 1 <= i <= j <= total, progress lies in [15, 90], is non-decreasing, and is 90 at the total |
| Deblur.FrameLoopRaises | deblur-service/main.py:226-235 | the loop raises iff the total is 0 and the tenth frame is reached, with "division by zero" after ten saved frames; otherwise it saves one file per frame read |
| Deblur.FrameLoopReports | deblur-service/main.py:228-235 | every loop record is a processing_frames report at frame k (a multiple of 10 or the total) carrying k, the total and k's progress; the reported k strictly increase |
| Deblur.FrameLoopMonotone | deblur-service/main.py:228-235 | with no more frames read than announced, loop progress is non-decreasing, within [15, 90], and ends at 90 when the total is reached |
| Deblur.FrameLoopStops | deblur-service/main.py:283-285 | once the loop has raised, further frames change nothing |
| Deblur.UnderreportedTotalOvershoots | deblur-service/main.py:228-238 | with total 1 and ten frames read, the trace reports 765 and then 95, so it is not non-decreasing |
| Deblur.DeblurTraceEnds | deblur-service/main.py:166-288 | every run starts with starting 0; its last record is the only terminal one; an error record has progress 0 and a message |
| Deblur.ReportAboveEncoding | deblur-service/main.py:228-238 | for a positive announced total t, a frame report is at most 90 within it, and exceeds the later encoding record of 95 exactly when 75·k ≥ 81·t |
| Deblur.NegativeTotalProgress | deblur-service/main.py:198-233 | with a negative frame count every frame report is Ok and at most 15 |
| Deblur.NegativeTotalReportsBelowZero | deblur-service/main.py:198-233 | with a frame count of -1 and ten frames, the trace has processing_frames 15 and then a report of -735 |
| Deblur.DeblurHappyPath | deblur-service/main.py:170-279 | with a file, a model, an open stream, a working encoder and no more frames than announced, progress is non-decreasing and the job completes with frames_processed = frames read |
| Deblur.DeblurEarlyFailures | deblur-service/main.py:170-194 | a missing file gives exactly [starting 0, error "Video file not found"]; an unopenable stream gives error "Failed to open video" after reading_video 10 |
| Deblur.DeblurFallbackPath | deblur-service/main.py:290-322 | with no model: loading_model 5, ffmpeg_processing 20, then completed 100 with method "ffmpeg_unsharp" and `enhanced_<stem>.mp4` beside the input, or error with the encoder's message |
| Deblur.DeblurZeroTotal | deblur-service/main.py:226-285 | with total 0: ten or more frames end in error "division by zero" after ten frame files; fewer frames complete with no frame report |
| Deblur.DeblurCompletedCountsFrames | deblur-service/main.py:275-279 | whenever the AI path completes, frames_processed is the number of frames read |
| Deblur.FramePathsMatchEncoderInput | deblur-service/main.py:223-262 | each saved frame file is the name the encoder's input pattern gives for its index |
| Deblur.Enhance | deblur-service/main.py:159-164 | writes starting 0 under the chosen id before the worker runs, and answers that id with status "queued" |
| Deblur.ProcessFrames | deblur-service/main.py:213-235 | the imperative frame loop writes exactly `FrameLoop`'s records, raises as it does, and saves frame_00000000.png … in order |
| Deblur.DoFfmpegEnhance | deblur-service/main.py:290-328 | the fallback writes exactly `FfmpegTrace`, passes the unsharp amount `UnsharpAmount(quality_mode)` and encodes with the balanced crf 23 / preset fast whatever the mode |
| Deblur.ProcessFrame | deblur-service/main.py:222-235 | one pass of the loop body: the frame is counted, and at every tenth and at the last expected frame a report follows `FrameLoop` one frame further (a zero total raises instead); the job then holds that report |
| Deblur.EnhanceFrames | deblur-service/main.py:188-279 | from reading_video on, the worker writes exactly `ModelStage`, and runs the encoder with `Encoder(quality_mode)` exactly when the video opens and the frame loop does not raise |
| Deblur.ProcessVideo | deblur-service/main.py:207-279 | from processing_frames 15 on, the worker writes exactly `FramesStage` (15, the loop's reports, then the loop's error or encoding 95 and the outcome) and saves the frame files the loop counted; the encoder runs with `Encoder(quality_mode)` exactly when the loop does not raise |
| Deblur.EncodeStage | deblur-service/main.py:237-285 | after the loop: the loop's error with no encoder run, or encoding 95, the encoder run with `Encoder(quality_mode)`'s crf and preset, and then completed or the encoder's error |
| Deblur.DoEnhance | deblur-service/main.py:166-288 | the worker writes exactly `DeblurTrace` for its job; the job ends at its last record; other jobs are unchanged; ffmpeg runs with the balanced crf/preset and the mode's unsharp amount on the fallback path, with `Encoder(quality_mode)` when the frame loop finishes, and not at all otherwise |
| Wan.NumFramesSpec | wan-service/main.py:36 | 3 maps to 45 and 8 to 129; every other duration (the default 5 included) maps to 81 |
| Wan.NegativePrompt | wan-service/main.py:77 | the request's negative prompt unless it is None or empty, then the default; never empty |
| Wan.PipelineSetupSpec | wan-service/main.py:90-103 | the device is cuda iff use_cuda and CUDA is available; the dtype is bfloat16 iff on cuda; CPU offload iff on cuda with low_vram; the VAE is float32 |
| Wan.StepProgressSpec | wan-service/main.py:113-118 | for step indices in [0, 50), progress lies in (15, 90], strictly increases, and is 90 exactly at step 49 |
| Wan.StepWritesBounds | wan-service/main.py:113-118 | the callback's records for up to 50 steps are non-decreasing, non-terminal and within [15, 90] |
| Wan.WanTraceEnds | wan-service/main.py:69-145 | every run starts with starting 0 and ends with exactly one terminal record; an error record is at progress 0 |
| Wan.ImageToVideoRefused | wan-service/main.py:79-81 | image-to-video gives [starting 0, error], and a loading_model record appears iff the mode is not image-to-video |
| Wan.WanHappyPath | wan-service/main.py:73-140 | starting 0, loading_model 5, generating 15, fifty step reports, encoding 90, completed 100 with the output path and the table's frame count; 55 records; non-decreasing |
| Wan.WanProgressBeforeEnd | wan-service/main.py:73-145 | on every path, all records before the final one are non-decreasing |
| Wan.WanInferenceFailure | wan-service/main.py:105-145 | a pipeline failure after k steps leaves min(k, 50) step reports, then the error |
| Wan.WanEarlyFailures | wan-service/main.py:83-145 | a loading failure ends right after loading_model; an export failure ends right after encoding 90 |
| Wan.OutputInOutputDir | wan-service/main.py:107-108 | the output is output.mp4 inside the directory the worker made |
| Wan.Generate | wan-service/main.py:162-167 | writes queued 0 under the chosen id before the worker runs, and answers that id with status "queued" |
| Wan.ProgressCallback | wan-service/main.py:113-118 | one generating record at the step's progress |
| Wan.RunSteps | wan-service/main.py:121-130 | the denoising run writes one callback record per finished step, in step order |
| Wan.Finish | wan-service/main.py:132-145 | after the pipeline: its error, or encoding 90 and then completed or the export's error |
| Wan.Load | wan-service/main.py:83-140 | from loading_model on, the worker writes exactly `LoadStage`, with the pipeline set up and called as the request says |
| Wan.RunT2VInference | wan-service/main.py:69-145 | the worker writes exactly `WanTrace` for its job; the job ends at its last record; other jobs are unchanged |

## Left out

- Model inference and loading are foreign calls. This covers Real-ESRGAN,
  InsightFace analysis and swapping, and the Wan pipeline. Only their
  outcomes appear, as availability flags and optional error messages. Pixel
  contents of frames are not modelled.
- Video and image I/O are not modelled: `cv2.VideoCapture`, `read`,
  `imwrite`, `imencode`, base64 keyframe images, and reading the source image
  in `/swap`. A video is a sequence of per-frame detections, or a number of
  frames read. The checks in `/swap` and `detect_faces` that raise HTTP 400
  are left out for the same reason. So are the "No face found in source
  image" branch and the keyframe records built in `detect_faces`.
- The ffmpeg subprocess and `export_to_video` are external processes. Each is
  a success-or-message outcome. Their command lines are reduced to the
  settings they use (crf, preset, unsharp amount, frame pattern).
- `threading.Lock`, FastAPI `BackgroundTasks` and concurrent polling are
  concurrency. The store is modelled one operation at a time. Submission and
  the worker are separate methods run in sequence.
- `round(progress, 2)`, `updated_at` from `os.times()` and
  `time = round(idx / fps, 2)` are float rounding and clocks. Progress and IoU
  are exact reals, so Python's float results may differ at exact boundaries.
  The keyframe interval `int(fps * 2)` is an integer parameter.
- Other exceptions raised inside the deblur frame loop are not modelled, for
  example a failing `imwrite` or `mkdtemp`. The only in-loop failure in the
  model is the division by zero. The encoder failure after the loop is
  modelled.
- `frames_dir` cleanup in `/swap` is file I/O. The deblur worker deliberately
  does no cleanup.
- `_add_nvidia_cuda_paths` (environment and DLL path setup) and HTTP routing
  and pydantic validation are not modelled.
- The deblur request's `use_cuda` field is not modelled; the service never
  reads it.
- The embedding-based tracker and the seam-feathering compositor are not part
  of this model. Their code appears only as imports of functions that are not
  in the service sources.
- The installer, model-download, launcher and diagnostic scripts of the morph
  service are not part of this model.
- Deblur.DeblurHappyPath: requires no more frames read than announced. The
  source promises no such bound, and without it monotonicity can fail: for
  a positive total, a report beyond it lies above the later encoding record
  of 95 exactly when 75·k ≥ 81·t (`Deblur.ReportAboveEncoding`), as
  `Deblur.UnderreportedTotalOvershoots` shows for total 1 and ten frames.
- Naming.FallbackOutputPath: `Name`, `Parent` and `Stem` split the path
  string at its last `/` and do not normalise it the way `pathlib` does, so
  they agree with `Path(p).name`, `.parent` and `.stem` only on clean POSIX
  paths: no repeated `/`, no trailing `/` and no `.` component. On
  `"a//b.mp4"`, `"d/v.mp4/"` or `"a/./b.mp4"` the model's output path differs
  from the service's. Windows separators and drive letters (`WindowsPath`)
  are not modelled; `"C:\x\v.mp4"` is treated as one file name.
- Naming.FallbackOutputInSameDirectory: the output sits beside the input and
  is named `enhanced_<stem>.mp4` in the model's own path algebra, which
  matches `pathlib` only for the clean POSIX paths described on the line
  above; `Deblur.DeblurFallbackPath` inherits the same limit.
- Providers.ModelCache.GetFaceApp: a cached model is represented by its
  provider list only. Whether `prepare` ran on it is not recorded, so after a
  failing `prepare` the next call returns the same providers, standing for
  the unprepared `FaceAnalysis` object the service hands back.
