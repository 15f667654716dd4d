/**
 * The in-memory job progress store that the deblur and text-to-video services
 * each keep: a dictionary from job id to the latest (progress, status, result)
 * record, overwritten whole on every update and read back by the progress
 * endpoint.
 */
module Jobs {
  import opened Wrappers

  /** The status strings the workers write. */
  datatype Status =
    | Queued | Starting | LoadingModel | ReadingVideo | ProcessingFrames
    | FfmpegProcessing | Generating | Encoding | Completed | Error

  function StatusName(s: Status): string
  {
    match s
    case Queued => "queued"
    case Starting => "starting"
    case LoadingModel => "loading_model"
    case ReadingVideo => "reading_video"
    case ProcessingFrames => "processing_frames"
    case FfmpegProcessing => "ffmpeg_processing"
    case Generating => "generating"
    case Encoding => "encoding"
    case Completed => "completed"
    case Error => "error"
  }

  /** Distinct statuses are reported under distinct strings. */
  lemma StatusNameInjective(s: Status, t: Status)
    ensures StatusName(s) == StatusName(t) <==> s == t
  {
  }

  /** The terminal statuses, after which a worker writes nothing more. */
  predicate IsTerminal(s: Status)
  {
    s == Completed || s == Error
  }

  /** The "result" dictionaries the workers attach, one constructor per shape. */
  datatype JobResult =
    | NoResult
    | ErrorInfo(error: string)
    | FrameCounts(framesProcessed: int, totalFrames: int)
    | EnhanceDone(outputPath: string, qualityMode: string, framesProcessed: int)
    | UnsharpDone(outputPath: string, qualityMode: string, enhancement: string)
    | VideoDone(outputPath: string, numFrames: int)

  datatype JobRecord = JobRecord(progress: real, status: Status, result: JobResult)

  /** The record every failure writes: progress 0, status error, the message. */
  function Failed(msg: string): (r: JobRecord)
    ensures r.status == Error && r.progress == 0.0 && r.result.ErrorInfo? && r.result.error == msg
  {
    JobRecord(0.0, Error, ErrorInfo(msg))
  }

  /** A progress update at a whole percentage with no result attached. */
  function Progress(p: int, s: Status): JobRecord
  {
    JobRecord(p as real, s, NoResult)
  }

  // ----- Shapes of a job's sequence of records -----

  /** No record of rs is terminal. */
  predicate Running(rs: seq<JobRecord>)
  {
    forall i :: 0 <= i < |rs| ==> !IsTerminal(rs[i].status)
  }

  /**
   * A worker's records end properly: only the last one is terminal, and an
   * error record carries progress 0 and an error message.
   */
  predicate Ends(rs: seq<JobRecord>)
  {
    && rs != []
    && Running(rs[..|rs| - 1])
    && IsTerminal(rs[|rs| - 1].status)
    && (rs[|rs| - 1].status == Error ==> rs[|rs| - 1].progress == 0.0 && rs[|rs| - 1].result.ErrorInfo?)
  }

  /** A second update of the same id leaves no trace of the first. */
  lemma UpdateTwice(m: map<string, JobRecord>, k: string, a: JobRecord, b: JobRecord)
    ensures m[k := a][k := b] == m[k := b]
  {
  }

  lemma EndsAfter(a: seq<JobRecord>, b: seq<JobRecord>)
    requires Running(a) && Ends(b)
    ensures Ends(a + b)
  {
    var ab := a + b;
    assert ab[..|ab| - 1] == a + b[..|b| - 1];
    assert ab[|ab| - 1] == b[|b| - 1];
  }

  lemma RunningConcat(a: seq<JobRecord>, b: seq<JobRecord>)
    requires Running(a) && Running(b)
    ensures Running(a + b)
  {
  }

  predicate NonDecreasing(rs: seq<JobRecord>)
  {
    forall i, j :: 0 <= i < j < |rs| ==> rs[i].progress <= rs[j].progress
  }

  predicate AtMost(rs: seq<JobRecord>, c: real)
  {
    forall i :: 0 <= i < |rs| ==> rs[i].progress <= c
  }

  predicate AtLeast(rs: seq<JobRecord>, c: real)
  {
    forall i :: 0 <= i < |rs| ==> c <= rs[i].progress
  }

  /** Two non-decreasing runs separated by a level c join into one. */
  lemma NonDecreasingConcat(a: seq<JobRecord>, b: seq<JobRecord>, c: real)
    requires NonDecreasing(a) && NonDecreasing(b) && AtMost(a, c) && AtLeast(b, c)
    ensures NonDecreasing(a + b)
  {
    var ab := a + b;
    forall i, j | 0 <= i < j < |ab|
      ensures ab[i].progress <= ab[j].progress
    {
      if j < |a| {
        assert ab[i] == a[i] && ab[j] == a[j];
      } else if i >= |a| {
        assert ab[i] == b[i - |a|] && ab[j] == b[j - |a|];
      } else {
        assert ab[i] == a[i] && ab[j] == b[j - |a|];
      }
    }
  }

  /** A run between two levels, with a run below the lower in front and one above the upper behind, never decreases. */
  lemma NonDecreasingBetween(a: seq<JobRecord>, b: seq<JobRecord>, c: seq<JobRecord>, lo: real, hi: real)
    requires lo <= hi
    requires NonDecreasing(a) && AtMost(a, lo)
    requires NonDecreasing(b) && AtLeast(b, lo) && AtMost(b, hi)
    requires NonDecreasing(c) && AtLeast(c, hi)
    ensures NonDecreasing(a + b + c)
  {
    NonDecreasingConcat(a, b, lo);
    assert AtMost(a + b, hi) by {
      forall i | 0 <= i < |a + b|
        ensures (a + b)[i].progress <= hi
      {
        if i < |a| {
          assert (a + b)[i] == a[i];
        } else {
          assert (a + b)[i] == b[i - |a|];
        }
      }
    }
    NonDecreasingConcat(a + b, c, hi);
  }

  function LastRecord(rs: seq<JobRecord>): JobRecord
    requires rs != []
  {
    rs[|rs| - 1]
  }

  /** One call of update_job_progress. */
  datatype Write = Write(jobId: string, record: JobRecord)

  function WritesFor(jobId: string, records: seq<JobRecord>): (ws: seq<Write>)
    ensures |ws| == |records|
  {
    seq(|records|, k requires 0 <= k < |records| => Write(jobId, records[k]))
  }

  lemma WritesForConcat(jobId: string, a: seq<JobRecord>, b: seq<JobRecord>)
    ensures WritesFor(jobId, a + b) == WritesFor(jobId, a) + WritesFor(jobId, b)
  {
  }

  /** The dictionary after a sequence of updates, applied in order. */
  function ApplyAll(jobs: map<string, JobRecord>, writes: seq<Write>): map<string, JobRecord>
    decreases |writes|
  {
    if writes == [] then jobs
    else
      var w := writes[|writes| - 1];
      ApplyAll(jobs, writes[..|writes| - 1])[w.jobId := w.record]
  }

  /** The last record written for an id among the writes, if any. */
  function LastFor(writes: seq<Write>, jobId: string): Option<JobRecord>
    decreases |writes|
  {
    if writes == [] then None
    else if writes[|writes| - 1].jobId == jobId then Some(writes[|writes| - 1].record)
    else LastFor(writes[..|writes| - 1], jobId)
  }

  /**
   * Last write wins: after any sequence of updates an id holds the record of
   * its last update, or what it held before when it was never updated; an
   * update never removes an id.
   */
  lemma {:induction false} ApplyAllLastWins(jobs: map<string, JobRecord>, writes: seq<Write>, jobId: string)
    ensures var after := ApplyAll(jobs, writes);
      && (LastFor(writes, jobId).Some? ==> jobId in after && after[jobId] == LastFor(writes, jobId).value)
      && (LastFor(writes, jobId).None? ==>
            (jobId in after <==> jobId in jobs) && (jobId in jobs ==> after[jobId] == jobs[jobId]))
    decreases |writes|
  {
    if writes != [] {
      ApplyAllLastWins(jobs, writes[..|writes| - 1], jobId);
    }
  }

  lemma {:induction false} LastForRecords(jobId: string, records: seq<JobRecord>)
    requires records != []
    ensures LastFor(WritesFor(jobId, records), jobId) == Some(records[|records| - 1])
  {
  }

  /** Applying one job's updates in order leaves that job at its last record and every other id as it was. */
  lemma {:induction false} ApplyAllWritesFor(jobs: map<string, JobRecord>, base: seq<Write>, jobId: string, records: seq<JobRecord>)
    requires records != []
    ensures ApplyAll(jobs, base + WritesFor(jobId, records)) == ApplyAll(jobs, base)[jobId := records[|records| - 1]]
    decreases |records|
  {
    var n := |records|;
    var ws := base + WritesFor(jobId, records);
    assert ws[..|ws| - 1] == base + WritesFor(jobId, records[..n - 1]) by {
      WritesForConcat(jobId, records[..n - 1], [records[n - 1]]);
      assert records == records[..n - 1] + [records[n - 1]];
    }
    if n > 1 {
      ApplyAllWritesFor(jobs, base, jobId, records[..n - 1]);
    } else {
      assert records[..n - 1] == [];
      assert base + WritesFor(jobId, []) == base;
    }
  }

  datatype HttpError = HttpError(statusCode: int, detail: string)

  const JobNotFound := HttpError(404, "Job not found")

  /**
   * get_progress: the record, or not-found. Every stored record is a
   * non-empty dictionary, so Python's `not job` holds exactly when the id
   * is absent.
   */
  function Lookup(jobs: map<string, JobRecord>, jobId: string): (r: Result<JobRecord, HttpError>)
    ensures r.Ok? <==> jobId in jobs
    ensures r.Ok? ==> r.value == jobs[jobId]
    ensures r.Err? ==> r.error == JobNotFound
  {
    if jobId in jobs then Ok(jobs[jobId]) else Err(JobNotFound)
  }

  /**
   * `req.job_id or str(uuid.uuid4())`: the requested id unless it is missing
   * or empty, in which case the fresh one.
   */
  function ChooseJobId(requested: Option<string>, freshId: string): (id: string)
    ensures requested.Some? && requested.value != "" ==> id == requested.value
    ensures requested.None? || requested.value == "" ==> id == freshId
  {
    match requested
    case Some(j) => if j != "" then j else freshId
    case None => freshId
  }

  /** What both submit endpoints answer: the job id and status "queued". */
  datatype SubmitResponse = SubmitResponse(jobId: string, status: string)

  /** One service's _jobs dictionary, with the history of every update as a ghost log. */
  class JobStore {
    var jobs: map<string, JobRecord>
    ghost var log: seq<Write>

    ghost predicate Valid()
      reads this
    {
      jobs == ApplyAll(map[], log)
    }

    constructor ()
      ensures Valid() && jobs == map[] && log == []
    {
      jobs := map[];
      log := [];
    }

    /** update_job_progress: the whole record for the id is replaced; other ids keep theirs. */
    method Update(jobId: string, progress: real, status: Status, result: JobResult)
      requires Valid()
      modifies this
      ensures Valid()
      ensures jobs == old(jobs)[jobId := JobRecord(progress, status, result)]
      ensures log == old(log) + [Write(jobId, JobRecord(progress, status, result))]
    {
      var w := Write(jobId, JobRecord(progress, status, result));
      jobs := jobs[jobId := w.record];
      log := log + [w];
      assert log[..|log| - 1] == old(log);
    }

    /**
     * One more update_job_progress call for a job whose updates since a point
     * in the log are `written`: the log grows by that write and the id now
     * holds it. Callers re-establish Valid() once for the whole run with
     * ApplyAllWritesFor.
     */
    method Append(jobId: string, r: JobRecord, ghost base: seq<Write>, ghost written: seq<JobRecord>)
      requires log == base + WritesFor(jobId, written)
      modifies this
      ensures log == base + WritesFor(jobId, written + [r])
      ensures jobs == old(jobs)[jobId := r]
    {
      jobs := jobs[jobId := r];
      log := log + [Write(jobId, r)];
      WritesForConcat(jobId, written, [r]);
    }

    /** get_progress reads the dictionary and never changes it. */
    method GetProgress(jobId: string) returns (r: Result<JobRecord, HttpError>)
      ensures r == Lookup(jobs, jobId)
    {
      if jobId in jobs {
        return Ok(jobs[jobId]);
      }
      return Err(JobNotFound);
    }
  }
}
