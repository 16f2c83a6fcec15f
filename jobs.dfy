/** The web front end's job bookkeeping: an in-memory map from job id to job record, updated in place
    by the request handlers and by each job's worker. HTTP routing, file storage, id generation and
    threads are outside the model: request data, fresh ids and the worker's oracles are parameters. */
module Jobs {
  import opened Outcomes
  import opened Paths
  import opened JobStatus
  import ClipPlanning
  import Scanning
  import VideoProcessing

  type JobId = string

  const UploadFolder: string := "uploads"
  const OutputFolder: string := "outputs"

  datatype JobType = Upload | YouTube

  /** One clip as the caller sees it: its number, its file name and where to download it. */
  datatype ClipResult = ClipResult(id: nat, filename: string, url: string)

  /** A job record; each `Option` field is a key the record may not have yet. */
  datatype JobRecord = JobRecord(
    status: Status,
    jobType: JobType,
    videoPath: Option<string>,
    progress: Option<int>,
    results: Option<seq<ClipResult>>,
    error: Option<string>)

  /** A handler's reply: the accepted job and its status, or an error with its HTTP code. */
  datatype Response = Accepted(jobId: JobId, status: Status) | Rejected(code: nat, message: string)

  // ----- upload and YouTube requests -----

  /** The checks on an upload request, given the uploaded part's file name (`None` when the request
      has no `file` part): the name it accepts, or the error message it answers with. */
  function ValidateUpload(fileName: Option<string>): (r: Result<string>)
    ensures r.Ok? <==> fileName.Some? && fileName.value != "" && EndsWith(fileName.value, ".mp4")
    ensures r.Ok? ==> r.value == fileName.value
    ensures fileName.None? ==> r == Err("No file part")
    ensures fileName == Some("") ==> r == Err("No selected file")
    ensures fileName.Some? && fileName.value != "" && !EndsWith(fileName.value, ".mp4") ==> r == Err("Only mp4 supported")
  {
    match fileName
    case None => Err("No file part")
    case Some(name) =>
      if name == "" then Err("No selected file")
      else if !EndsWith(name, ".mp4") then Err("Only mp4 supported")
      else Ok(name)
  }

  /** A YouTube request is refused when it carries no URL or an empty one. */
  predicate UrlGiven(url: Option<string>)
  {
    url.Some? && url.value != ""
  }

  // ----- the download progress hook -----

  /** A field of a progress report: absent, present as `None`, or a number. */
  datatype HookValue = Missing | Null | Num(x: real)

  /** One progress report of the downloader. */
  datatype HookEvent = HookEvent(
    status: string,
    downloadedBytes: HookValue,
    totalBytes: HookValue,
    totalBytesEstimate: HookValue)

  /** Python's `int(x)` on a number: truncation toward zero. */
  function TruncateToInt(x: real): (n: int)
    ensures x >= 0.0 ==> n >= 0 && n as real <= x < n as real + 1.0
    ensures x < 0.0 ==> n <= 0 && n as real - 1.0 < x <= n as real
  {
    if x >= 0.0 then x.Floor else -((-x).Floor)
  }

  /** `d.get('downloaded_bytes', 0)`; `None` stands for Python's `None`. */
  function Downloaded(d: HookEvent): Option<real>
  {
    match d.downloadedBytes
    case Missing => Some(0.0)
    case Null => None
    case Num(x) => Some(x)
  }

  /** `d.get('total_bytes') or d.get('total_bytes_estimate', 0)`: the exact total when it is present
      and non-zero, otherwise the estimate (0 when absent). */
  function Total(d: HookEvent): Option<real>
  {
    if d.totalBytes.Num? && d.totalBytes.x != 0.0 then Some(d.totalBytes.x)
    else match d.totalBytesEstimate
      case Missing => Some(0.0)
      case Null => None
      case Num(y) => Some(y)
  }

  /** The progress a `downloading` report sets, or `None` when it sets none: the total is not
      positive, or a `None` makes the arithmetic raise (the hook swallows the error). */
  function HookPercent(d: HookEvent): (p: Option<int>)
    ensures p.Some? <==> Total(d).Some? && Total(d).value > 0.0 && Downloaded(d).Some?
    ensures p.Some? ==> p.value == TruncateToInt(Downloaded(d).value / Total(d).value * 100.0)
  {
    match Total(d)
    case None => None
    case Some(total) =>
      if total > 0.0 then
        match Downloaded(d)
        case None => None
        case Some(downloaded) => Some(TruncateToInt(downloaded / total * 100.0))
      else None
  }

  /** A report with sane byte counts: none downloaded beyond the total. */
  predicate SaneReport(d: HookEvent)
  {
    Downloaded(d).Some? && Total(d).Some? && 0.0 <= Downloaded(d).value <= Total(d).value
  }

  /** A factor of a non-negative product with a positive factor is non-negative. */
  lemma NonNegativeFactor(a: real, t: real)
    requires t > 0.0 && a * t >= 0.0
    ensures a >= 0.0
  {
  }

  /** With `0 <= downloaded <= total`, the percentage lies in `[0, 100]`; it is the whole number of
      percent downloaded. */
  lemma HookPercentInRange(d: HookEvent)
    requires SaneReport(d) && HookPercent(d).Some?
    ensures 0 <= HookPercent(d).value <= 100
    ensures var x := Downloaded(d).value / Total(d).value * 100.0;
      HookPercent(d).value as real <= x < HookPercent(d).value as real + 1.0
  {
    var dl, t := Downloaded(d).value, Total(d).value;
    var q := dl / t;
    assert q * t == dl;
    assert (1.0 - q) * t == t - dl;
    NonNegativeFactor(1.0 - q, t);
    NonNegativeFactor(q, t);
  }

  /** The record after the hook has seen the report `d`: only the progress can change. */
  function HookUpdate(rec: JobRecord, d: HookEvent): (r: JobRecord)
    ensures r == rec.(progress := r.progress)
    ensures d.status == "finished" ==> r.progress == Some(100)
    ensures d.status == "downloading" && HookPercent(d).Some? ==> r.progress == Some(HookPercent(d).value)
    ensures d.status != "finished" && (d.status != "downloading" || HookPercent(d).None?) ==> r == rec
  {
    if d.status == "downloading" then
      match HookPercent(d)
      case Some(p) => rec.(progress := Some(p))
      case None => rec
    else if d.status == "finished" then rec.(progress := Some(100))
    else rec
  }

  /** The record after the hook has seen the reports `ds`, in order. */
  function AfterHooks(rec: JobRecord, ds: seq<HookEvent>): JobRecord
  {
    if ds == [] then rec else HookUpdate(AfterHooks(rec, ds[..|ds| - 1]), ds[|ds| - 1])
  }

  /** The record once the download has started (`downloading`, progress 0) and the hook has seen
      `reports`. */
  function Fetched(rec: JobRecord, reports: seq<HookEvent>): JobRecord
  {
    AfterHooks(rec.(status := Downloading, progress := Some(0)), reports)
  }

  predicate ProgressInRange(rec: JobRecord)
  {
    rec.progress.Some? ==> 0 <= rec.progress.value <= 100
  }

  /** Progress reports change nothing but the progress; with sane byte counts they keep it within
      `[0, 100]`; after a `finished` report it is 100. */
  lemma {:induction false} AfterHooksProperties(rec: JobRecord, ds: seq<HookEvent>)
    requires ProgressInRange(rec)
    requires forall k :: 0 <= k < |ds| && ds[k].status == "downloading" ==> SaneReport(ds[k])
    ensures var r := AfterHooks(rec, ds);
      && r == rec.(progress := r.progress)
      && ProgressInRange(r)
      && (ds != [] && ds[|ds| - 1].status == "finished" ==> r.progress == Some(100))
  {
    if ds != [] {
      var init, last := ds[..|ds| - 1], ds[|ds| - 1];
      AfterHooksProperties(rec, init);
      if last.status == "downloading" && HookPercent(last).Some? {
        HookPercentInRange(last);
      }
    }
  }

  // ----- results for the caller -----

  /** Where the caller downloads a clip of a job. */
  function DownloadUrl(jobId: JobId, filename: string): string
  {
    "/download/" + jobId + "/" + filename
  }

  /** `results` lists the clips in order: number `i + 1`, the clip's file name, and its download URL. */
  ghost predicate ResultsDescribe(jobId: JobId, clips: seq<string>, results: seq<ClipResult>)
  {
    && |results| == |clips|
    && forall i :: 0 <= i < |clips| ==>
         results[i] == ClipResult(i + 1, Basename(clips[i]), DownloadUrl(jobId, Basename(clips[i])))
  }

  /** The results loop of the worker. */
  method BuildResults(jobId: JobId, clips: seq<string>) returns (results: seq<ClipResult>)
    ensures ResultsDescribe(jobId, clips, results)
  {
    results := [];
    for i := 0 to |clips|
      invariant |results| == i
      invariant forall j :: 0 <= j < i ==>
        results[j] == ClipResult(j + 1, Basename(clips[j]), DownloadUrl(jobId, Basename(clips[j])))
    {
      var filename := Basename(clips[i]);
      results := results + [ClipResult(i + 1, filename, DownloadUrl(jobId, filename))];
    }
  }

  /** For the clips the processor returns, every result names a `clip_{k}.mp4` with `1 <= k <= 3`, and
      the file the download route serves for it, `outputs/<job id>/<filename>`, is that clip. */
  lemma ResultsServeTheClips(jobId: JobId, clips: seq<string>, results: seq<ClipResult>,
                             durationSecs: int, sampleCount: int, observe: int -> Scanning.WindowObs,
                             probedDuration: Option<real>, cut: (string, real, real) -> bool)
    requires clips == VideoProcessing.ProcessOutput(Join(OutputFolder, jobId), durationSecs, sampleCount,
                                                    observe, probedDuration, cut)
    requires ResultsDescribe(jobId, clips, results)
    ensures |results| <= 3
    ensures forall i :: 0 <= i < |results| ==>
      && results[i].id == i + 1
      && (exists k :: 1 <= k <= 3 && results[i].filename == ClipPlanning.ClipName(k))
      && Join(Join(OutputFolder, jobId), results[i].filename) == clips[i]
      && results[i].url == DownloadUrl(jobId, results[i].filename)
  {
    var folder := Join(OutputFolder, jobId);
    VideoProcessing.ProcessOutputProperties(folder, durationSecs, sampleCount, observe, probedDuration, cut);
    forall i | 0 <= i < |results|
      ensures (exists k :: 1 <= k <= 3 && results[i].filename == ClipPlanning.ClipName(k))
      ensures Join(folder, results[i].filename) == clips[i]
    {
      assert clips[i] in clips;
      var p :| 0 <= p < 3 && clips[i] == ClipPlanning.ClipPath(folder, p);
      BasenameOfJoin(folder, ClipPlanning.ClipName(p + 1));
      assert results[i].filename == ClipPlanning.ClipName(p + 1);
    }
  }

  /** The message of the `TypeError` raised when the processor is constructed with a keyword it does
      not take. */
  const ProgressCallbackError: string :=
    "VideoProcessor.__init__() got an unexpected keyword argument 'progress_callback'"

  /** The processor call as the worker writes it: it passes `progress_callback=`, which the
      processor's constructor does not accept, so the call raises before any processing. */
  function ProcessorCallAsWritten(wouldReturn: Result<seq<string>>): Result<seq<string>>
  {
    Err(ProgressCallbackError)
  }

  /** Writing a key twice leaves only the second value. */
  lemma Overwrite<K, V>(m: map<K, V>, k: K, a: V, b: V)
    ensures m[k := a][k := b] == m[k := b]
  {
  }

  /** The in-memory job map, with the statuses each job has had (a ghost record for the proofs). */
  class JobTracker {
    var jobs: map<JobId, JobRecord>
    ghost var log: map<JobId, seq<Status>>

    /** Every job's status history is a lifecycle ending in its current status. */
    ghost predicate Valid()
      reads this
    {
      forall id :: id in jobs ==> id in log && HistoryOf(log[id], jobs[id].status)
    }

    constructor ()
      ensures Valid() && jobs == map[]
    {
      jobs := map[];
      log := map[];
    }

    /** `jobs[id]['status'] = s`, for a status change the lifecycle allows. */
    method SetStatus(id: JobId, s: Status)
      requires Valid() && id in jobs && Step(jobs[id].status, s)
      modifies this
      ensures Valid()
      ensures jobs == old(jobs)[id := old(jobs[id]).(status := s)]
      ensures log == old(log)[id := old(log[id]) + [s]]
    {
      LifecycleExtend(log[id], s);
      jobs := jobs[id := jobs[id].(status := s)];
      log := log[id := log[id] + [s]];
    }

    /** `jobs[id]['progress'] = p`. */
    method SetProgress(id: JobId, p: int)
      requires Valid() && id in jobs
      modifies this
      ensures Valid() && log == old(log)
      ensures jobs == old(jobs)[id := old(jobs[id]).(progress := Some(p))]
    {
      jobs := jobs[id := jobs[id].(progress := Some(p))];
    }

    /** `jobs[id]['results'] = results`. */
    method SetResults(id: JobId, results: seq<ClipResult>)
      requires Valid() && id in jobs
      modifies this
      ensures Valid() && log == old(log)
      ensures jobs == old(jobs)[id := old(jobs[id]).(results := Some(results))]
    {
      jobs := jobs[id := jobs[id].(results := Some(results))];
    }

    /** `jobs[id]['error'] = e`. */
    method SetError(id: JobId, e: string)
      requires Valid() && id in jobs
      modifies this
      ensures Valid() && log == old(log)
      ensures jobs == old(jobs)[id := old(jobs[id]).(error := Some(e))]
    {
      jobs := jobs[id := jobs[id].(error := Some(e))];
    }

    /** The start of both workers: `status = s`, then `progress = 0`. */
    method Begin(id: JobId, s: Status)
      requires Valid() && id in jobs && Step(jobs[id].status, s)
      modifies this
      ensures Valid()
      ensures jobs == old(jobs)[id := old(jobs[id]).(status := s, progress := Some(0))]
      ensures log == old(log)[id := old(log[id]) + [s]]
    {
      ghost var j0 := jobs;
      SetStatus(id, s);
      ghost var r1 := jobs[id];
      SetProgress(id, 0);
      Overwrite(j0, id, r1, jobs[id]);
    }

    /** The `except` handlers of both workers: `status = 'failed'`, then `error = str(e)`. */
    method MarkFailed(id: JobId, e: string)
      requires Valid() && id in jobs && Step(jobs[id].status, Failed)
      modifies this
      ensures Valid()
      ensures jobs == old(jobs)[id := old(jobs[id]).(status := Failed, error := Some(e))]
      ensures log == old(log)[id := old(log[id]) + [Failed]]
    {
      ghost var j0 := jobs;
      SetStatus(id, Failed);
      ghost var r1 := jobs[id];
      SetError(id, e);
      Overwrite(j0, id, r1, jobs[id]);
    }

    /** The end of the processing worker: `status = 'completed'`, `progress = 100`, then the results. */
    method MarkCompleted(id: JobId, results: seq<ClipResult>)
      requires Valid() && id in jobs && jobs[id].status == Processing
      modifies this
      ensures Valid()
      ensures jobs == old(jobs)[id := old(jobs[id]).(status := Completed, progress := Some(100), results := Some(results))]
      ensures log == old(log)[id := old(log[id]) + [Completed]]
    {
      ghost var j0 := jobs;
      SetStatus(id, Completed);
      ghost var r1 := jobs[id];
      SetProgress(id, 100);
      Overwrite(j0, id, r1, jobs[id]);
      ghost var r2 := jobs[id];
      SetResults(id, results);
      Overwrite(j0, id, r2, jobs[id]);
    }

    /** `upload_file`: validates the request and records a queued upload job under a fresh id; the file
        is stored as `uploads/<id>_<secure name>`. The worker is `RunProcessorBackground`. */
    method UploadFile(fileName: Option<string>, freshId: JobId, secureName: string) returns (response: Response)
      requires freshId !in jobs
      requires Valid()
      modifies this
      ensures Valid()
      ensures ValidateUpload(fileName).Err? ==>
        response == Rejected(400, ValidateUpload(fileName).error) && jobs == old(jobs)
      ensures ValidateUpload(fileName).Ok? ==>
        && response == Accepted(freshId, Queued)
        && jobs == old(jobs)[freshId := JobRecord(Queued, Upload, Some(Join(UploadFolder, freshId + "_" + secureName)),
                                                  None, None, None)]
    {
      var checked := ValidateUpload(fileName);
      if checked.Err? {
        return Rejected(400, checked.error);
      }
      var savePath := Join(UploadFolder, freshId + "_" + secureName);
      jobs := jobs[freshId := JobRecord(Queued, Upload, Some(savePath), None, None, None)];
      log := log[freshId := [Queued]];
      response := Accepted(freshId, Queued);
    }

    /** `process_youtube`: refuses a request without a URL, otherwise records an initializing YouTube
        job with progress 0 under a fresh id. The worker is `DownloadAndProcess`. */
    method ProcessYouTube(url: Option<string>, freshId: JobId) returns (response: Response)
      requires freshId !in jobs
      requires Valid()
      modifies this
      ensures Valid()
      ensures !UrlGiven(url) ==> response == Rejected(400, "No URL provided") && jobs == old(jobs)
      ensures UrlGiven(url) ==>
        && response == Accepted(freshId, Initializing)
        && jobs == old(jobs)[freshId := JobRecord(Initializing, YouTube, None, Some(0), None, None)]
    {
      if url.None? || url.value == "" {
        return Rejected(400, "No URL provided");
      }
      jobs := jobs[freshId := JobRecord(Initializing, YouTube, None, Some(0), None, None)];
      log := log[freshId := [Initializing]];
      response := Accepted(freshId, Initializing);
    }

    /** `run_processor_background`: marks the job processing with progress 0, then records the
        processor's outcome, `processed`: completed with progress 100 and the clip results, or failed
        with the error's text. Only this job's record changes. */
    method RunProcessorBackground(id: JobId, videoPath: string, processed: Result<seq<string>>)
      requires Valid() && id in jobs && (jobs[id].status == Queued || jobs[id].status == Downloading)
      modifies this
      ensures Valid() && id in jobs
      ensures jobs == old(jobs)[id := jobs[id]]
      ensures log == old(log)[id := log[id]]
      ensures processed.Ok? ==>
        && jobs[id] == old(jobs[id]).(status := Completed, progress := Some(100), results := jobs[id].results)
        && jobs[id].results.Some? && ResultsDescribe(id, processed.value, jobs[id].results.value)
        && log[id] == old(log[id]) + [Processing, Completed]
      ensures processed.Err? ==>
        && jobs[id] == old(jobs[id]).(status := Failed, progress := Some(0), error := Some(processed.error))
        && log[id] == old(log[id]) + [Processing, Failed]
    {
      ghost var j0, l0 := jobs, log;
      Begin(id, Processing);
      ghost var r1, log1 := jobs[id], log[id];
      match processed {
        case Ok(clips) =>
          var results := BuildResults(id, clips);
          MarkCompleted(id, results);
        case Err(e) =>
          MarkFailed(id, e);
      }
      Overwrite(j0, id, r1, jobs[id]);
      Overwrite(l0, id, log1, log[id]);
    }

    /** The worker exactly as written: the processor call raises, so every job it runs fails. */
    method RunProcessorAsWritten(id: JobId, videoPath: string, wouldReturn: Result<seq<string>>)
      requires Valid() && id in jobs && (jobs[id].status == Queued || jobs[id].status == Downloading)
      modifies this
      ensures Valid() && id in jobs && jobs == old(jobs)[id := jobs[id]]
      ensures jobs[id].status == Failed && jobs[id].error == Some(ProgressCallbackError)
    {
      RunProcessorBackground(id, videoPath, ProcessorCallAsWritten(wouldReturn));
    }

    /** `progress_hook`: applies one progress report of the download to the job's progress. */
    method ProgressHook(id: JobId, d: HookEvent)
      requires Valid() && id in jobs
      modifies this
      ensures Valid() && log == old(log)
      ensures jobs == old(jobs)[id := HookUpdate(old(jobs[id]), d)]
    {
      if d.status == "downloading" {
        var percent := HookPercent(d);
        if percent.Some? {
          SetProgress(id, percent.value);
        }
      } else if d.status == "finished" {
        SetProgress(id, 100);
      }
    }

    /** The downloader calling `progress_hook` with each of `reports`, in order. */
    method ReportDownload(id: JobId, reports: seq<HookEvent>)
      requires Valid() && id in jobs
      modifies this
      ensures Valid() && log == old(log)
      ensures jobs == old(jobs)[id := AfterHooks(old(jobs[id]), reports)]
    {
      for k := 0 to |reports|
        invariant Valid() && id in jobs && log == old(log)
        invariant jobs == old(jobs)[id := AfterHooks(old(jobs[id]), reports[..k])]
      {
        assert reports[..k + 1][..k] == reports[..k];
        ghost var before := jobs[id];
        ProgressHook(id, reports[k]);
        Overwrite(old(jobs), id, before, jobs[id]);
      }
      assert reports[..|reports|] == reports;
    }

    /** `download_and_process`: marks the job downloading with progress 0; the downloader reports
        `reports` to the hook, in order, and then yields `download`; on failure the job fails with
        the error's text, otherwise the processing worker runs with outcome `processed`. */
    method DownloadAndProcess(id: JobId, reports: seq<HookEvent>, download: Result<string>,
                              processed: Result<seq<string>>)
      requires Valid() && id in jobs && jobs[id].status == Initializing
      modifies this
      ensures Valid() && id in jobs
      ensures jobs == old(jobs)[id := jobs[id]]
      ensures log == old(log)[id := log[id]]
      ensures download.Err? ==>
        && jobs[id] == Fetched(old(jobs[id]), reports).(status := Failed, error := Some(download.error))
        && log[id] == old(log[id]) + [Downloading, Failed]
      ensures download.Ok? && processed.Ok? ==>
        && jobs[id] == Fetched(old(jobs[id]), reports).(status := Completed, progress := Some(100),
                                                         results := jobs[id].results)
        && jobs[id].results.Some? && ResultsDescribe(id, processed.value, jobs[id].results.value)
        && log[id] == old(log[id]) + [Downloading, Processing, Completed]
      ensures download.Ok? && processed.Err? ==>
        && jobs[id] == Fetched(old(jobs[id]), reports).(status := Failed, progress := Some(0),
                                                         error := Some(processed.error))
        && log[id] == old(log[id]) + [Downloading, Processing, Failed]
    {
      ghost var j0, l0 := jobs, log;
      Begin(id, Downloading);
      ReportDownload(id, reports);
      Overwrite(j0, id, j0[id].(status := Downloading, progress := Some(0)), jobs[id]);
      ghost var fetched, log1 := jobs[id], log[id];
      match download {
        case Err(e) =>
          MarkFailed(id, e);
        case Ok(videoPath) =>
          RunProcessorBackground(id, videoPath, processed);
      }
      Overwrite(j0, id, fetched, jobs[id]);
      Overwrite(l0, id, log1, log[id]);
    }

    /** `get_status`: the stored record of a known job, `None` ("Job not found") otherwise. */
    method GetStatus(id: JobId) returns (r: Option<JobRecord>)
      ensures id in jobs <==> r.Some?
      ensures r.Some? ==> r.value == jobs[id]
    {
      if id in jobs {
        r := Some(jobs[id]);
      } else {
        r := None;
      }
    }
  }
}
