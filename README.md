# video_clipper highlight detection and job bookkeeping, in Dafny

This project models the two parts of video_clipper that hold its logic.

**The highlight finder (`VideoProcessor`).** It scans a video's audio track in 5-second windows
every 2 seconds. It skips near-silent windows, scores each remaining window by the classifier
results whose label names a kind of laughter, and keeps the windows that score above 0.02 as
candidate moments. It ranks the candidates by score with a stable sort and keeps at most three of
them that are at least 30 seconds apart (greedy non-maximum suppression). The greedy pass does not
maximise how many moments it keeps: a strong moment can suppress two neighbours that are far
enough from each other to both be kept. What it does promise is that every candidate it examined
and did not keep lies near a kept moment ranked before it. Around each kept moment
it cuts a clip of at most 60 seconds that starts at most 20 seconds before the moment. It returns the paths
of the clips that were cut, numbered `clip_1.mp4`, `clip_2.mp4`, … in rank order.

**The web front end's job table.** This is a map from job id to job record, updated in place by:
- the upload and YouTube request handlers, which create records;
- the processing worker, which runs the highlight finder and records completion, results or
  failure;
- the YouTube download worker and its progress hook, which turn downloaded and total byte counts
  into a percentage;
- the status lookup.

The media and machine-learning parts are parameters of the model:
- the per-window energy and classifier outcome: `observe: int -> WindowObs`, indexed by the
  window's start second;
- the audio's sample count and whole-second duration;
- the outcome of probing the video's length: `Option<real>`;
- the clip cutter: `cut: (path, start, length) -> bool`;
- the outcome of the processor: `Result<seq<string>>`;
- the downloader: a sequence of progress reports followed by `Result<string>`.

Modules: `Outcomes` (Option/Result), `Paths` (path joining, basename, decimal numbers), `Scoring`
(laughter score), `Scanning` (window scan), `Selection` (ranking and suppression), `ClipPlanning`
(clip windows, names and the cut loop), `VideoProcessing` (the `VideoProcessor` class), `JobStatus`
(the status lifecycle) and `Jobs` (the `JobTracker` class over the job map).

The class methods are the loops of the source, each proved against a specification function:
- `FindCandidates` against `ScanCandidates`;
- `SelectUnique` against `Select`;
- `CutClips` against `CutOutputs`;
- `Process` against `ProcessOutput`.

The lemmas state what those functions promise. A ghost `log` in `JobTracker` records every status
a job has had. The class invariant `Valid` says each log is a legal lifecycle ending in the job's
current status.

## Model

| member | source | states |
|---|---|---|
| Scanning.ScanStartsMembers | main/video_processor.py:64-67 | a start is scanned iff it is an even second `s >= 0` with `s + 5 < int(duration)` |
| Scanning.ShortVideoHasNoStarts | main/video_processor.py:67 | a duration of at most 5 whole seconds gives no windows |
| Scanning.ExaminedIsFittingPrefix | main/video_processor.py:72-76 | the examined starts are a prefix of the scan starts, all of whose windows fit in the audio, and the first start not examined has a window that runs past the audio |
| Scanning.ExaminedStopsAt | main/video_processor.py:72-76 | a scan that stops at the first window running past the audio (or at the end) has examined exactly the starts before it |
| Scanning.NoEarlyStopForOwnDuration | main/video_processor.py:58-76 | when the duration is the audio's own, no window runs past the audio, so every start is examined |
| Scoring.FunnySumIsSumOfFunny | main/video_processor.py:93-102 | the window score is the sum of the scores of exactly those results whose label contains a funny label |
| Scoring.NoFunnyLabelsScoreZero | main/video_processor.py:101-102 | results with no funny label give score 0 |
| Scoring.FunnySumBounds | main/video_processor.py:101-102 | with probabilities in [0, 1] the score lies between 0 and the number of results |
| Scoring.FunnyLabelIsFunny | main/video_processor.py:96-99 | each listed funny label counts as funny |
| Scanning.WindowCandidateMeaning | main/video_processor.py:81-118 | a window yields a candidate iff it passes the 0.002 energy gate, the classifier answers, and the score is strictly above 0.02; the candidate is at `start + 2.5` with that score and the window's peak |
| Scanning.CandidateOrigin | main/video_processor.py:106-115 | every candidate is the window candidate of one examined start |
| Scanning.CandidateComplete | main/video_processor.py:106-115 | every examined window that yields a candidate contributes it to the list |
| Scanning.CandidatesIncreasing | main/video_processor.py:71-115 | increasing starts give candidates in strictly increasing time order |
| Scanning.ScanCandidatesOrdered | main/video_processor.py:56-120 | the scan's candidates are in strictly increasing time order and all score above 0.02 |
| Scanning.ShortVideoHasNoCandidates | main/video_processor.py:64-67 | a video of at most 5 whole seconds yields no candidates |
| VideoProcessing.VideoProcessor.SumFunnyScores | main/video_processor.py:93-102 | the accumulating loop returns the sum of the funny results' scores |
| VideoProcessing.VideoProcessor.FindCandidates | main/video_processor.py:56-120 | the scan loop, with its break and continues, returns `ScanCandidates`: strictly time-ordered candidates, each above the threshold |
| Selection.SortByScorePermutes | main/video_processor.py:133 | ranking is a permutation of the candidates |
| Selection.SortByScoreNonIncreasing | main/video_processor.py:133 | ranked scores are non-increasing |
| Selection.SortByScoreRanked | main/video_processor.py:133 | for time-ordered input, the ranking is stable: higher score first, and between equal scores the earlier time |
| Selection.GreedyFromProperties | main/video_processor.py:136-150 | from any loop state satisfying the invariant, it keeps at most 3 candidates, pairwise at least 30 s apart, as a subsequence of the ranking; it stops after examining some prefix of the ranking, keeps only candidates from that prefix, and every candidate examined is kept, or lies within 30 s of a kept candidate ranked before it with at least its score |
| Selection.SelectProperties | main/video_processor.py:136-150 | the selection is at most 3 and at most the input, pairwise separated by 30 s, a subsequence of the ranking with non-increasing scores, and starts with the top-ranked candidate; each candidate examined and not kept lies within 30 s of a kept one ranked before it, and so examined before it, with at least its score; the loop examines a prefix of the ranking, keeps only from it, and examines every candidate unless it kept 3 |
| Selection.SelectIsNotMaximumCount | main/video_processor.py:136-150 | on the ranking of moments at 25 s (score 1.0), 0 s and 50 s (0.5) and 100 s (0.4), the selection is only the moments at 25 s and 100 s, although the moments at 0, 50 and 100 s are pairwise at least 30 s apart |
| Selection.CoverageExcludesSkipping | main/video_processor.py:136-150 | on the ranking of moments at 0, 100, 200, 300 and 400 s with falling scores, the separated three-moment list [0, 300, 400] violates the coverage property, so it cannot pass for the selection: a candidate the loop skips must be near an earlier kept one |
| Selection.SelectedTopIsBest | main/video_processor.py:133-150 | the first selected moment is a candidate that ranks before every other candidate: a higher score, or an equal score and an earlier time |
| VideoProcessing.VideoProcessor.SelectUnique | main/video_processor.py:136-150 | the nested loop with both breaks returns exactly `Select(ranked)` |
| ClipPlanning.FullDurationWindows | main/video_processor.py:166-175 | when probing the length raises, the 99999-second fallback gives every moment in `[0, 99959]` a full 60-second clip containing it; when probing succeeds, no clip ends past the probed length |
| ClipPlanning.PlanWindow | main/video_processor.py:172-175 | `start >= 0`, `end <= full_duration`, `end - start <= 60`; for a moment at `t >= 0` the clip starts at most 20 s before it; it is a full 60 s when the video is long enough; it contains the moment when the moment is inside the video; its length is non-negative iff it starts inside the video |
| ClipPlanning.ClipNamesDiffer | main/video_processor.py:177 | different ranks give different `clip_{k}.mp4` names |
| ClipPlanning.ClipPathsDiffer | main/video_processor.py:177 | different positions give different output paths |
| ClipPlanning.SuccessfulPositionsExact | main/video_processor.py:172-191 | the positions kept are strictly increasing and are exactly those whose cut succeeded |
| ClipPlanning.CutOutputsArePositions | main/video_processor.py:177-188 | the outputs are the paths `clip_{i+1}.mp4` of the successful positions, in rank order |
| ClipPlanning.CutOutputsDistinct | main/video_processor.py:172-193 | the outputs are pairwise distinct and no more than the selected moments |
| ClipPlanning.AllCutsSucceed | main/video_processor.py:172-193 | when every cut succeeds, output `i` is `clip_{i+1}.mp4` for every selected moment |
| VideoProcessing.VideoProcessor.constructor | main/video_processor.py:11-16 | the output folder is `<output root>/<job id>` and the audio file is `audio.wav` inside it |
| VideoProcessing.VideoProcessor.CutClips | main/video_processor.py:172-193 | the cut loop returns `CutOutputs`: one path per successful cut, in rank order |
| VideoProcessing.ProcessOutputProperties | main/video_processor.py:122-193 | `process` returns at most 3 distinct paths, each `clip_{i+1}.mp4` for some `i < 3` in the job's folder, and nothing for a video of at most 5 whole seconds |
| VideoProcessing.VideoProcessor.Process | main/video_processor.py:122-193 | returns `ProcessOutput`, with at most 3 distinct paths and none for a short video |
| JobStatus.LifecycleMonotonic | main/app.py:132-156 | along a job's status history each status is strictly further along than the one before, so no status recurs; nothing follows completed or failed; a history has at most 4 entries |
| JobStatus.SuccessfulLifecycles | main/app.py:27-69 | a completed job went queued → processing → completed or initializing → downloading → processing → completed |
| Jobs.ValidateUpload | main/app.py:73-81 | an upload is accepted iff it has a file part with a non-empty name ending in `.mp4`; otherwise it is refused with "No file part", "No selected file" or "Only mp4 supported", in that order of checks |
| Jobs.JobTracker.UploadFile | main/app.py:72-99 | a refused upload leaves the table unchanged; an accepted one adds `{queued, upload, uploads/<id>_<name>}` under the fresh id and answers queued |
| Jobs.JobTracker.ProcessYouTube | main/app.py:102-161 | a request without a URL is refused with "No URL provided" and changes nothing; otherwise it adds `{initializing, youtube, progress 0}` under the fresh id |
| Jobs.TruncateToInt | main/app.py:121 | Python's `int()`: truncation toward zero |
| Jobs.HookPercent | main/app.py:116-125 | a downloading report sets a progress iff its total is a positive number and its downloaded count is a number; a `None` field raises inside the hook and sets nothing |
| Jobs.HookPercentInRange | main/app.py:120-122 | with `0 <= downloaded <= total`, the progress is in [0, 100] and equals the whole number of percent downloaded |
| Jobs.HookUpdate | main/app.py:113-130 | a report changes only the progress: `finished` sets 100; `downloading` with a usable total sets the percentage; anything else leaves the record unchanged |
| Jobs.AfterHooksProperties | main/app.py:113-130 | a sequence of reports changes only the progress; with sane reports it stays in [0, 100]; it is 100 after a `finished` report |
| Jobs.JobTracker.ProgressHook | main/app.py:113-130 | the hook writes `HookUpdate` to this job's record and changes no other job |
| Jobs.JobTracker.ReportDownload | main/app.py:136-146 | the downloader's reports, applied in order, leave this job at `AfterHooks` and every other job unchanged |
| Jobs.BuildResults | main/app.py:53-60 | one result per clip path, in order, with `id = i + 1`, the path's basename, and `/download/<job id>/<basename>` |
| Jobs.ResultsServeTheClips | main/app.py:53-60 | every result names a `clip_{k}.mp4` with `1 <= k <= 3`, and the file the download route serves for it is that clip |
| Jobs.JobTracker.MarkCompleted | main/app.py:62-64 | completion sets `completed`, progress 100 and the results; every other field and every other job stay as they were, and the log gains `completed` |
| Jobs.JobTracker.MarkFailed | main/app.py:66-69 | failure sets `failed` and the error text, and leaves progress and every other field as they were |
| Jobs.JobTracker.RunProcessorBackground | main/app.py:27-69 | the job becomes processing with progress 0. On success it becomes completed with progress 100 and the results of the clips. On failure it becomes failed with progress 0 and the error. Only this job's record changes, and its history gains processing then completed or failed |
| Jobs.JobTracker.DownloadAndProcess | main/app.py:111-154 | the job becomes downloading with progress 0 and then follows the reports. A failed download makes it failed with the error. Otherwise the processing worker runs, resetting progress to 0 even after a finished download. Only this job changes |
| Jobs.JobTracker.GetStatus | main/app.py:164-168 | an unknown id gives "not found"; a known id gives its stored record unchanged |
| Jobs.JobTracker.RunProcessorAsWritten | main/app.py:27-69 | with the constructor call as written, every job the worker runs ends failed with that error |

## Left out

- Audio loading, probing the duration, and extracting the audio with MoviePy or ffmpeg
  (`extract_audio`) are file and media I/O. The sample count, the whole-second duration and the
  probed length are inputs.
- `VideoProcessor.Process` has no failure path. In the source, `extract_audio` swallows both
  extraction errors, and `librosa.load` then raises on the missing `audio.wav`, so `process` can
  raise. The model shows that failure only as the `Err` processor outcome that the job worker
  receives.
- The constructor's `os.makedirs` of the job's output folder is file-system I/O and is not modelled.
- RMS, peak and the float32 normalisation are floating-point numerics. Each window's RMS and peak
  are abstract reals in `WindowObs`.
- The audio classifier and GPU detection are a foreign ML call. Each window's result is an
  optional list of (label, score) pairs; `None` stands for a raised exception.
- The ffmpeg cut is an external tool. It is the oracle `cut`, asked with the output path, the
  start and the length.
- tqdm, the printed table and the progress bars are display only.
- Flask routing, CORS, `send_from_directory`, `secure_filename`, `file.save` and uuid generation
  are web and I/O plumbing. Fresh ids and secured file names are parameters; the upload and YouTube
  handlers require the id not to be in the table yet, which uuid4 ids are in practice. A request body that is not
  JSON is not modelled.
- `threading.Thread` is concurrency. Each worker is one sequential method. Interleavings between a
  worker and `get_status`, or between two workers, are not modelled.
- The yt-dlp download is a network client. It is a sequence of progress reports followed by the
  downloaded path or an error.
- The processor does not invoke the progress callback passed by `run_processor_background`
  (`video_processor.py` never calls one), so the model has no callback.
- `Selection.SortByScore`: the in-place list sort is modelled as a stable insertion sort on a
  sequence, not as an update in place.
- `Paths.Join`: `os.path.join` is modelled for a relative second part only, as a single `/`
  between the two parts.
- `Jobs.HookPercent`: `downloaded / total * 100` is exact real arithmetic, not float division, so
  float rounding at whole percentages is not modelled.
- main/extract_transcript.py and main/quick_test.py are not part of this model: the first wraps
  a speech-to-text model around file writes; the second is a driver script with no checks.

## Findings

| source | as written | input that shows it | evidently intended | confidence | as-written member | corrected member |
|---|---|---|---|---|---|---|
| main/app.py:43-48 | the worker constructs `VideoProcessor(..., progress_callback=update_progress)`, but the constructor at main/video_processor.py:11 takes only `video_path, output_folder, job_id`, so the call raises `TypeError` | any upload or downloaded video: the job always ends `failed` with "unexpected keyword argument 'progress_callback'" | the processor runs and the job completes with its results, or fails with the processor's own error | high; not executed | Jobs.JobTracker.RunProcessorAsWritten | Jobs.JobTracker.RunProcessorBackground |
