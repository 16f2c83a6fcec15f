/** The highlight processor: scans a video's audio for laughter, keeps the strongest separated
    moments and cuts a clip around each. Media I/O, the classifier and the cutting tool are the
    oracles `observe`, `probedDuration` and `cut`. */
module VideoProcessing {
  import opened Outcomes
  import opened Paths
  import opened Scoring
  import opened Scanning
  import opened Selection
  import opened ClipPlanning

  /** What `process` returns for a scan of `durationSecs` whole seconds over `sampleCount` samples. */
  function ProcessOutput(folder: string, durationSecs: int, sampleCount: int, observe: int -> WindowObs,
                         probedDuration: Option<real>, cut: (string, real, real) -> bool): seq<string>
  {
    var candidates := ScanCandidates(durationSecs, sampleCount, observe);
    if candidates == [] then []
    else CutOutputs(folder, Select(SortByScore(candidates)), FullDuration(probedDuration), cut)
  }

  /** Whatever the audio, classifier and cutting tool do, `process` returns at most `MaxClips`
      distinct clip paths, each the path of a selected moment's rank, and nothing for a video
      of at most `WindowSize` whole seconds. */
  lemma ProcessOutputProperties(folder: string, durationSecs: int, sampleCount: int, observe: int -> WindowObs,
                                probedDuration: Option<real>, cut: (string, real, real) -> bool)
    ensures |ProcessOutput(folder, durationSecs, sampleCount, observe, probedDuration, cut)| <= MaxClips
    ensures Distinct(ProcessOutput(folder, durationSecs, sampleCount, observe, probedDuration, cut))
    ensures forall p :: p in ProcessOutput(folder, durationSecs, sampleCount, observe, probedDuration, cut) ==>
      exists i :: 0 <= i < MaxClips && p == ClipPath(folder, i)
    ensures durationSecs <= WindowSize ==> ProcessOutput(folder, durationSecs, sampleCount, observe, probedDuration, cut) == []
  {
    var candidates := ScanCandidates(durationSecs, sampleCount, observe);
    if durationSecs <= WindowSize {
      ShortVideoHasNoCandidates(durationSecs, sampleCount, observe);
    }
    if candidates != [] {
      var ranked := SortByScore(candidates);
      SortByScoreNonIncreasing(candidates);
      SelectProperties(ranked);
      var top := Select(ranked);
      var fd := FullDuration(probedDuration);
      CutOutputsDistinct(folder, top, fd, cut);
      CutOutputsArePositions(folder, top, fd, cut);
      SuccessfulPositionsExact(folder, top, fd, cut);
      var ps := SuccessfulPositions(folder, top, fd, cut);
      var out := CutOutputs(folder, top, fd, cut);
      forall p | p in out ensures exists i :: 0 <= i < MaxClips && p == ClipPath(folder, i) {
        var k :| 0 <= k < |out| && out[k] == p;
        assert ps[k] < MaxClips && out[k] == ClipPath(folder, ps[k]);
      }
    }
  }

  /** A processor for one job: the source video, the job's output folder and the audio file it extracts. */
  class VideoProcessor {
    const videoPath: string
    const outputFolder: string
    const jobId: string
    const audioPath: string

    constructor (videoPath: string, outputRoot: string, jobId: string)
      ensures this.videoPath == videoPath && this.jobId == jobId
      ensures outputFolder == Join(outputRoot, jobId)
      ensures audioPath == Join(outputFolder, "audio.wav")
    {
      this.videoPath := videoPath;
      this.outputFolder := Join(outputRoot, jobId);
      this.jobId := jobId;
      this.audioPath := Join(Join(outputRoot, jobId), "audio.wav");
    }

    /** The laughter score of one window: the classifier results' scores summed over funny labels. */
    method SumFunnyScores(results: seq<ClassResult>) returns (score: real)
      ensures score == SumScores(FunnyOnly(results))
    {
      score := 0.0;
      for k := 0 to |results|
        invariant score == FunnySum(results[..k])
      {
        var r := results[k];
        if IsFunny(r.eventLabel) {
          score := score + r.score;
        }
        assert results[..k + 1][..k] == results[..k];
      }
      assert results[..|results|] == results;
      FunnySumIsSumOfFunny(results);
    }

    /** `find_candidates`: scans windows `0, 2, 4, ...` of a track of `durationSecs` whole seconds and
        `sampleCount` samples, stopping at the first window that runs past the audio, and yields a
        candidate at the centre of each window that passes the energy gate, is classified, and scores
        strictly above the threshold. */
    method FindCandidates(durationSecs: int, sampleCount: int, observe: int -> WindowObs)
      returns (candidates: seq<Candidate>)
      ensures candidates == ScanCandidates(durationSecs, sampleCount, observe)
      ensures TimesIncreasing(candidates)
      ensures forall c :: c in candidates ==> c.laughterScore > AcceptThreshold
    {
      var timestamps := ScanStarts(durationSecs);
      candidates := [];
      var i := 0;
      while i < |timestamps|
        invariant 0 <= i <= |timestamps|
        invariant forall k :: 0 <= k < i ==> WindowFits(timestamps[k], sampleCount)
        invariant candidates == Candidates(timestamps[..i], observe)
      {
        var start := timestamps[i];
        var end := start + WindowSize;
        var endSample := end * SampleRate;
        if endSample > sampleCount {
          break;
        }
        CandidatesSnoc(timestamps, observe, i);
        EmittedCases(start, observe);
        var obs := observe(start);
        if obs.rms < EnergyGate {
          i := i + 1;
          continue;
        }
        if obs.classification.Some? {
          var score := SumFunnyScores(obs.classification.value);
          FunnySumIsSumOfFunny(obs.classification.value);
          if score > AcceptThreshold {
            candidates := candidates + [Candidate(start as real + WindowSize as real / 2.0, score, obs.peak)];
          }
        }
        i := i + 1;
      }
      ExaminedStopsAt(timestamps, sampleCount, i);
      ScanCandidatesOrdered(durationSecs, sampleCount, observe);
    }

    /** The non-maximum suppression loop: walks the ranked candidates, keeping each one that is not
        within `MinSeparation` seconds of one already kept, and stops once `MaxClips` are kept. */
    method SelectUnique(ranked: seq<Candidate>) returns (unique: seq<Candidate>)
      ensures unique == Select(ranked)
    {
      unique := [];
      var i := 0;
      while i < |ranked|
        invariant 0 <= i <= |ranked|
        invariant |unique| < MaxClips
        invariant GreedyFrom(ranked, i, unique) == Select(ranked)
      {
        var cand := ranked[i];
        var isOverlap := false;
        var j := 0;
        while j < |unique|
          invariant 0 <= j <= |unique|
          invariant !isOverlap
          invariant forall k :: 0 <= k < j ==> !Near(cand, unique[k])
        {
          if Abs(cand.time - unique[j].time) < MinSeparation {
            isOverlap := true;
            break;
          }
          j := j + 1;
        }
        assert isOverlap <==> !FarFromAll(cand, unique);
        ghost var next := GreedyFrom(ranked, i, unique);
        if !isOverlap {
          unique := unique + [cand];
        }
        assert next == if |unique| >= MaxClips then unique else GreedyFrom(ranked, i + 1, unique);
        if |unique| >= MaxClips {
          break;
        }
        i := i + 1;
      }
    }

    /** The cut loop: plans each selected moment's window, asks the cutting tool for
        `clip_{i+1}.mp4`, and keeps the paths of the cuts that succeeded, in rank order. */
    method CutClips(top: seq<Candidate>, fullDuration: real, cut: (string, real, real) -> bool)
      returns (outputClips: seq<string>)
      ensures outputClips == CutOutputs(outputFolder, top, fullDuration, cut)
    {
      outputClips := [];
      for i := 0 to |top|
        invariant outputClips == CutOutputs(outputFolder, top[..i], fullDuration, cut)
      {
        var w := PlanWindow(top[i].time, fullDuration);
        var outPath := Join(outputFolder, "clip_" + NatToString(i + 1) + ".mp4");
        assert top[..i + 1][..i] == top[..i];
        CutSucceedsOnPrefix(outputFolder, top, fullDuration, cut, i, i + 1);
        if cut(outPath, w.start, w.end - w.start) {
          outputClips := outputClips + [outPath];
        }
      }
      assert top[..|top|] == top;
    }

    /** `process`: scan, stop with no clips when nothing was found, rank, suppress, and cut. */
    method Process(durationSecs: int, sampleCount: int, observe: int -> WindowObs,
                   probedDuration: Option<real>, cut: (string, real, real) -> bool)
      returns (clips: seq<string>)
      ensures clips == ProcessOutput(outputFolder, durationSecs, sampleCount, observe, probedDuration, cut)
      ensures |clips| <= MaxClips
      ensures Distinct(clips)
      ensures durationSecs <= WindowSize ==> clips == []
    {
      ProcessOutputProperties(outputFolder, durationSecs, sampleCount, observe, probedDuration, cut);
      var candidates := FindCandidates(durationSecs, sampleCount, observe);
      if candidates == [] {
        return [];
      }
      var ranked := SortByScore(candidates);
      var top := SelectUnique(ranked);
      var fullDuration := FullDuration(probedDuration);
      clips := CutClips(top, fullDuration, cut);
    }
  }
}
