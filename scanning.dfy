/** The dense window scan of `find_candidates`: which windows are examined and which become candidates. */
module Scanning {
  import opened Outcomes
  import opened Scoring

  /** Window length and step of the scan, in whole seconds. */
  const WindowSize: int := 5
  const StepSize: int := 2
  /** The rate the audio track is decoded at, in samples per second. */
  const SampleRate: int := 16000
  /** A window whose RMS amplitude is below this is skipped as near-silent. */
  const EnergyGate: real := 0.002
  /** A window becomes a candidate only when its laughter score is strictly above this. */
  const AcceptThreshold: real := 0.02

  /** What the scan learns about one window from the decoded audio and the classifier:
      its RMS amplitude, its peak absolute amplitude, and the classifier's results
      (`None` when the classifier raised). */
  datatype WindowObs = WindowObs(rms: real, peak: real, classification: Option<seq<ClassResult>>)

  /** A scored highlight point: the window's centre, its laughter score and its peak amplitude. */
  datatype Candidate = Candidate(time: real, laughterScore: real, energy: real)

  predicate StartsIncreasing(ts: seq<int>)
  {
    forall i, j :: 0 <= i < j < |ts| ==> ts[i] < ts[j]
  }

  predicate TimesIncreasing(cs: seq<Candidate>)
  {
    forall i, j :: 0 <= i < j < |cs| ==> cs[i].time < cs[j].time
  }

  /** `list(range(0, durationSecs - WindowSize, StepSize))`, where `durationSecs` is `int(duration)`. */
  function ScanStarts(durationSecs: int): (ts: seq<int>)
    ensures forall k :: 0 <= k < |ts| ==> ts[k] == StepSize * k
  {
    var stop := durationSecs - WindowSize;
    var count := if stop <= 0 then 0 else (stop + StepSize - 1) / StepSize;
    seq(count, k => StepSize * k)
  }

  /** The scan starts are exactly the even seconds `s >= 0` with `s + WindowSize < durationSecs`. */
  lemma ScanStartsMembers(durationSecs: int, s: int)
    ensures s in ScanStarts(durationSecs) <==> 0 <= s && s % StepSize == 0 && s + WindowSize < durationSecs
  {
    var ts := ScanStarts(durationSecs);
    if 0 <= s && s % StepSize == 0 && s + WindowSize < durationSecs {
      assert ts[s / StepSize] == s;
    }
  }

  /** A video of at most `WindowSize` whole seconds has no scan starts. */
  lemma ShortVideoHasNoStarts(durationSecs: int)
    requires durationSecs <= WindowSize
    ensures ScanStarts(durationSecs) == []
  {
  }

  /** The window starting at `start` covers samples `[start * SampleRate, (start + WindowSize) * SampleRate)`;
      it fits when its end sample does not pass the audio's length. */
  predicate WindowFits(start: int, sampleCount: int)
  {
    (start + WindowSize) * SampleRate <= sampleCount
  }

  /** The starts the scan examines: those before the first window that runs past the audio. */
  function Examined(ts: seq<int>, sampleCount: int): seq<int>
  {
    if ts == [] || !WindowFits(ts[0], sampleCount) then []
    else [ts[0]] + Examined(ts[1..], sampleCount)
  }

  /** The examined starts are a prefix of the scan starts, every one of them fits, and when the scan
      stops early it is because the next window does not fit. */
  lemma {:induction false} ExaminedIsFittingPrefix(ts: seq<int>, sampleCount: int)
    ensures |Examined(ts, sampleCount)| <= |ts|
    ensures Examined(ts, sampleCount) == ts[..|Examined(ts, sampleCount)|]
    ensures forall k :: 0 <= k < |Examined(ts, sampleCount)| ==> WindowFits(ts[k], sampleCount)
    ensures |Examined(ts, sampleCount)| < |ts| ==> !WindowFits(ts[|Examined(ts, sampleCount)|], sampleCount)
  {
    if ts != [] && WindowFits(ts[0], sampleCount) {
      var rest := ts[1..];
      ExaminedIsFittingPrefix(rest, sampleCount);
      var e := Examined(ts, sampleCount);
      assert e == [ts[0]] + Examined(rest, sampleCount);
      forall k | 0 <= k < |e| ensures WindowFits(ts[k], sampleCount) {
        if k > 0 { assert ts[k] == rest[k - 1]; }
      }
    }
  }

  /** A scan that finds the first `i` windows fitting and stops at `i` (the next one runs past the
      audio, or there is none) has examined exactly the first `i` starts. */
  lemma ExaminedStopsAt(ts: seq<int>, sampleCount: int, i: int)
    requires 0 <= i <= |ts|
    requires forall k :: 0 <= k < i ==> WindowFits(ts[k], sampleCount)
    requires i < |ts| ==> !WindowFits(ts[i], sampleCount)
    ensures Examined(ts, sampleCount) == ts[..i]
  {
    ExaminedIsFittingPrefix(ts, sampleCount);
  }

  /** When every start fits, the scan examines all of them. */
  lemma {:induction false} ExaminedAllWhenFitting(ts: seq<int>, sampleCount: int)
    requires forall k :: 0 <= k < |ts| ==> WindowFits(ts[k], sampleCount)
    ensures Examined(ts, sampleCount) == ts
  {
    if ts != [] {
      ExaminedAllWhenFitting(ts[1..], sampleCount);
    }
  }

  /** When the whole-second duration is the audio's own (`sampleCount / SampleRate`), no window runs
      past the audio, so the early stop never fires. */
  lemma NoEarlyStopForOwnDuration(sampleCount: nat)
    ensures Examined(ScanStarts(sampleCount / SampleRate), sampleCount) == ScanStarts(sampleCount / SampleRate)
  {
    var d := sampleCount / SampleRate;
    var ts := ScanStarts(d);
    forall k | 0 <= k < |ts| ensures WindowFits(ts[k], sampleCount) {
      ScanStartsMembers(d, ts[k]);
      assert ts[k] + WindowSize <= d;
      assert d * SampleRate <= sampleCount;
    }
    ExaminedAllWhenFitting(ts, sampleCount);
  }

  /** The laughter score of a window, or `None` when the window is skipped before scoring:
      it fails the energy gate or the classifier raised. */
  function WindowScore(obs: WindowObs): Option<real>
  {
    if obs.rms < EnergyGate then None
    else match obs.classification
      case None => None
      case Some(results) => Some(FunnySum(results))
  }

  /** The candidate the window starting at `start` yields, if any. */
  function WindowCandidate(start: int, obs: WindowObs): Option<Candidate>
  {
    match WindowScore(obs)
    case Some(score) =>
      if score > AcceptThreshold then
        Some(Candidate(start as real + WindowSize as real / 2.0, score, obs.peak))
      else None
    case None => None
  }

  /** The window candidate of `start` as a list of zero or one candidates. */
  function Emitted(start: int, observe: int -> WindowObs): seq<Candidate>
  {
    match WindowCandidate(start, observe(start))
    case Some(c) => [c]
    case None => []
  }

  /** The three ways a window yields nothing or one candidate, as the scan loop meets them. */
  lemma EmittedCases(start: int, observe: int -> WindowObs)
    ensures var obs := observe(start);
      && (obs.rms < EnergyGate ==> Emitted(start, observe) == [])
      && (obs.rms >= EnergyGate && obs.classification.None? ==> Emitted(start, observe) == [])
      && (obs.rms >= EnergyGate && obs.classification.Some? ==>
            var score := FunnySum(obs.classification.value);
            Emitted(start, observe) ==
              if score > AcceptThreshold
              then [Candidate(start as real + WindowSize as real / 2.0, score, obs.peak)]
              else [])
  {
  }

  /** The candidates yielded by the examined starts, in scan order. */
  function Candidates(starts: seq<int>, observe: int -> WindowObs): seq<Candidate>
  {
    if starts == [] then []
    else Candidates(starts[..|starts| - 1], observe) + Emitted(starts[|starts| - 1], observe)
  }

  /** One more examined start adds its window candidate, if any, at the end. */
  lemma CandidatesSnoc(starts: seq<int>, observe: int -> WindowObs, i: int)
    requires 0 <= i < |starts|
    ensures Candidates(starts[..i + 1], observe) == Candidates(starts[..i], observe) + Emitted(starts[i], observe)
  {
    assert starts[..i + 1][..i] == starts[..i];
  }

  /** A window yields a candidate exactly when it passes the energy gate, the classifier answers,
      and the funny-label score is strictly above the threshold; the candidate sits at the window's
      centre with that score and the window's peak. */
  lemma WindowCandidateMeaning(start: int, obs: WindowObs)
    ensures WindowCandidate(start, obs).Some? <==>
      obs.rms >= EnergyGate && obs.classification.Some? && FunnySum(obs.classification.value) > AcceptThreshold
    ensures WindowCandidate(start, obs).Some? ==>
      WindowCandidate(start, obs).value == Candidate(start as real + 2.5, FunnySum(obs.classification.value), obs.peak)
  {
  }

  /** Every candidate comes from one of the starts, as that start's window candidate. */
  lemma {:induction false} CandidateOrigin(starts: seq<int>, observe: int -> WindowObs, c: Candidate)
    requires c in Candidates(starts, observe)
    ensures exists k :: 0 <= k < |starts| && WindowCandidate(starts[k], observe(starts[k])) == Some(c)
  {
    var init, last := starts[..|starts| - 1], starts[|starts| - 1];
    if c in Candidates(init, observe) {
      CandidateOrigin(init, observe, c);
      var k :| 0 <= k < |init| && WindowCandidate(init[k], observe(init[k])) == Some(c);
      assert starts[k] == init[k];
    } else {
      assert c in Emitted(last, observe);
      assert WindowCandidate(last, observe(last)) == Some(c);
    }
  }

  /** Every window candidate of a start appears in the candidate list. */
  lemma {:induction false} CandidateComplete(starts: seq<int>, observe: int -> WindowObs, k: int)
    requires 0 <= k < |starts| && WindowCandidate(starts[k], observe(starts[k])).Some?
    ensures WindowCandidate(starts[k], observe(starts[k])).value in Candidates(starts, observe)
  {
    if k < |starts| - 1 {
      var init := starts[..|starts| - 1];
      assert init[k] == starts[k];
      CandidateComplete(init, observe, k);
    }
  }

  /** Every candidate's score is strictly above the acceptance threshold. */
  lemma CandidatesAboveThreshold(starts: seq<int>, observe: int -> WindowObs)
    ensures forall c :: c in Candidates(starts, observe) ==> c.laughterScore > AcceptThreshold
  {
    forall c | c in Candidates(starts, observe) ensures c.laughterScore > AcceptThreshold {
      CandidateOrigin(starts, observe, c);
    }
  }

  /** Starts all below `bound` yield candidates all timed before the window at `bound`'s centre. */
  lemma CandidatesBefore(starts: seq<int>, observe: int -> WindowObs, bound: int)
    requires forall k :: 0 <= k < |starts| ==> starts[k] < bound
    ensures forall c :: c in Candidates(starts, observe) ==> c.time < bound as real + 2.5
  {
    forall c | c in Candidates(starts, observe) ensures c.time < bound as real + 2.5 {
      CandidateOrigin(starts, observe, c);
      var k :| 0 <= k < |starts| && WindowCandidate(starts[k], observe(starts[k])) == Some(c);
      WindowCandidateMeaning(starts[k], observe(starts[k]));
      assert c.time == starts[k] as real + 2.5;
      assert starts[k] as real < bound as real;
    }
  }

  /** Starts in strictly increasing order yield candidates in strictly increasing time order. */
  lemma {:induction false} CandidatesIncreasing(starts: seq<int>, observe: int -> WindowObs)
    requires StartsIncreasing(starts)
    ensures TimesIncreasing(Candidates(starts, observe))
  {
    if starts != [] {
      var init, last := starts[..|starts| - 1], starts[|starts| - 1];
      assert forall i, j :: 0 <= i < j < |init| ==> init[i] == starts[i] < starts[j] == init[j];
      CandidatesIncreasing(init, observe);
      var before := Candidates(init, observe);
      var cs := Candidates(starts, observe);
      assert cs == before + Emitted(last, observe);
      if WindowCandidate(last, observe(last)).Some? {
        var c := WindowCandidate(last, observe(last)).value;
        WindowCandidateMeaning(last, observe(last));
        assert cs == before + [c];
        assert forall k :: 0 <= k < |init| ==> init[k] == starts[k] < last;
        CandidatesBefore(init, observe, last);
        forall i, j | 0 <= i < j < |cs| ensures cs[i].time < cs[j].time {
          if j == |before| {
            assert cs[i] == before[i] && cs[j] == c;
          } else {
            assert cs[i] == before[i] && cs[j] == before[j];
          }
        }
      } else {
        assert cs == before;
      }
    }
  }

  /** The scan starts are strictly increasing. */
  lemma ScanStartsIncreasing(durationSecs: int)
    ensures StartsIncreasing(ScanStarts(durationSecs))
  {
  }

  /** The candidates of a whole scan: what `find_candidates` returns. */
  function ScanCandidates(durationSecs: int, sampleCount: int, observe: int -> WindowObs): seq<Candidate>
  {
    Candidates(Examined(ScanStarts(durationSecs), sampleCount), observe)
  }

  /** The candidates of a whole scan come out in strictly increasing time order, each above the threshold. */
  lemma ScanCandidatesOrdered(durationSecs: int, sampleCount: int, observe: int -> WindowObs)
    ensures TimesIncreasing(ScanCandidates(durationSecs, sampleCount, observe))
    ensures forall c :: c in ScanCandidates(durationSecs, sampleCount, observe) ==> c.laughterScore > AcceptThreshold
  {
    var ts := ScanStarts(durationSecs);
    ScanStartsIncreasing(durationSecs);
    var e := Examined(ts, sampleCount);
    ExaminedIsFittingPrefix(ts, sampleCount);
    assert forall i :: 0 <= i < |e| ==> e[i] == ts[i];
    CandidatesIncreasing(e, observe);
    CandidatesAboveThreshold(e, observe);
    assert ScanCandidates(durationSecs, sampleCount, observe) == Candidates(e, observe);
  }

  /** A video of at most `WindowSize` whole seconds yields no candidates. */
  lemma ShortVideoHasNoCandidates(durationSecs: int, sampleCount: int, observe: int -> WindowObs)
    requires durationSecs <= WindowSize
    ensures ScanCandidates(durationSecs, sampleCount, observe) == []
  {
    ShortVideoHasNoStarts(durationSecs);
  }
}
