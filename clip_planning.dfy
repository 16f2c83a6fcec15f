/** Turning the selected moments into clip windows and the paths of the clips that were cut. */
module ClipPlanning {
  import opened Outcomes
  import opened Paths
  import opened Scanning

  /** A clip starts this many seconds before its moment... */
  const LeadIn: real := 20.0
  /** ...and lasts at most this many seconds. */
  const MaxClipLength: real := 60.0
  /** The video length assumed when probing it fails. */
  const UnknownDuration: real := 99999.0

  /** The video's length: the probed value, or `UnknownDuration` when probing raised. */
  function FullDuration(probed: Option<real>): real
  {
    match probed
    case Some(d) => d
    case None => UnknownDuration
  }

  /** The span of video one clip is cut from. */
  datatype ClipWindow = ClipWindow(start: real, end: real)

  /** The window around a moment at `t`: `start = max(0, t - 20)`, `end = min(start + 60, fullDuration)`. */
  function PlanWindow(t: real, fullDuration: real): (w: ClipWindow)
    ensures 0.0 <= w.start && w.end <= fullDuration && w.end - w.start <= MaxClipLength
    ensures t >= 0.0 ==> w.start <= t && t - w.start <= LeadIn
    ensures w.start + MaxClipLength <= fullDuration ==> w.end - w.start == MaxClipLength
    ensures 0.0 <= t <= fullDuration ==> w.start <= t <= w.end
    ensures w.start <= w.end <==> w.start <= fullDuration
  {
    var start := if 0.0 >= t - LeadIn then 0.0 else t - LeadIn;
    var end := if start + MaxClipLength <= fullDuration then start + MaxClipLength else fullDuration;
    ClipWindow(start, end)
  }

  /** When probing the video's length fails, every moment up to `UnknownDuration - MaxClipLength +
      LeadIn` seconds gets a full-length clip that contains it; when probing succeeds, no clip runs
      past the probed length. */
  lemma FullDurationWindows(probed: Option<real>, t: real)
    ensures probed.None? && 0.0 <= t <= UnknownDuration - MaxClipLength + LeadIn ==>
      var w := PlanWindow(t, FullDuration(probed));
      w.end - w.start == MaxClipLength && w.start <= t < w.end
    ensures probed.Some? ==> PlanWindow(t, FullDuration(probed)).end <= probed.value
  {
  }

  /** The file name of the clip of rank `rank` (numbered from 1): `clip_{rank}.mp4`. */
  function ClipName(rank: nat): (name: string)
    ensures '/' !in name
  {
    "clip_" + NatToString(rank) + ".mp4"
  }

  /** Different ranks give different clip names. */
  lemma ClipNamesDiffer(a: nat, b: nat)
    requires a != b
    ensures ClipName(a) != ClipName(b)
  {
    var na, nb := ClipName(a), ClipName(b);
    assert na[5..|na| - 4] == NatToString(a);
    assert nb[5..|nb| - 4] == NatToString(b);
    if na == nb {
      NatToStringInjective(a, b);
    }
  }

  /** The output path of the clip at position `i` of the selection (rank `i + 1`). */
  function ClipPath(folder: string, i: nat): string
  {
    Join(folder, ClipName(i + 1))
  }

  /** Different positions give different output paths. */
  lemma ClipPathsDiffer(folder: string, a: nat, b: nat)
    requires a != b
    ensures ClipPath(folder, a) != ClipPath(folder, b)
  {
    ClipNamesDiffer(a + 1, b + 1);
    var pa, pb := ClipPath(folder, a), ClipPath(folder, b);
    assert pa[|folder| + 1..] == ClipName(a + 1);
    assert pb[|folder| + 1..] == ClipName(b + 1);
  }

  /** What the cutting tool is asked for the clip at position `i`: its output path, its start
      offset and its length. `cut` answers whether the cut succeeded (false when it raised). */
  predicate CutSucceeds(folder: string, top: seq<Candidate>, fullDuration: real,
                        cut: (string, real, real) -> bool, i: nat)
    requires i < |top|
  {
    var w := PlanWindow(top[i].time, fullDuration);
    cut(ClipPath(folder, i), w.start, w.end - w.start)
  }

  /** The positions whose cut succeeded, in rank order. */
  function SuccessfulPositions(folder: string, top: seq<Candidate>, fullDuration: real,
                               cut: (string, real, real) -> bool): seq<nat>
  {
    if top == [] then []
    else
      var n := |top| - 1;
      SuccessfulPositions(folder, top[..n], fullDuration, cut)
        + (if CutSucceeds(folder, top, fullDuration, cut, n) then [n] else [])
  }

  /** The paths `process` returns: one per successful cut, in rank order. */
  function CutOutputs(folder: string, top: seq<Candidate>, fullDuration: real,
                      cut: (string, real, real) -> bool): seq<string>
  {
    if top == [] then []
    else
      var n := |top| - 1;
      CutOutputs(folder, top[..n], fullDuration, cut)
        + (if CutSucceeds(folder, top, fullDuration, cut, n) then [ClipPath(folder, n)] else [])
  }

  lemma CutSucceedsOnPrefix(folder: string, top: seq<Candidate>, fullDuration: real,
                            cut: (string, real, real) -> bool, i: nat, n: nat)
    requires i < n <= |top|
    ensures CutSucceeds(folder, top[..n], fullDuration, cut, i) == CutSucceeds(folder, top, fullDuration, cut, i)
  {
    assert top[..n][i] == top[i];
  }

  predicate Distinct(paths: seq<string>)
  {
    forall k, l :: 0 <= k < l < |paths| ==> paths[k] != paths[l]
  }

  predicate PositionsIncreasing(ps: seq<nat>)
  {
    forall k, l :: 0 <= k < l < |ps| ==> ps[k] < ps[l]
  }

  /** The successful positions are strictly increasing positions of `top`, and are exactly the
      positions whose cut succeeded. */
  lemma {:induction false} SuccessfulPositionsExact(folder: string, top: seq<Candidate>, fullDuration: real,
                                                    cut: (string, real, real) -> bool)
    ensures forall k :: 0 <= k < |SuccessfulPositions(folder, top, fullDuration, cut)| ==>
      SuccessfulPositions(folder, top, fullDuration, cut)[k] < |top|
    ensures PositionsIncreasing(SuccessfulPositions(folder, top, fullDuration, cut))
    ensures forall i :: 0 <= i < |top| ==>
      (i in SuccessfulPositions(folder, top, fullDuration, cut) <==> CutSucceeds(folder, top, fullDuration, cut, i))
  {
    if top != [] {
      var n := |top| - 1;
      SuccessfulPositionsExact(folder, top[..n], fullDuration, cut);
      var before := SuccessfulPositions(folder, top[..n], fullDuration, cut);
      var ps := SuccessfulPositions(folder, top, fullDuration, cut);
      var last := if CutSucceeds(folder, top, fullDuration, cut, n) then [n] else [];
      assert ps == before + last;
      forall k | 0 <= k < |ps| ensures ps[k] < |top| {
        if k < |before| { assert ps[k] == before[k]; }
      }
      forall k, l | 0 <= k < l < |ps| ensures ps[k] < ps[l] {
        assert ps[k] == before[k];
        if l < |before| { assert ps[l] == before[l]; }
      }
      forall i | 0 <= i < |top|
        ensures i in ps <==> CutSucceeds(folder, top, fullDuration, cut, i)
      {
        if i < n {
          CutSucceedsOnPrefix(folder, top, fullDuration, cut, i, n);
          assert i !in last;
        } else {
          assert i !in before;
        }
      }
    }
  }

  /** The outputs are the clip paths of the successful positions, in order. */
  lemma {:induction false} CutOutputsArePositions(folder: string, top: seq<Candidate>, fullDuration: real,
                                                  cut: (string, real, real) -> bool)
    ensures |CutOutputs(folder, top, fullDuration, cut)| == |SuccessfulPositions(folder, top, fullDuration, cut)|
    ensures forall k :: 0 <= k < |CutOutputs(folder, top, fullDuration, cut)| ==>
      CutOutputs(folder, top, fullDuration, cut)[k]
        == ClipPath(folder, SuccessfulPositions(folder, top, fullDuration, cut)[k])
  {
    if top != [] {
      var n := |top| - 1;
      CutOutputsArePositions(folder, top[..n], fullDuration, cut);
      var outBefore := CutOutputs(folder, top[..n], fullDuration, cut);
      var psBefore := SuccessfulPositions(folder, top[..n], fullDuration, cut);
      var out := CutOutputs(folder, top, fullDuration, cut);
      var ps := SuccessfulPositions(folder, top, fullDuration, cut);
      if CutSucceeds(folder, top, fullDuration, cut, n) {
        assert out == outBefore + [ClipPath(folder, n)];
        assert ps == psBefore + [n];
        forall k | 0 <= k < |out| ensures out[k] == ClipPath(folder, ps[k]) {
          if k < |outBefore| { assert out[k] == outBefore[k] && ps[k] == psBefore[k]; }
        }
      } else {
        assert out == outBefore && ps == psBefore;
      }
    }
  }

  /** The returned paths are pairwise distinct, at most one per selected moment. */
  lemma CutOutputsDistinct(folder: string, top: seq<Candidate>, fullDuration: real,
                           cut: (string, real, real) -> bool)
    ensures |CutOutputs(folder, top, fullDuration, cut)| <= |top|
    ensures Distinct(CutOutputs(folder, top, fullDuration, cut))
  {
    CutOutputsArePositions(folder, top, fullDuration, cut);
    SuccessfulPositionsExact(folder, top, fullDuration, cut);
    var ps := SuccessfulPositions(folder, top, fullDuration, cut);
    var out := CutOutputs(folder, top, fullDuration, cut);
    PositionsBounded(ps, |top|);
    forall k, l | 0 <= k < l < |out| ensures out[k] != out[l] {
      ClipPathsDiffer(folder, ps[k], ps[l]);
    }
  }

  /** Strictly increasing positions below `n` number at most `n`. */
  lemma {:induction false} PositionsBounded(ps: seq<nat>, n: nat)
    requires PositionsIncreasing(ps)
    requires forall k :: 0 <= k < |ps| ==> ps[k] < n
    ensures |ps| <= n
  {
    if ps != [] {
      var init := ps[..|ps| - 1];
      forall k | 0 <= k < |init| ensures init[k] < ps[|ps| - 1] {
        assert init[k] == ps[k];
      }
      PositionsBounded(init, ps[|ps| - 1]);
    }
  }

  /** The cutting tool succeeds on every request. */
  ghost predicate NeverFails(cut: (string, real, real) -> bool)
  {
    forall p, s, d :: cut(p, s, d)
  }

  /** When every cut succeeds, every selected moment yields its clip, in rank order. */
  lemma {:induction false} AllCutsSucceed(folder: string, top: seq<Candidate>, fullDuration: real,
                                          cut: (string, real, real) -> bool)
    requires NeverFails(cut)
    ensures |CutOutputs(folder, top, fullDuration, cut)| == |top|
    ensures forall i :: 0 <= i < |top| ==> CutOutputs(folder, top, fullDuration, cut)[i] == ClipPath(folder, i)
  {
    if top != [] {
      var n := |top| - 1;
      AllCutsSucceed(folder, top[..n], fullDuration, cut);
      var before := CutOutputs(folder, top[..n], fullDuration, cut);
      assert CutSucceeds(folder, top, fullDuration, cut, n);
      var out := CutOutputs(folder, top, fullDuration, cut);
      assert out == before + [ClipPath(folder, n)];
      forall i | 0 <= i < |top| ensures out[i] == ClipPath(folder, i) {
        if i < n { assert out[i] == before[i]; }
      }
    }
  }
}
