/** Ranking of candidates and greedy temporal non-maximum suppression, as `process` does them. */
module Selection {
  import opened Scanning

  /** At most this many highlight moments are kept. */
  const MaxClips: int := 3
  /** Two candidates closer than this many seconds are the same moment. */
  const MinSeparation: real := 30.0

  function Abs(x: real): (r: real)
    ensures r >= 0.0 && (r == x || r == -x)
  {
    if x < 0.0 then -x else x
  }

  /** `abs(a['time'] - b['time']) < 30`: the two candidates are the same moment. */
  predicate Near(a: Candidate, b: Candidate)
  {
    Abs(a.time - b.time) < MinSeparation
  }

  // ----- ranking: `candidates.sort(key=lambda x: x['laughter_score'], reverse=True)` -----

  /** Inserts `c` before the first element whose score does not exceed its own, so that `c`
      precedes the elements it ties with. */
  function InsertByScore(c: Candidate, s: seq<Candidate>): seq<Candidate>
  {
    if s == [] then [c]
    else if c.laughterScore >= s[0].laughterScore then [c] + s
    else [s[0]] + InsertByScore(c, s[1..])
  }

  /** A stable sort by score, highest first: of two candidates with equal scores the earlier in
      the input stays earlier, as Python's `list.sort(..., reverse=True)` guarantees. */
  function SortByScore(s: seq<Candidate>): seq<Candidate>
  {
    if s == [] then [] else InsertByScore(s[0], SortByScore(s[1..]))
  }

  predicate ScoresNonIncreasing(s: seq<Candidate>)
  {
    forall i, j :: 0 <= i < j < |s| ==> s[i].laughterScore >= s[j].laughterScore
  }

  /** `a` comes before `b` in the selection order: a higher score, or an equal score and an earlier time. */
  predicate RankedBefore(a: Candidate, b: Candidate)
  {
    a.laughterScore > b.laughterScore || (a.laughterScore == b.laughterScore && a.time < b.time)
  }

  predicate Ranked(s: seq<Candidate>)
  {
    forall i, j :: 0 <= i < j < |s| ==> RankedBefore(s[i], s[j])
  }

  lemma {:induction false} InsertByScorePermutes(c: Candidate, s: seq<Candidate>)
    ensures multiset(InsertByScore(c, s)) == multiset(s) + multiset{c}
  {
    if s != [] && c.laughterScore < s[0].laughterScore {
      InsertByScorePermutes(c, s[1..]);
      assert s == [s[0]] + s[1..];
    }
  }

  /** Sorting neither loses nor adds candidates. */
  lemma {:induction false} SortByScorePermutes(s: seq<Candidate>)
    ensures multiset(SortByScore(s)) == multiset(s)
  {
    if s != [] {
      SortByScorePermutes(s[1..]);
      InsertByScorePermutes(s[0], SortByScore(s[1..]));
      assert s == [s[0]] + s[1..];
    }
  }

  lemma {:induction false} InsertByScoreNonIncreasing(c: Candidate, s: seq<Candidate>)
    requires ScoresNonIncreasing(s)
    ensures ScoresNonIncreasing(InsertByScore(c, s))
  {
    if s != [] && c.laughterScore < s[0].laughterScore {
      InsertByScoreNonIncreasing(c, s[1..]);
      InsertByScorePermutes(c, s[1..]);
      var r := InsertByScore(c, s[1..]);
      forall x | x in r ensures s[0].laughterScore >= x.laughterScore {
        assert x in multiset(r);
      }
    }
  }

  /** The sorted sequence has non-increasing scores. */
  lemma {:induction false} SortByScoreNonIncreasing(s: seq<Candidate>)
    ensures ScoresNonIncreasing(SortByScore(s))
  {
    if s != [] {
      SortByScoreNonIncreasing(s[1..]);
      InsertByScoreNonIncreasing(s[0], SortByScore(s[1..]));
    }
  }

  lemma {:induction false} InsertByScoreRanked(c: Candidate, s: seq<Candidate>)
    requires Ranked(s)
    requires forall k :: 0 <= k < |s| ==> c.time < s[k].time
    ensures Ranked(InsertByScore(c, s))
  {
    if s != [] {
      if c.laughterScore >= s[0].laughterScore {
        var r := [c] + s;
        forall i, j | 0 <= i < j < |r| ensures RankedBefore(r[i], r[j]) {
          if i == 0 {
            assert r[j] == s[j - 1];
            if j > 1 { assert RankedBefore(s[0], s[j - 1]); }
          }
        }
      } else {
        InsertByScoreRanked(c, s[1..]);
        InsertByScorePermutes(c, s[1..]);
        var t := InsertByScore(c, s[1..]);
        forall x | x in t ensures RankedBefore(s[0], x) {
          assert x in multiset(t);
          if x != c {
            var k :| 1 <= k < |s| && s[k] == x;
          }
        }
      }
    }
  }

  /** Given candidates in strictly increasing time order (as the scan yields them), the stable sort
      orders them by score, highest first, ties going to the earlier time. */
  lemma {:induction false} SortByScoreRanked(s: seq<Candidate>)
    requires TimesIncreasing(s)
    ensures Ranked(SortByScore(s))
  {
    if s != [] {
      SortByScoreRanked(s[1..]);
      SortByScorePermutes(s[1..]);
      var r := SortByScore(s[1..]);
      forall k | 0 <= k < |r| ensures s[0].time < r[k].time {
        assert r[k] in multiset(s[1..]);
        var m :| 0 <= m < |s[1..]| && s[1..][m] == r[k];
        assert s[m + 1] == r[k];
      }
      InsertByScoreRanked(s[0], r);
    }
  }

  // ----- subsequences -----

  /** `a` is obtained from `b` by deleting elements. */
  predicate IsSubsequence(a: seq<Candidate>, b: seq<Candidate>)
    decreases |b|
  {
    a == [] ||
    (b != [] &&
      ((a[|a| - 1] == b[|b| - 1] && IsSubsequence(a[..|a| - 1], b[..|b| - 1])) ||
       IsSubsequence(a, b[..|b| - 1])))
  }

  lemma {:induction false} SubsequenceMembers(a: seq<Candidate>, b: seq<Candidate>)
    requires IsSubsequence(a, b)
    ensures |a| <= |b|
    ensures forall x :: x in a ==> x in b
    decreases |b|
  {
    if a != [] {
      var a', b' := a[..|a| - 1], b[..|b| - 1];
      if a[|a| - 1] == b[|b| - 1] && IsSubsequence(a', b') {
        SubsequenceMembers(a', b');
        assert a == a' + [a[|a| - 1]];
      } else {
        SubsequenceMembers(a, b');
      }
    }
  }

  lemma {:induction false} SubsequenceOfPrefix(a: seq<Candidate>, b: seq<Candidate>, n: nat)
    requires n <= |b| && IsSubsequence(a, b[..n])
    ensures IsSubsequence(a, b)
    decreases |b| - n
  {
    if n < |b| {
      assert b[..n + 1][..n] == b[..n];
      assert a == [] || IsSubsequence(a, b[..n + 1]);
      SubsequenceOfPrefix(a, b, n + 1);
    } else {
      assert b[..n] == b;
    }
  }

  /** A subsequence of a sequence with non-increasing scores has non-increasing scores. */
  lemma {:induction false} SubsequenceNonIncreasing(a: seq<Candidate>, b: seq<Candidate>)
    requires IsSubsequence(a, b) && ScoresNonIncreasing(b)
    ensures ScoresNonIncreasing(a)
    decreases |b|
  {
    if a != [] {
      var a', b' := a[..|a| - 1], b[..|b| - 1];
      if a[|a| - 1] == b[|b| - 1] && IsSubsequence(a', b') {
        SubsequenceNonIncreasing(a', b');
        SubsequenceMembers(a', b');
        forall i | 0 <= i < |a'| ensures a[i].laughterScore >= a[|a| - 1].laughterScore {
          assert a[i] == a'[i] && a'[i] in b';
          var m :| 0 <= m < |b'| && b'[m] == a[i];
          assert b[m] == a[i];
        }
      } else {
        SubsequenceNonIncreasing(a, b');
      }
    }
  }

  // ----- greedy non-maximum suppression -----

  /** `c` is not near any candidate kept so far. */
  predicate FarFromAll(c: Candidate, kept: seq<Candidate>)
  {
    forall k :: 0 <= k < |kept| ==> !Near(c, kept[k])
  }

  /** The selection loop from position `i` of the ranked list, with `kept` selected so far. */
  function GreedyFrom(ranked: seq<Candidate>, i: nat, kept: seq<Candidate>): seq<Candidate>
    decreases |ranked| - i
  {
    if i >= |ranked| then kept
    else
      var kept' := if FarFromAll(ranked[i], kept) then kept + [ranked[i]] else kept;
      if |kept'| >= MaxClips then kept' else GreedyFrom(ranked, i + 1, kept')
  }

  /** The moments that `process` keeps from the ranked candidates. */
  function Select(ranked: seq<Candidate>): seq<Candidate>
  {
    GreedyFrom(ranked, 0, [])
  }

  /** Any two kept moments are at least `MinSeparation` seconds apart. */
  predicate Separated(s: seq<Candidate>)
  {
    forall i, j :: 0 <= i < j < |s| ==> Abs(s[i].time - s[j].time) >= MinSeparation
  }

  /** `ranked[j]` was turned away because a moment ranked before it, and kept, is near it and
      scores at least as high. */
  predicate SuppressedEarlier(ranked: seq<Candidate>, kept: seq<Candidate>, j: nat)
    requires j < |ranked|
  {
    exists m :: 0 <= m < j && ranked[m] in kept && Near(ranked[m], ranked[j])
      && ranked[m].laughterScore >= ranked[j].laughterScore
  }

  /** `ranked[j]` was kept, or suppressed by a kept moment examined before it. */
  predicate Covered(ranked: seq<Candidate>, kept: seq<Candidate>, j: nat)
    requires j < |ranked|
  {
    ranked[j] in kept || SuppressedEarlier(ranked, kept, j)
  }

  lemma CoveredGrows(ranked: seq<Candidate>, kept: seq<Candidate>, y: Candidate, j: nat)
    requires j < |ranked| && Covered(ranked, kept, j)
    ensures Covered(ranked, kept + [y], j)
  {
    if ranked[j] !in kept {
      var m :| 0 <= m < j && ranked[m] in kept && Near(ranked[m], ranked[j])
        && ranked[m].laughterScore >= ranked[j].laughterScore;
      assert ranked[m] in kept + [y];
    }
  }

  /** What holds of the selection after the first `i` ranked candidates have been examined. */
  ghost predicate GreedyInvariant(ranked: seq<Candidate>, i: nat, kept: seq<Candidate>)
  {
    && i <= |ranked|
    && |kept| < MaxClips
    && Separated(kept)
    && IsSubsequence(kept, ranked[..i])
    && (forall j :: 0 <= j < i ==> Covered(ranked, kept, j))
  }

  /** A candidate far from every kept moment is kept, and the invariant carries over. */
  lemma GreedyKeepsFar(ranked: seq<Candidate>, i: nat, kept: seq<Candidate>)
    requires GreedyInvariant(ranked, i, kept) && i < |ranked| && FarFromAll(ranked[i], kept)
    ensures var kept' := kept + [ranked[i]];
      && Separated(kept')
      && IsSubsequence(kept', ranked[..i + 1])
      && (forall j :: 0 <= j <= i ==> Covered(ranked, kept', j))
  {
    var c := ranked[i];
    var kept' := kept + [c];
    assert ranked[..i + 1] == ranked[..i] + [c];
    assert kept'[..|kept|] == kept;
    forall p, q | 0 <= p < q < |kept'| ensures Abs(kept'[p].time - kept'[q].time) >= MinSeparation {
      if q == |kept| {
        assert !Near(c, kept[p]);
      }
    }
    forall j | 0 <= j <= i ensures Covered(ranked, kept', j) {
      if j < i { CoveredGrows(ranked, kept, c, j); }
    }
  }

  /** A candidate near a kept moment is suppressed by it: that moment was examined earlier, so it
      scores at least as high. */
  lemma GreedySkipsNear(ranked: seq<Candidate>, i: nat, kept: seq<Candidate>)
    requires ScoresNonIncreasing(ranked)
    requires GreedyInvariant(ranked, i, kept) && i < |ranked| && !FarFromAll(ranked[i], kept)
    ensures IsSubsequence(kept, ranked[..i + 1])
    ensures forall j :: 0 <= j <= i ==> Covered(ranked, kept, j)
  {
    var c := ranked[i];
    assert ranked[..i + 1][..i] == ranked[..i];
    var k :| 0 <= k < |kept| && Near(c, kept[k]);
    SubsequenceMembers(kept, ranked[..i]);
    assert kept[k] in ranked[..i];
    var m :| 0 <= m < i && ranked[m] == kept[k];
    assert ranked[m] in kept && Near(ranked[m], c) && ranked[m].laughterScore >= c.laughterScore;
    assert SuppressedEarlier(ranked, kept, i);
    SubsequenceOfPrefix(kept, ranked[..i + 1], i);
  }

  lemma GreedyStep(ranked: seq<Candidate>, i: nat, kept: seq<Candidate>)
    requires ScoresNonIncreasing(ranked)
    requires GreedyInvariant(ranked, i, kept) && i < |ranked|
    ensures var c := ranked[i];
      var kept' := if FarFromAll(c, kept) then kept + [c] else kept;
      && |kept'| <= MaxClips
      && Separated(kept')
      && IsSubsequence(kept', ranked[..i + 1])
      && (forall j :: 0 <= j <= i ==> Covered(ranked, kept', j))
  {
    if FarFromAll(ranked[i], kept) {
      GreedyKeepsFar(ranked, i, kept);
    } else {
      GreedySkipsNear(ranked, i, kept);
    }
  }

  /** The selection only ever appends: what was kept stays, in place. */
  lemma {:induction false} GreedyKeepsPrefix(ranked: seq<Candidate>, i: nat, kept: seq<Candidate>)
    ensures var r := GreedyFrom(ranked, i, kept);
      |kept| <= |r| && r[..|kept|] == kept
    decreases |ranked| - i
  {
    if i < |ranked| {
      var c := ranked[i];
      var kept' := if FarFromAll(c, kept) then kept + [c] else kept;
      assert kept'[..|kept|] == kept;
      if |kept'| < MaxClips {
        GreedyKeepsPrefix(ranked, i + 1, kept');
        var r := GreedyFrom(ranked, i + 1, kept');
        assert r[..|kept'|][..|kept|] == r[..|kept|];
      }
    }
  }

  /** The loop examined the first `n` ranked candidates and kept only among them, each of them kept
      or suppressed by a kept moment examined before it, and it stopped before the end of the list only because `MaxClips`
      were kept. */
  predicate ExaminedCovered(ranked: seq<Candidate>, r: seq<Candidate>, n: nat)
  {
    && n <= |ranked|
    && IsSubsequence(r, ranked[..n])
    && (n < |ranked| ==> |r| == MaxClips)
    && forall j :: 0 <= j < n ==> Covered(ranked, r, j)
  }

  /** The properties of the finished selection, from any state satisfying the invariant. */
  lemma {:induction false} GreedyFromProperties(ranked: seq<Candidate>, i: nat, kept: seq<Candidate>)
    requires ScoresNonIncreasing(ranked)
    requires GreedyInvariant(ranked, i, kept)
    ensures |GreedyFrom(ranked, i, kept)| <= MaxClips
    ensures Separated(GreedyFrom(ranked, i, kept))
    ensures IsSubsequence(GreedyFrom(ranked, i, kept), ranked)
    ensures exists n :: ExaminedCovered(ranked, GreedyFrom(ranked, i, kept), n)
    decreases |ranked| - i
  {
    if i >= |ranked| {
      assert ranked[..i] == ranked;
      assert ExaminedCovered(ranked, kept, |ranked|);
    } else {
      GreedyStep(ranked, i, kept);
      var c := ranked[i];
      var kept' := if FarFromAll(c, kept) then kept + [c] else kept;
      assert GreedyFrom(ranked, i, kept) == if |kept'| >= MaxClips then kept' else GreedyFrom(ranked, i + 1, kept');
      if |kept'| >= MaxClips {
        SubsequenceOfPrefix(kept', ranked, i + 1);
        assert ExaminedCovered(ranked, kept', i + 1);
      } else {
        assert GreedyInvariant(ranked, i + 1, kept');
        GreedyFromProperties(ranked, i + 1, kept');
      }
    }
  }

  /** Selection from a score-ranked list keeps at most `MaxClips` moments, pairwise at least
      `MinSeparation` apart, as a subsequence of the ranked list (so with non-increasing scores);
      the best-ranked candidate is always kept; every candidate the loop examined and did not keep
      lies near a kept one that was examined before it and scores at least as high, and the loop
      examines every candidate unless it has kept `MaxClips`. */
  lemma SelectProperties(ranked: seq<Candidate>)
    requires ScoresNonIncreasing(ranked)
    ensures |Select(ranked)| <= MaxClips && |Select(ranked)| <= |ranked|
    ensures Separated(Select(ranked))
    ensures IsSubsequence(Select(ranked), ranked)
    ensures ScoresNonIncreasing(Select(ranked))
    ensures ranked != [] ==> Select(ranked) != [] && Select(ranked)[0] == ranked[0]
    ensures exists n :: ExaminedCovered(ranked, Select(ranked), n)
    ensures |Select(ranked)| < MaxClips ==> forall j :: 0 <= j < |ranked| ==> Covered(ranked, Select(ranked), j)
  {
    assert ranked[..0] == [];
    GreedyFromProperties(ranked, 0, []);
    var r := Select(ranked);
    var n :| ExaminedCovered(ranked, r, n);
    SubsequenceMembers(r, ranked);
    SubsequenceNonIncreasing(r, ranked);
    if ranked != [] {
      assert FarFromAll(ranked[0], []);
      assert [] + [ranked[0]] == [ranked[0]];
      assert r == GreedyFrom(ranked, 1, [ranked[0]]);
      GreedyKeepsPrefix(ranked, 1, [ranked[0]]);
    }
  }

  /** Greedy suppression does not maximise the number of moments kept: here the best moment at 25 s
      suppresses both its neighbours at 0 s and 50 s, so two moments are kept, although the moments
      at 0, 50 and 100 s are three pairwise separated candidates. */
  lemma SelectIsNotMaximumCount()
    ensures var ranked := [Candidate(25.0, 1.0, 0.0), Candidate(0.0, 0.5, 0.0),
                           Candidate(50.0, 0.5, 0.0), Candidate(100.0, 0.4, 0.0)];
      && ScoresNonIncreasing(ranked)
      && Select(ranked) == [ranked[0], ranked[3]]
      && Separated([ranked[1], ranked[2], ranked[3]])
  {
    var ranked := [Candidate(25.0, 1.0, 0.0), Candidate(0.0, 0.5, 0.0),
                   Candidate(50.0, 0.5, 0.0), Candidate(100.0, 0.4, 0.0)];
    var a := [ranked[0]];
    assert FarFromAll(ranked[0], []);
    assert !FarFromAll(ranked[1], a) && !FarFromAll(ranked[2], a);
    assert FarFromAll(ranked[3], a);
    assert Select(ranked) == GreedyFrom(ranked, 1, a) == GreedyFrom(ranked, 3, a);
  }

  /** The coverage property rules out skipping a candidate that no earlier kept moment is near: on
      this ranking, a separated list of three moments that skips 100 s and 200 s is not selected. */
  lemma CoverageExcludesSkipping(n: nat)
    ensures var ranked := [Candidate(0.0, 1.0, 0.0), Candidate(100.0, 0.9, 0.0), Candidate(200.0, 0.8, 0.0),
                           Candidate(300.0, 0.7, 0.0), Candidate(400.0, 0.6, 0.0)];
      !ExaminedCovered(ranked, [ranked[0], ranked[3], ranked[4]], n)
  {
    var ranked := [Candidate(0.0, 1.0, 0.0), Candidate(100.0, 0.9, 0.0), Candidate(200.0, 0.8, 0.0),
                   Candidate(300.0, 0.7, 0.0), Candidate(400.0, 0.6, 0.0)];
    var r := [ranked[0], ranked[3], ranked[4]];
    if n >= 2 {
      assert r[0].time == 0.0 && r[1].time == 300.0 && r[2].time == 400.0;
      assert ranked[1] !in r;
      assert !Near(ranked[0], ranked[1]);
      assert !SuppressedEarlier(ranked, r, 1);
      assert !Covered(ranked, r, 1);
    } else if n <= |ranked| && IsSubsequence(r, ranked[..n]) {
      SubsequenceMembers(r, ranked[..n]);
    }
  }

  /** The moments selected from scan output: the first is the best candidate of all, a higher score
      winning and, between equal scores, the earlier time. */
  lemma SelectedTopIsBest(cands: seq<Candidate>)
    requires TimesIncreasing(cands) && cands != []
    ensures var r := Select(SortByScore(cands));
      r != [] && r[0] in cands &&
      forall c :: c in cands && c != r[0] ==> RankedBefore(r[0], c)
  {
    var sorted := SortByScore(cands);
    SortByScorePermutes(cands);
    SortByScoreRanked(cands);
    SortByScoreNonIncreasing(cands);
    assert sorted != [] by {
      assert |multiset(sorted)| == |multiset(cands)|;
    }
    SelectProperties(sorted);
    assert sorted[0] in multiset(cands);
    forall c | c in cands && c != sorted[0] ensures RankedBefore(sorted[0], c) {
      assert c in multiset(sorted);
      var j :| 0 <= j < |sorted| && sorted[j] == c;
    }
  }
}
