/** Reduction of the audio classifier's output to one laughter score per window. */
module Scoring {

  /** One entry of the classifier's ranked output: a sound-event label and its probability. */
  datatype ClassResult = ClassResult(eventLabel: string, score: real)

  /** The labels whose probabilities count as laughter. */
  const FunnyLabels: seq<string> :=
    ["Laughter", "Giggle", "Snicker", "Chuckling", "Belly laugh", "Chortle", "Baby laughter"]

  /** `needle` occurs in `haystack` starting at position `i`. */
  predicate OccursAt(haystack: string, needle: string, i: int)
  {
    0 <= i <= |haystack| - |needle| && haystack[i..i + |needle|] == needle
  }

  /** Python's `needle in haystack` on strings: `needle` occurs as a contiguous substring. */
  predicate ContainsSubstring(haystack: string, needle: string)
  {
    exists i :: 0 <= i <= |haystack| - |needle| && OccursAt(haystack, needle, i)
  }

  /** A label is funny when some funny label occurs in it as a substring. */
  predicate IsFunny(eventLabel: string)
  {
    exists f :: f in FunnyLabels && ContainsSubstring(eventLabel, f)
  }

  /** What one classifier result adds to the window's score. */
  function Contribution(r: ClassResult): real
  {
    if IsFunny(r.eventLabel) then r.score else 0.0
  }

  /** The window score: the running total of contributions, in the classifier's order. */
  function FunnySum(results: seq<ClassResult>): real
  {
    if results == [] then 0.0
    else FunnySum(results[..|results| - 1]) + Contribution(results[|results| - 1])
  }

  /** The results whose label is funny, in order (a reference definition, recursive from the front). */
  function FunnyOnly(results: seq<ClassResult>): (f: seq<ClassResult>)
    ensures |f| <= |results|
    ensures forall r :: r in f ==> r in results && IsFunny(r.eventLabel)
  {
    if results == [] then []
    else (if IsFunny(results[0].eventLabel) then [results[0]] else []) + FunnyOnly(results[1..])
  }

  /** The plain sum of the scores, from the front. */
  function SumScores(results: seq<ClassResult>): real
  {
    if results == [] then 0.0 else results[0].score + SumScores(results[1..])
  }

  lemma {:induction false} SumScoresAppend(a: seq<ClassResult>, b: seq<ClassResult>)
    ensures SumScores(a + b) == SumScores(a) + SumScores(b)
  {
    if a != [] {
      assert (a + b)[1..] == a[1..] + b;
      SumScoresAppend(a[1..], b);
    } else {
      assert a + b == b;
    }
  }

  lemma {:induction false} FunnyOnlyAppend(a: seq<ClassResult>, b: seq<ClassResult>)
    ensures FunnyOnly(a + b) == FunnyOnly(a) + FunnyOnly(b)
  {
    if a != [] {
      assert (a + b)[1..] == a[1..] + b;
      FunnyOnlyAppend(a[1..], b);
    } else {
      assert a + b == b;
    }
  }

  /** The window score is exactly the sum of the scores of the funny results; the others contribute nothing. */
  lemma {:induction false} FunnySumIsSumOfFunny(results: seq<ClassResult>)
    ensures FunnySum(results) == SumScores(FunnyOnly(results))
  {
    if results != [] {
      var init, last := results[..|results| - 1], results[|results| - 1];
      assert results == init + [last];
      FunnySumIsSumOfFunny(init);
      FunnyOnlyAppend(init, [last]);
      assert FunnyOnly([last]) == (if IsFunny(last.eventLabel) then [last] else []) by {
        assert [last][1..] == [];
      }
      SumScoresAppend(FunnyOnly(init), FunnyOnly([last]));
    }
  }

  /** Results with no funny label leave the window score at zero. */
  lemma {:induction false} NoFunnyLabelsScoreZero(results: seq<ClassResult>)
    requires forall k :: 0 <= k < |results| ==> !IsFunny(results[k].eventLabel)
    ensures FunnySum(results) == 0.0
  {
    if results != [] {
      NoFunnyLabelsScoreZero(results[..|results| - 1]);
    }
  }

  /** With probabilities in [0, 1], the window score lies between 0 and the number of results. */
  lemma {:induction false} FunnySumBounds(results: seq<ClassResult>)
    requires forall k :: 0 <= k < |results| ==> 0.0 <= results[k].score <= 1.0
    ensures 0.0 <= FunnySum(results) <= |results| as real
  {
    if results != [] {
      FunnySumBounds(results[..|results| - 1]);
    }
  }

  /** A label equal to one of the funny labels is funny. */
  lemma FunnyLabelIsFunny(f: string)
    requires f in FunnyLabels
    ensures IsFunny(f)
  {
    assert OccursAt(f, f, 0) by { assert f[0..|f|] == f; }
    assert ContainsSubstring(f, f);
  }
}
