/** The status a job reports and the order in which a job's status may change. */
module JobStatus {

  datatype Status = Initializing | Queued | Downloading | Processing | Completed | Failed

  /** A job is created in one of these. */
  predicate Initial(s: Status)
  {
    s == Initializing || s == Queued
  }

  predicate Terminal(s: Status)
  {
    s == Completed || s == Failed
  }

  /** The status changes the job workers make: a YouTube job downloads, and may fail while doing so;
      an uploaded job goes straight to processing; processing completes or fails. */
  predicate Step(a: Status, b: Status)
  {
    || (a == Initializing && b == Downloading)
    || (a == Downloading && (b == Processing || b == Failed))
    || (a == Queued && b == Processing)
    || (a == Processing && (b == Completed || b == Failed))
  }

  /** The statuses a job has had, oldest first: it starts in an initial status and changes by steps. */
  ghost predicate Lifecycle(log: seq<Status>)
  {
    && |log| >= 1
    && Initial(log[0])
    && forall k :: 0 <= k < |log| - 1 ==> Step(log[k], log[k + 1])
  }

  /** `log` is a lifecycle whose latest status is `s`. */
  ghost predicate HistoryOf(log: seq<Status>, s: Status)
  {
    Lifecycle(log) && log[|log| - 1] == s
  }

  /** How far along a status is. */
  function Phase(s: Status): nat
  {
    match s
    case Initializing => 0
    case Queued => 0
    case Downloading => 1
    case Processing => 2
    case Completed => 3
    case Failed => 3
  }

  lemma LifecycleExtend(log: seq<Status>, s: Status)
    requires Lifecycle(log) && Step(log[|log| - 1], s)
    ensures Lifecycle(log + [s])
  {
    var log' := log + [s];
    forall k | 0 <= k < |log'| - 1 ensures Step(log'[k], log'[k + 1]) {
      if k < |log| - 1 {
        assert log'[k] == log[k] && log'[k + 1] == log[k + 1];
      }
    }
  }

  /** Status changes only move forward: a later status is always further along, so no status ever
      comes back and nothing follows a terminal status. */
  lemma {:induction false} LifecycleMonotonic(log: seq<Status>)
    requires Lifecycle(log)
    ensures forall i, j :: 0 <= i < j < |log| ==> Phase(log[i]) < Phase(log[j])
    ensures forall k :: 0 <= k < |log| && Terminal(log[k]) ==> k == |log| - 1
    ensures forall k :: 0 <= k < |log| ==> k <= Phase(log[k])
    ensures |log| <= 4
  {
    if |log| > 1 {
      var init := log[..|log| - 1];
      assert Lifecycle(init) by {
        forall k | 0 <= k < |init| - 1 ensures Step(init[k], init[k + 1]) {
          assert init[k] == log[k] && init[k + 1] == log[k + 1];
        }
      }
      LifecycleMonotonic(init);
      assert Step(log[|log| - 2], log[|log| - 1]);
      forall i, j | 0 <= i < j < |log| ensures Phase(log[i]) < Phase(log[j]) {
        if j < |log| - 1 {
          assert log[i] == init[i] && log[j] == init[j];
        } else if i < |log| - 2 {
          assert log[i] == init[i] && log[|log| - 2] == init[|log| - 2];
        }
      }
      assert log[|log| - 2] == init[|log| - 2];
      forall k | 0 <= k < |log| ensures k <= Phase(log[k]) {
        if k < |log| - 1 { assert log[k] == init[k]; }
      }
    }
  }

  /** A job that completed went through exactly one of the two successful paths. */
  lemma SuccessfulLifecycles(log: seq<Status>)
    requires Lifecycle(log) && log[|log| - 1] == Completed
    ensures log == [Queued, Processing, Completed] || log == [Initializing, Downloading, Processing, Completed]
  {
    LifecycleMonotonic(log);
    assert Step(log[|log| - 2], log[|log| - 1]);
    assert log[|log| - 2] == Processing;
    assert Step(log[|log| - 3], log[|log| - 2]);
    if log[|log| - 3] == Downloading {
      assert Step(log[|log| - 4], log[|log| - 3]);
    }
  }
}
