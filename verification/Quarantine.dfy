/** The quarantine policy over whole histories of recorded runs
    (internal/daemon/run.go:110-115, 176-198). */
module Quarantine {
  import opened Collections
  import opened Pipeline
  import opened Daemon

  /** How many runs in a row, up to now, abandoned a step. */
  ghost function Trailing(log: seq<bool>): nat {
    if log == [] || !log[|log| - 1] then 0 else 1 + Trailing(log[..|log| - 1])
  }

  ghost function Total(log: seq<bool>): nat {
    if log == [] then 0 else Total(log[..|log| - 1]) + Ind(log[|log| - 1])
  }

  /** Three consecutive runs, the first being the i-th, all abandoned a step. */
  ghost predicate StreakAt(log: seq<bool>, i: nat) {
    i + 3 <= |log| && forall j :: i <= j < i + 3 ==> log[j]
  }

  ghost predicate Streaked(log: seq<bool>) {
    exists i: nat :: StreakAt(log, i)
  }

  lemma {:induction false} TrailingIsSuffix(log: seq<bool>, n: nat)
    ensures Trailing(log) >= n <==> n <= |log| && forall j :: |log| - n <= j < |log| ==> log[j]
  {
    if n > 0 && log != [] {
      var front := log[..|log| - 1];
      TrailingIsSuffix(front, n - 1);
      assert forall j :: 0 <= j < |front| ==> front[j] == log[j];
      if log[|log| - 1] && n <= |log| && forall j :: |front| - (n - 1) <= j < |front| ==> front[j] {
        assert forall j :: |log| - n <= j < |log| ==> log[j];
      }
      if n <= |log| && forall j :: |log| - n <= j < |log| ==> log[j] {
        assert log[|log| - 1];
        assert forall j :: |front| - (n - 1) <= j < |front| ==> front[j];
      }
    }
  }

  lemma StreakKept(log: seq<bool>, b: bool)
    ensures Streaked(log) ==> Streaked(log + [b])
  {
    if Streaked(log) {
      var i: nat :| StreakAt(log, i);
      assert StreakAt(log + [b], i);
    }
  }

  /** A streak that ends with the run just recorded, or was there before it. */
  lemma StreakOldOrNew(log: seq<bool>, b: bool, i: nat)
    requires StreakAt(log + [b], i)
    ensures Streaked(log) || (b && i + QUARANTINE_AFTER == |log| + 1)
  {
    var after := log + [b];
    if i + QUARANTINE_AFTER <= |log| {
      assert forall j :: i <= j < i + QUARANTINE_AFTER ==> log[j] == after[j];
      assert StreakAt(log, i);
    } else {
      assert after[|log|];
    }
  }

  lemma TrailingAppend(log: seq<bool>, b: bool)
    ensures Trailing(log + [b]) == if b then Trailing(log) + 1 else 0
  {
    assert (log + [b])[..|log|] == log;
  }

  /** A streak appears exactly when the run just recorded completes one. */
  lemma StreakedAppend(log: seq<bool>, b: bool)
    ensures Streaked(log + [b]) <==> Streaked(log) || (b && Trailing(log) + 1 >= QUARANTINE_AFTER)
  {
    var after := log + [b];
    StreakKept(log, b);
    TrailingAppend(log, b);
    TrailingIsSuffix(after, QUARANTINE_AFTER);
    if b && Trailing(log) + 1 >= QUARANTINE_AFTER {
      assert StreakAt(after, |after| - QUARANTINE_AFTER);
    }
    if Streaked(after) {
      var i: nat :| StreakAt(after, i);
      StreakOldOrNew(log, b, i);
    }
  }

  // ---------------------------------------------------------------- the invariant

  ghost function AtCounted(p: nat): Thread -> nat {
    (t: Thread) => if t.pipe == p && t.pc.Counted? then 1 else 0
  }

  /** Thread k is about to quarantine p. */
  ghost predicate Convicting(s: State, k: nat, p: nat) {
    k < |s.threads| && s.threads[k].pipe == p && s.threads[k].pc.Judging? &&
    s.threads[k].pc.streak >= QUARANTINE_AFTER
  }

  ghost predicate Convicted(s: State, p: nat) {
    exists k :: Convicting(s, k, p)
  }

  ghost predicate Kept(s: State, p: nat)
    requires p < |s.pipes|
  {
    var pipe := s.pipes[p];
    && pipe.consecutive == Trailing(pipe.log)
    && pipe.abandonedRuns == Total(pipe.log) + Sum(s.threads, AtCounted(p))
    && (pipe.quarantined || Convicted(s, p) <==> Streaked(pipe.log))
  }

  /** What one step does to the bookkeeping of its own pipeline. */
  ghost predicate Records(s: State, k: nat, s': State)
    requires k < |s.threads| && s.threads[k].pipe < |s.pipes| && Local(s, k, s')
  {
    var pipe, pipe' := s.pipes[s.threads[k].pipe], s'.pipes[s.threads[k].pipe];
    var pc, pc' := s.threads[k].pc, s'.threads[k].pc;
    if pc == Ended(false) then
      pipe'.log == pipe.log + [false] && pipe'.consecutive == 0 && !pc'.Judging? && !pc'.Counted? &&
      pipe'.abandonedRuns == pipe.abandonedRuns && pipe'.quarantined == pipe.quarantined
    else if pc == Counted then
      pipe'.log == pipe.log + [true] && pipe'.consecutive == pipe.consecutive + 1 &&
      pc' == Judging(pipe'.consecutive) &&
      pipe'.abandonedRuns == pipe.abandonedRuns && pipe'.quarantined == pipe.quarantined
    else
      && pipe'.log == pipe.log && pipe'.consecutive == pipe.consecutive && !pc'.Judging?
      && pipe'.abandonedRuns == pipe.abandonedRuns + Ind(pc'.Counted?)
      && pipe'.quarantined == (pipe.quarantined || (pc.Judging? && pc.streak >= QUARANTINE_AFTER))
  }

  lemma StepRecords(s: State, k: nat, ex: Execution)
    requires Shape(s) && k < |s.threads| && CanStep(s, k)
    ensures Local(s, k, Step(s, k, ex)) && Records(s, k, Step(s, k, ex))
  {
    StepLocal(s, k, ex);
  }

  lemma ConvictionsKept(s: State, k: nat, s': State, p: nat)
    requires k < |s.threads| && s.threads[k].pipe < |s.pipes| && Local(s, k, s')
    ensures Convicted(s', p) <==> Convicting(s', k, p) || exists j :: j != k && Convicting(s, j, p)
    ensures Convicted(s, p) <==> Convicting(s, k, p) || exists j :: j != k && Convicting(s, j, p)
  {
    forall j: nat | j != k
      ensures Convicting(s', j, p) <==> Convicting(s, j, p)
    {
    }
  }

  lemma StepKeepsKept(s: State, k: nat, s': State, p: nat)
    requires k < |s.threads| && s.threads[k].pipe < |s.pipes| && Local(s, k, s') && Records(s, k, s')
    requires p < |s.pipes| && Kept(s, p)
    ensures Kept(s', p)
  {
    SumUpdate(s.threads, k, s'.threads[k], AtCounted(p));
    ConvictionsKept(s, k, s', p);
    var log, log' := s.pipes[p].log, s'.pipes[p].log;
    if s.threads[k].pipe == p && log' != log {
      var b := s.threads[k].pc.Counted?;
      assert log' == log + [b];
      assert log'[..|log|] == log;
      StreakedAppend(log, b);
    }
  }

  /** A change to the threads that none of p's bookkeeping can see. */
  lemma KeptUnseen(s: State, s': State, p: nat)
    requires p < |s.pipes| && Kept(s, p) && s'.pipes == s.pipes
    requires Sum(s'.threads, AtCounted(p)) == Sum(s.threads, AtCounted(p))
    requires forall j :: Convicting(s', j, p) <==> Convicting(s, j, p)
    ensures Kept(s', p)
  {
  }

  lemma ArrivalKeepsKept(s: State, q: nat, p: nat)
    requires p < |s.pipes| && Kept(s, p)
    ensures Kept(s.(threads := s.threads + [Thread(q, Fired)]), p)
  {
    SumAppend(s.threads, Thread(q, Fired), AtCounted(p));
    KeptUnseen(s, s.(threads := s.threads + [Thread(q, Fired)]), p);
  }

  lemma NextKeepsKept(s: State, s': State, p: nat)
    requires Next(s, s') && p < |s.pipes| && Kept(s, p)
    ensures p < |s'.pipes| && Kept(s', p)
  {
    var e :| Moves(s, e, s');
    match e
    case Act(k, ex) =>
      StepRecords(s, k, ex);
      StepKeepsKept(s, k, s', p);
    case Arrive(q) =>
      ArrivalKeepsKept(s, q, p);
    case DrainOn(_) =>
      KeptUnseen(s, s', p);
  }

  lemma {:induction false} HistoryKept(policies: seq<OverlapPolicy>, option: int, h: seq<State>, i: nat, p: nat)
    requires IsHistory(policies, option, h) && i < |h| && p < |policies|
    ensures p < |h[i].pipes| && Kept(h[i], p)
  {
    if i > 0 {
      HistoryKept(policies, option, h, i - 1, p);
      assert MovesTo(h, i);
      NextKeepsKept(h[i - 1], h[i], p);
    }
  }

  // ------------------------------------------------------------------- the theorems

  /** At every moment: the streak is the length of the abandoning suffix of the runs
      recorded so far; the total counts them all (a thread between its two updates has
      been counted but not yet recorded); and three consecutive recorded runs
      abandoned a step exactly when the pipeline is quarantined or the thread that
      recorded the last of them is about to raise the flag. */
  lemma QuarantineHistory(policies: seq<OverlapPolicy>, option: int, h: seq<State>, i: nat, p: nat)
    requires IsHistory(policies, option, h) && i < |h| && p < |policies|
    ensures p < |h[i].pipes|
    ensures var s := h[i]; var pipe := s.pipes[p];
      && pipe.consecutive == Trailing(pipe.log)
      && pipe.abandonedRuns == Total(pipe.log) + Sum(s.threads, AtCounted(p))
      && (pipe.quarantined || Convicted(s, p) <==> Streaked(pipe.log))
  {
    HistoryKept(policies, option, h, i, p);
  }

  lemma NextKeepsQuarantine(s: State, s': State, p: nat)
    requires Next(s, s') && p < |s.pipes| && s.pipes[p].quarantined
    ensures p < |s'.pipes| && s'.pipes[p].quarantined
  {
    var e :| Moves(s, e, s');
    if e.Act? {
      StepRecords(s, e.thread, e.ex);
    }
  }

  /** An event that has not been looked at, or was refused for quarantine. */
  ghost predicate KeptOut(s: State, k: nat, p: nat) {
    k < |s.threads| && s.threads[k].pipe == p ==>
      s.threads[k].pc.Fired? || s.threads[k].pc == Refused(Quarantined)
  }

  lemma NextKeepsOut(s: State, s': State, k: nat, p: nat)
    requires Next(s, s') && p < |s.pipes| && s.pipes[p].quarantined && KeptOut(s, k, p)
    ensures KeptOut(s', k, p)
  {
    var e :| Moves(s, e, s');
    if e.Act? {
      StepLocal(s, e.thread, e.ex);
    }
  }

  /** Quarantine is for good: the flag stays up, and no event that reads it afterwards
      (not yet looked at when it went up, or arriving later) ever gets further. */
  lemma {:induction false} QuarantinedForGood(
    policies: seq<OverlapPolicy>, option: int, h: seq<State>, i: nat, j: nat, p: nat, k: nat)
    requires IsHistory(policies, option, h) && i <= j < |h|
    requires p < |h[i].pipes| && h[i].pipes[p].quarantined && KeptOut(h[i], k, p)
    ensures p < |h[j].pipes| && h[j].pipes[p].quarantined && KeptOut(h[j], k, p)
    decreases j - i
  {
    if i < j {
      assert MovesTo(h, i + 1);
      NextKeepsQuarantine(h[i], h[i + 1], p);
      NextKeepsOut(h[i], h[i + 1], k, p);
      QuarantinedForGood(policies, option, h, i + 1, j, p, k);
    }
  }
}
