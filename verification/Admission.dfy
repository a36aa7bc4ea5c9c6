/** Why an event is refused, that nothing else stops one, and that every run that ends is
    recorded once (internal/daemon/run.go:66-198). */
module Admission {
  import opened Collections
  import opened Pipeline
  import opened Daemon
  import opened Quarantine

  // ----------------------------------------------------- every refusal has its reason

  /** The most runs of one pipeline at a time, as its policy and the options say; None is
      no cap. */
  ghost function Ceiling(policy: OverlapPolicy, option: int): Option<int> {
    if policy.Drop? then Some(1)
    else if option < 0 then None
    else if option == 0 then Some(64)
    else Some(option)
  }

  ghost predicate HasReason(s: State, t: Thread) {
    t.pipe < |s.pipes| &&
    match t.pc
    case Refused(Quarantined) => s.pipes[t.pipe].quarantined
    case Refused(Draining) => s.draining
    case Refusing(Quarantined) => false
    case Refusing(Draining) => s.draining
    case Refused(Overlapped) => s.pipes[t.pipe].overlap.Drop?
    case Refusing(Overlapped) => s.pipes[t.pipe].overlap.Drop?
    case Refused(AtCapacity) => s.pipes[t.pipe].overlap.Allow? && s.maxRuns > 0
    case Refusing(AtCapacity) => s.pipes[t.pipe].overlap.Allow? && s.maxRuns > 0
    case _ => true
  }

  ghost predicate Reasoned(s: State) {
    forall k :: 0 <= k < |s.threads| ==> HasReason(s, s.threads[k])
  }

  /** Reasons do not go away. */
  ghost predicate ReasonsStay(s: State, s': State) {
    && |s'.pipes| == |s.pipes| && s'.maxRuns == s.maxRuns && (s.draining ==> s'.draining)
    && forall p :: 0 <= p < |s.pipes| ==>
         s'.pipes[p].overlap == s.pipes[p].overlap && (s.pipes[p].quarantined ==> s'.pipes[p].quarantined)
  }

  lemma StepKeepsReasons(s: State, k: nat, ex: Execution)
    requires Shape(s) && k < |s.threads| && CanStep(s, k)
    ensures ReasonsStay(s, Step(s, k, ex))
  {
    StepRecords(s, k, ex);
  }

  lemma StepHasReason(s: State, k: nat, ex: Execution)
    requires Shape(s) && k < |s.threads| && CanStep(s, k) && HasReason(s, s.threads[k])
    ensures HasReason(Step(s, k, ex), Step(s, k, ex).threads[k])
  {
  }

  lemma NextKeepsReasoned(s: State, s': State)
    requires Reasoned(s) && Next(s, s')
    ensures Reasoned(s')
  {
    var e :| Moves(s, e, s');
    if e.Act? {
      StepKeepsReasons(s, e.thread, e.ex);
      StepHasReason(s, e.thread, e.ex);
      StepLocal(s, e.thread, e.ex);
    }
    forall k | 0 <= k < |s'.threads|
      ensures HasReason(s', s'.threads[k])
    {
      assert k < |s.threads| && (e.Act? ==> k != e.thread) ==> s'.threads[k] == s.threads[k];
    }
  }

  /** Over any history: an event refused as quarantined was for a pipeline that is, one
      refused for draining found the daemon draining, and the other refusals are of the
      kind that the pipeline's policy knows. */
  lemma {:induction false} RefusalsHaveReasons(policies: seq<OverlapPolicy>, option: int, h: seq<State>, i: nat)
    requires IsHistory(policies, option, h) && i < |h|
    ensures Reasoned(h[i])
  {
    if i > 0 {
      RefusalsHaveReasons(policies, option, h, i - 1);
      assert MovesTo(h, i);
      NextKeepsReasoned(h[i - 1], h[i]);
    }
  }

  /** At the moment of the claim, over any history: it is refused exactly when as many
      runs are admitted as the ceiling allows. */
  lemma ClaimsRefusedAtCeiling(policies: seq<OverlapPolicy>, option: int, h: seq<State>, i: nat, k: nat, ex: Execution)
    requires IsHistory(policies, option, h) && i < |h| && k < |h[i].threads| && h[i].threads[k].pc.Claiming?
    ensures var s := h[i]; var p := s.threads[k].pipe;
      p < |policies| && |s.pipes| == |policies| &&
      (Step(s, k, ex).threads[k].pc.Refusing? <==> Ceiling(policies[p], option) == Some(Admitted(s, p)))
  {
    HistoryKeepsInv(policies, option, h, i);
    HistoryKeepsConfig(policies, option, h, i);
    RefusalIsJustified(h[i], k, ex);
  }

  // -------------------------------------------------------- nothing else stops an event

  /** n steps of thread k with nobody else moving, all of them possible. */
  ghost predicate OwnSteps(s: State, k: nat, ex: Execution, n: nat, s': State)
    decreases n
  {
    if n == 0 then s' == s
    else
      && Shape(s) && k < |s.threads| && CanStep(s, k)
      && OwnSteps(Step(s, k, ex), k, ex, n - 1, s')
  }

  /** A thread that has just been fired, of a pipeline in service with room for it, while
      the daemon is not draining. */
  ghost predicate Welcome(s: State, k: nat) {
    && Shape(s) && k < |s.threads| && s.threads[k].pc.Fired?
    && !s.pipes[s.threads[k].pipe].quarantined && !s.draining && s.drainer.Serving?
    && HasRoom(s, s.threads[k].pipe)
  }

  ghost predicate HasRoom(s: State, p: nat)
    requires p < |s.pipes|
  {
    if s.pipes[p].overlap.Drop? then s.pipes[p].inflight == 0
    else s.maxRuns > 0 ==> s.pipes[p].inflight < s.maxRuns
  }

  /** What a run's end leads to: one more of its pipeline's runs, nothing refused. */
  ghost predicate LetInto(s: State, k: nat, s': State, pc: Pc)
    requires k < |s.threads| && s.threads[k].pipe < |s.pipes|
  {
    && |s'.threads| == |s.threads| && |s'.pipes| == |s.pipes|
    && s'.threads[k] == Thread(s.threads[k].pipe, pc)
    && s'.pipes[s.threads[k].pipe].inflight == s.pipes[s.threads[k].pipe].inflight + 1
  }

  /** A thread that nobody interferes with and that nothing speaks against claims a run by
      its own steps: four under drop, five under allow. */
  lemma WelcomeIsLetIn(s: State, k: nat, ex: Execution) returns (n: nat, s': State)
    requires Welcome(s, k)
    ensures OwnSteps(s, k, ex, n, s') && LetInto(s, k, s', Claimed)
    ensures n == if s.pipes[s.threads[k].pipe].overlap.Drop? then 4 else 5
  {
    var s1 := Step(s, k, ex);
    var s2 := Step(s1, k, ex);
    var s3 := Step(s2, k, ex);
    var s4 := Step(s3, k, ex);
    assert s1.threads[k].pc == Locking && s2.threads[k].pc == Checking && s3.threads[k].pc == Claiming;
    if s.pipes[s.threads[k].pipe].overlap.Drop? {
      n, s' := 4, s4;
      assert OwnSteps(s4, k, ex, 0, s') && OwnSteps(s3, k, ex, 1, s') && OwnSteps(s2, k, ex, 2, s');
      assert OwnSteps(s1, k, ex, 3, s');
    } else {
      assert s4.threads[k].pc == Comparing(s.pipes[s.threads[k].pipe].inflight);
      var s5 := Step(s4, k, ex);
      n, s' := 5, s5;
      assert OwnSteps(s5, k, ex, 0, s') && OwnSteps(s4, k, ex, 1, s') && OwnSteps(s3, k, ex, 2, s');
      assert OwnSteps(s2, k, ex, 3, s') && OwnSteps(s1, k, ex, 4, s');
    }
  }

  /** The first event of a daemon just built is let in, whatever its policy and whatever
      the options. */
  lemma FirstEventIsLetIn(policies: seq<OverlapPolicy>, option: int, p: nat, ex: Execution)
      returns (s: State, n: nat, s': State)
    requires p < |policies|
    ensures Moves(Start(policies, option), Arrive(p), s) && |s.threads| == 1
    ensures OwnSteps(s, 0, ex, n, s') && LetInto(s, 0, s', Claimed)
  {
    s := Start(policies, option).(threads := [Thread(p, Fired)]);
    n, s' := WelcomeIsLetIn(s, 0, ex);
  }

  /** A swap that is tried succeeds unless the counter has moved since it was read, and
      then it is read again. */
  lemma SwapFailsOnlyIfMoved(s: State, k: nat, ex: Execution)
    requires Shape(s) && k < |s.threads| && s.threads[k].pc.Comparing?
    ensures var p := s.threads[k].pipe; var s' := Step(s, k, ex);
      if s.pipes[p].inflight == s.threads[k].pc.seen then LetInto(s, k, s', Claimed)
      else s'.threads[k].pc == Claiming && s'.pipes == s.pipes
  {
  }

  /** Steps from here to the end of a thread that was let in: four to the end of its run,
      one more to record it or three if it left a step behind, and three to release. */
  ghost function StepsLeft(pc: Pc, ex: Execution): nat {
    var recording := if ex.abandoned > 0 then 3 else 1;
    match pc
    case Claimed => 4 + recording + 3
    case Registered => 3 + recording + 3
    case Entered => 2 + recording + 3
    case Running => 1 + recording + 3
    case Ended(abandoned) => (if abandoned then 3 else 1) + 3
    case Counted => 2 + 3
    case Judging(_) => 1 + 3
    case Releasing => 3
    case Leaving => 2
    case Signing => 1
    case _ => 0
  }

  lemma StepGoesOn(s: State, k: nat, ex: Execution)
    requires Shape(s) && k < |s.threads| && LetIn(s.threads[k].pc) && !s.threads[k].pc.Gone?
    ensures var pc' := Step(s, k, ex).threads[k].pc;
      CanStep(s, k) && LetIn(pc') && StepsLeft(pc', ex) == StepsLeft(s.threads[k].pc, ex) - 1 &&
      (pc'.Gone? <==> StepsLeft(pc', ex) == 0)
  {
  }

  /** Once let in, a thread runs, is recorded and releases everything by its own steps; no
      lock and nobody else holds it up. */
  lemma {:induction false} LetInGoesThrough(s: State, k: nat, ex: Execution) returns (s': State)
    requires Shape(s) && k < |s.threads| && LetIn(s.threads[k].pc)
    ensures OwnSteps(s, k, ex, StepsLeft(s.threads[k].pc, ex), s')
    ensures k < |s'.threads| && s'.threads[k].pc == Gone
    decreases StepsLeft(s.threads[k].pc, ex)
  {
    if s.threads[k].pc.Gone? {
      s' := s;
    } else {
      StepGoesOn(s, k, ex);
      StepLocal(s, k, ex);
      s' := LetInGoesThrough(Step(s, k, ex), k, ex);
    }
  }

  // ------------------------------------------------------------ every run is recorded

  /** A history and the events that drive it. */
  ghost predicate Driven(policies: seq<OverlapPolicy>, option: int, h: seq<State>, es: seq<Event>) {
    && |h| == |es| + 1 && h[0] == Start(policies, option)
    && forall i :: 0 <= i < |es| ==> DrivenAt(h, es, i)
  }

  ghost predicate DrivenAt(h: seq<State>, es: seq<Event>, i: nat) {
    i < |es| && i + 1 < |h| && Shape(h[i]) && Moves(h[i], es[i], h[i + 1])
  }

  /** The event ends a run of p, which left a step behind or did not. */
  ghost predicate IsEnd(s: State, e: Event, p: nat, abandoned: bool) {
    && e.Act? && e.thread < |s.threads|
    && s.threads[e.thread] == Thread(p, Running) && (e.ex.abandoned > 0) == abandoned
  }

  /** How many of the first i events do. */
  ghost function RunEnds(h: seq<State>, es: seq<Event>, p: nat, abandoned: bool, i: nat): nat
    requires i <= |es| && |es| <= |h|
  {
    if i == 0 then 0
    else RunEnds(h, es, p, abandoned, i - 1) + Ind(IsEnd(h[i - 1], es[i - 1], p, abandoned))
  }

  /** The run has ended and is not in the log yet. */
  ghost function Unlogged(p: nat, abandoned: bool): Thread -> nat {
    (t: Thread) => Ind(t.pipe == p && (t.pc == Ended(abandoned) || (abandoned && t.pc.Counted?)))
  }

  predicate RunOver(pc: Pc) {
    pc.Ended? || pc.Counted? || pc.Judging? || pc.Releasing? || pc.Leaving? || pc.Signing? || pc.Gone?
  }

  ghost function Over(p: nat): Thread -> nat {
    (t: Thread) => Ind(t.pipe == p && RunOver(t.pc))
  }

  ghost predicate Accounted(s: State, p: nat, left: nat, clean: nat)
    requires p < |s.pipes|
  {
    && Total(s.pipes[p].log) + Sum(s.threads, Unlogged(p, true)) == left
    && |s.pipes[p].log| - Total(s.pipes[p].log) + Sum(s.threads, Unlogged(p, false)) == clean
    && Sum(s.threads, Over(p)) == left + clean
  }

  lemma TotalAppend(log: seq<bool>, b: bool)
    ensures Total(log + [b]) == Total(log) + Ind(b)
  {
    assert (log + [b])[..|log|] == log;
  }

  lemma StepAccounts(s: State, k: nat, ex: Execution, p: nat)
    requires Shape(s) && k < |s.threads| && CanStep(s, k) && s.threads[k].pipe == p
    ensures var pc, pc' := s.threads[k].pc, Step(s, k, ex).threads[k].pc;
      && Ind(RunOver(pc')) == Ind(RunOver(pc)) + Ind(pc.Running?)
      && Ind(pc' == Ended(true) || pc'.Counted?) + Ind(pc.Counted?) ==
           Ind(pc == Ended(true) || pc.Counted?) + Ind(pc.Running? && ex.abandoned > 0)
      && Ind(pc' == Ended(false)) == Ind(pc.Running? && !(ex.abandoned > 0))
  {
  }

  /** One thread's move, as the counts of its pipeline see it. */
  lemma CountsMove(s: State, k: nat, s': State, p: nat)
    requires k < |s.threads| && s.threads[k].pipe < |s.pipes| && Local(s, k, s')
    ensures Sum(s'.threads, Unlogged(p, true)) + Unlogged(p, true)(s.threads[k]) ==
      Sum(s.threads, Unlogged(p, true)) + Unlogged(p, true)(s'.threads[k])
    ensures Sum(s'.threads, Unlogged(p, false)) + Unlogged(p, false)(s.threads[k]) ==
      Sum(s.threads, Unlogged(p, false)) + Unlogged(p, false)(s'.threads[k])
    ensures Sum(s'.threads, Over(p)) + Over(p)(s.threads[k]) == Sum(s.threads, Over(p)) + Over(p)(s'.threads[k])
  {
    SumUpdate(s.threads, k, s'.threads[k], Unlogged(p, true));
    SumUpdate(s.threads, k, s'.threads[k], Unlogged(p, false));
    SumUpdate(s.threads, k, s'.threads[k], Over(p));
  }

  lemma StepKeepsAccount(s: State, k: nat, ex: Execution, p: nat, left: nat, clean: nat)
    requires Shape(s) && k < |s.threads| && CanStep(s, k) && p < |s.pipes| && Accounted(s, p, left, clean)
    ensures Shape(Step(s, k, ex)) && p < |Step(s, k, ex).pipes|
    ensures Accounted(Step(s, k, ex), p,
      left + Ind(IsEnd(s, Act(k, ex), p, true)), clean + Ind(IsEnd(s, Act(k, ex), p, false)))
  {
    var s' := Step(s, k, ex);
    StepRecords(s, k, ex);
    CountsMove(s, k, s', p);
    if s.threads[k].pipe == p {
      StepAccounts(s, k, ex, p);
      TotalAppend(s.pipes[p].log, true);
      TotalAppend(s.pipes[p].log, false);
    }
  }

  lemma NextKeepsAccount(s: State, e: Event, s': State, p: nat, left: nat, clean: nat)
    requires Shape(s) && Moves(s, e, s') && p < |s.pipes| && Accounted(s, p, left, clean)
    ensures p < |s'.pipes|
    ensures Accounted(s', p, left + Ind(IsEnd(s, e, p, true)), clean + Ind(IsEnd(s, e, p, false)))
  {
    match e
    case Act(k, ex) => StepKeepsAccount(s, k, ex, p, left, clean);
    case Arrive(q) =>
      SumAppend(s.threads, Thread(q, Fired), Unlogged(p, true));
      SumAppend(s.threads, Thread(q, Fired), Unlogged(p, false));
      SumAppend(s.threads, Thread(q, Fired), Over(p));
    case DrainOn(_) =>
      assert s'.threads == s.threads && s'.pipes == s.pipes;
  }

  /** Over any history: every run that ended is in the log once, with whether it left a
      step behind, unless its thread has yet to write it there; and nothing else is, and
      no thread gets past its run without one. */
  lemma {:induction false} RunsAreRecorded(policies: seq<OverlapPolicy>, option: int, h: seq<State>, es: seq<Event>,
                                           i: nat, p: nat)
    requires Driven(policies, option, h, es) && i <= |es| && p < |policies|
    ensures p < |h[i].pipes|
    ensures Accounted(h[i], p, RunEnds(h, es, p, true, i), RunEnds(h, es, p, false, i))
  {
    if i > 0 {
      RunsAreRecorded(policies, option, h, es, i - 1, p);
      assert DrivenAt(h, es, i - 1);
      NextKeepsAccount(h[i - 1], es[i - 1], h[i], p,
        RunEnds(h, es, p, true, i - 1), RunEnds(h, es, p, false, i - 1));
    }
  }

  // ------------------------------------------------------------------------- the drain

  /** With no reader and no run in the way, the drain gets done by its own steps. */
  lemma DrainGetsDone(s: State)
    requires s.drainer.Serving? && s.readers == 0 && s.wg == 0
    ensures CanDrain(s, false) && CanDrain(Drain(s, false), false)
    ensures var s2 := Drain(Drain(s, false), false);
      && s2.draining && CanDrain(s2, false) && CanDrain(Drain(s2, false), false)
      && Drain(Drain(s2, false), false) == s.(draining := true, drainer := Drained)
  {
  }

  /** Waiting ends when the runs have, or by the clock, and says which; the clock may win
      even then. */
  lemma WaitEnds(s: State)
    requires s.drainer.Waiting?
    ensures CanDrain(s, false) <==> s.wg == 0
    ensures Drain(s, false) == s.(drainer := Drained)
    ensures CanDrain(s, true) && Drain(s, true) == s.(drainer := GaveUp)
  {
  }

  /** From taking the write lock to giving it up nobody holds the read lock, over any
      history; and exactly then an event waits for it. */
  lemma WriterExcludesReaders(policies: seq<OverlapPolicy>, option: int, h: seq<State>, i: nat)
    requires IsHistory(policies, option, h) && i < |h|
    ensures var s := h[i]; var held := s.drainer.Writing? || s.drainer.Marked?;
      && (held ==> forall k :: 0 <= k < |s.threads| ==> !HoldsRead(s.threads[k].pc))
      && forall k :: 0 <= k < |s.threads| && s.threads[k].pc.Locking? ==> (CanStep(s, k) <==> !held)
  {
    HistoryKeepsInv(policies, option, h, i);
    var s := h[i];
    if s.drainer.Writing? || s.drainer.Marked? {
      forall k | 0 <= k < |s.threads|
        ensures !HoldsRead(s.threads[k].pc)
      {
        NobodyReads(s, k);
      }
    }
  }
}
