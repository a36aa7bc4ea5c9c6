/** Admission, drain and quarantine (internal/daemon/run.go, daemon.go): any number
    of events, each a thread that goes through admission, a run and its release one
    atomic operation at a time, against the shared counters, the read/write lock and
    the wait group. */
module Daemon {
  import opened Collections
  import opened Pipeline
  import RunModel

  type Execution = RunModel.Execution

  const QUARANTINE_AFTER: int := 3
  const DEFAULT_MAX_RUNS_PER_PIPELINE: int := 64

  /** The cap the options ask for; zero is no cap. */
  function MaxRuns(option: int): int {
    if option < 0 then 0
    else if option == 0 then DEFAULT_MAX_RUNS_PER_PIPELINE
    else option
  }

  datatype Refusal = Quarantined | Draining | Overlapped | AtCapacity

  /** What a thread does next. */
  datatype Pc =
    | Fired                     // read the quarantined flag
    | Locking                   // take the read lock
    | Checking                  // read draining
    | Claiming                  // claimSlot: compare and swap, or load
    | Comparing(seen: int)      // claimSlot: compare and swap what was loaded
    | Claimed                   // wg.Add(1)
    | Registered                // d.inflight.Add(1)
    | Entered                   // give the read lock back and go
    | Refusing(why: Refusal)    // give the read lock back and report
    | Running                   // the run itself
    | Ended(abandoned: bool)    // abandonedRuns.Add(1), or consecutiveAbandoned.Store(0)
    | Counted                   // consecutiveAbandoned.Add(1)
    | Judging(streak: int)      // quarantined.CompareAndSwap(false, true)
    | Releasing                 // p.inflight.Add(-1)
    | Leaving                   // d.inflight.Add(-1)
    | Signing                   // wg.Done()
    | Gone
    | Refused(reason: Refusal)

  datatype Thread = Thread(pipe: nat, pc: Pc)

  /** A served pipeline's bookkeeping. `log` is its history: for each run recorded, in
      the order of the writes to the streak, whether it abandoned a step. */
  datatype Served = Served(
    overlap: OverlapPolicy, inflight: int, consecutive: int, abandonedRuns: int, quarantined: bool,
    log: seq<bool>)

  /** drainRuns: not yet, holding the write lock, having set the flag, waiting, or
      done waiting. */
  datatype Drainer = Serving | Writing | Marked | Waiting | Drained | GaveUp

  datatype State = State(
    pipes: seq<Served>, threads: seq<Thread>, maxRuns: int,
    readers: int, draining: bool, wg: int, inflight: int, drainer: Drainer)

  predicate WriteLocked(s: State) {
    s.drainer.Writing? || s.drainer.Marked?
  }

  function Start(policies: seq<OverlapPolicy>, option: int): State {
    State(
      seq(|policies|, p requires 0 <= p < |policies| => Served(policies[p], 0, 0, 0, false, [])),
      [], MaxRuns(option), 0, false, 0, 0, Serving)
  }

  ghost predicate Shape(s: State) {
    forall k :: 0 <= k < |s.threads| ==> s.threads[k].pipe < |s.pipes|
  }

  // ------------------------------------------------------------------- thread steps

  /** Thread k moves to pc, leaving everything else as it is. */
  function At(s: State, k: nat, pc: Pc): State
    requires k < |s.threads|
  {
    s.(threads := s.threads[k := s.threads[k].(pc := pc)])
  }

  function With(s: State, p: nat, pipe: Served): State
    requires p < |s.pipes|
  {
    s.(pipes := s.pipes[p := pipe])
  }

  /** A reader waits only for a writer. */
  predicate CanStep(s: State, k: nat)
    requires k < |s.threads|
  {
    match s.threads[k].pc
    case Locking => !WriteLocked(s)
    case Gone => false
    case Refused(_) => false
    case _ => true
  }

  /** claimSlot, up to its first atomic operation. */
  function ClaimSlot(s: State, k: nat): State
    requires k < |s.threads| && s.threads[k].pipe < |s.pipes|
  {
    var p := s.threads[k].pipe;
    var pipe := s.pipes[p];
    if pipe.overlap.Drop? then
      if pipe.inflight == 0 then At(With(s, p, pipe.(inflight := 1)), k, Claimed)
      else At(s, k, Refusing(Overlapped))
    else if s.maxRuns > 0 && pipe.inflight >= s.maxRuns then At(s, k, Refusing(AtCapacity))
    else At(s, k, Comparing(pipe.inflight))
  }

  /** One atomic operation of thread k; `ex` is what its run reports, if this is
      where the run ends. */
  function Step(s: State, k: nat, ex: Execution): State
    requires k < |s.threads| && s.threads[k].pipe < |s.pipes|
  {
    var p := s.threads[k].pipe;
    var pipe := s.pipes[p];
    match s.threads[k].pc
    case Fired => At(s, k, if pipe.quarantined then Refused(Quarantined) else Locking)
    case Locking => At(s.(readers := s.readers + 1), k, Checking)
    case Checking => At(s, k, if s.draining then Refusing(Draining) else Claiming)
    case Claiming => ClaimSlot(s, k)
    case Comparing(seen) =>
      if pipe.inflight == seen then At(With(s, p, pipe.(inflight := seen + 1)), k, Claimed)
      else At(s, k, Claiming)
    case Claimed => At(s.(wg := s.wg + 1), k, Registered)
    case Registered => At(s.(inflight := s.inflight + 1), k, Entered)
    case Entered => At(s.(readers := s.readers - 1), k, Running)
    case Refusing(why) => At(s.(readers := s.readers - 1), k, Refused(why))
    case Running => At(s, k, Ended(ex.abandoned > 0))
    case Ended(a) =>
      if a then At(With(s, p, pipe.(abandonedRuns := pipe.abandonedRuns + 1)), k, Counted)
      else At(With(s, p, pipe.(consecutive := 0, log := pipe.log + [false])), k, Releasing)
    case Counted =>
      At(With(s, p, pipe.(consecutive := pipe.consecutive + 1, log := pipe.log + [true])), k,
        Judging(pipe.consecutive + 1))
    case Judging(streak) =>
      At(With(s, p, pipe.(quarantined := pipe.quarantined || streak >= QUARANTINE_AFTER)), k, Releasing)
    case Releasing => At(With(s, p, pipe.(inflight := pipe.inflight - 1)), k, Leaving)
    case Leaving => At(s.(inflight := s.inflight - 1), k, Signing)
    case Signing => At(s.(wg := s.wg - 1), k, Gone)
    case Gone => s
    case Refused(_) => s
  }

  // ------------------------------------------------------------------ drainer steps

  /** The writer waits for the readers, and then for the wait group or the clock. */
  predicate CanDrain(s: State, timeout: bool) {
    match s.drainer
    case Serving => s.readers == 0
    case Waiting => timeout || s.wg == 0
    case Drained => false
    case GaveUp => false
    case _ => true
  }

  function Drain(s: State, timeout: bool): State {
    match s.drainer
    case Serving => s.(drainer := Writing)
    case Writing => s.(draining := true, drainer := Marked)
    case Marked => s.(drainer := Waiting)
    case Waiting => s.(drainer := if timeout then GaveUp else Drained)
    case Drained => s
    case GaveUp => s
  }

  datatype Event = Arrive(pipe: nat) | Act(thread: nat, ex: Execution) | DrainOn(timeout: bool)

  ghost predicate Moves(s: State, e: Event, s': State)
    requires Shape(s)
  {
    match e
    case Arrive(p) => p < |s.pipes| && s' == s.(threads := s.threads + [Thread(p, Fired)])
    case Act(k, ex) => k < |s.threads| && CanStep(s, k) && s' == Step(s, k, ex)
    case DrainOn(timeout) => CanDrain(s, timeout) && s' == Drain(s, timeout)
  }

  ghost predicate Next(s: State, s': State) {
    Shape(s) && exists e :: Moves(s, e, s')
  }

  /** The i-th state of a history follows from the one before it. */
  ghost predicate MovesTo(h: seq<State>, i: nat) {
    0 < i < |h| && Next(h[i - 1], h[i])
  }

  ghost predicate IsHistory(policies: seq<OverlapPolicy>, option: int, h: seq<State>) {
    && |h| > 0 && h[0] == Start(policies, option)
    && forall i :: 0 < i < |h| ==> MovesTo(h, i)
  }

  // ---------------------------------------------------------------------- counting

  /** Between the swap and the release, a thread holds a run of its pipeline. */
  predicate HoldsClaim(pc: Pc) {
    match pc
    case Claimed => true
    case Registered => true
    case Entered => true
    case Running => true
    case Ended(_) => true
    case Counted => true
    case Judging(_) => true
    case Releasing => true
    case _ => false
  }

  predicate HoldsWait(pc: Pc) {
    (HoldsClaim(pc) && !pc.Claimed?) || pc.Leaving? || pc.Signing?
  }

  predicate HoldsCount(pc: Pc) {
    (HoldsClaim(pc) && !pc.Claimed? && !pc.Registered?) || pc.Leaving?
  }

  predicate HoldsRead(pc: Pc) {
    pc.Checking? || PastCheck(pc) || pc.Refusing?
  }

  /** Past the draining check and still under the read lock. */
  predicate PastCheck(pc: Pc) {
    pc.Claiming? || pc.Comparing? || pc.Claimed? || pc.Registered? || pc.Entered?
  }

  ghost function OnPipe(p: nat): Thread -> nat {
    (t: Thread) => if t.pipe == p && HoldsClaim(t.pc) then 1 else 0
  }

  ghost function InWait(): Thread -> nat {
    (t: Thread) => if HoldsWait(t.pc) then 1 else 0
  }

  ghost function InCount(): Thread -> nat {
    (t: Thread) => if HoldsCount(t.pc) then 1 else 0
  }

  ghost function InRead(): Thread -> nat {
    (t: Thread) => if HoldsRead(t.pc) then 1 else 0
  }

  /** Admitted and not yet released. */
  ghost function Admitted(s: State, p: nat): nat {
    Sum(s.threads, OnPipe(p))
  }

  ghost predicate Counts(s: State) {
    && (forall p :: 0 <= p < |s.pipes| ==> s.pipes[p].inflight == Admitted(s, p))
    && s.wg == Sum(s.threads, InWait())
    && s.inflight == Sum(s.threads, InCount())
    && s.readers == Sum(s.threads, InRead())
  }

  function Ind(b: bool): nat {
    if b then 1 else 0
  }

  /** A step moves one thread and touches at most its own pipeline. */
  ghost predicate Local(s: State, k: nat, s': State)
    requires k < |s.threads| && s.threads[k].pipe < |s.pipes|
  {
    && |s'.pipes| == |s.pipes| && |s'.threads| == |s.threads|
    && s'.threads == s.threads[k := s'.threads[k]] && s'.threads[k].pipe == s.threads[k].pipe
    && s'.pipes == s.pipes[s.threads[k].pipe := s'.pipes[s.threads[k].pipe]]
    && s'.pipes[s.threads[k].pipe].overlap == s.pipes[s.threads[k].pipe].overlap
    && s'.maxRuns == s.maxRuns && s'.draining == s.draining && s'.drainer == s.drainer
  }

  lemma StepLocal(s: State, k: nat, ex: Execution)
    requires Shape(s) && k < |s.threads|
    ensures Local(s, k, Step(s, k, ex))
  {
  }

  /** Each counter changes by exactly what the thread takes or gives back. */
  lemma ClaimsBalance(s: State, k: nat, ex: Execution)
    requires Shape(s) && k < |s.threads|
    ensures var s' := Step(s, k, ex); var p := s.threads[k].pipe;
      s'.pipes[p].inflight - s.pipes[p].inflight ==
        Ind(HoldsClaim(s'.threads[k].pc)) - Ind(HoldsClaim(s.threads[k].pc))
  {
  }

  lemma WaitsBalance(s: State, k: nat, ex: Execution)
    requires Shape(s) && k < |s.threads|
    ensures var s' := Step(s, k, ex);
      s'.wg - s.wg == Ind(HoldsWait(s'.threads[k].pc)) - Ind(HoldsWait(s.threads[k].pc))
  {
  }

  lemma TotalsBalance(s: State, k: nat, ex: Execution)
    requires Shape(s) && k < |s.threads|
    ensures var s' := Step(s, k, ex);
      s'.inflight - s.inflight == Ind(HoldsCount(s'.threads[k].pc)) - Ind(HoldsCount(s.threads[k].pc))
  {
  }

  lemma ReadersBalance(s: State, k: nat, ex: Execution)
    requires Shape(s) && k < |s.threads|
    ensures var s' := Step(s, k, ex);
      s'.readers - s.readers == Ind(HoldsRead(s'.threads[k].pc)) - Ind(HoldsRead(s.threads[k].pc))
  {
  }

  lemma PipeCountKept(s: State, k: nat, ex: Execution, p: nat)
    requires Shape(s) && k < |s.threads| && p < |s.pipes| && s.pipes[p].inflight == Admitted(s, p)
    ensures var s' := Step(s, k, ex);
      p < |s'.pipes| && s'.pipes[p].inflight == Admitted(s', p)
  {
    var s' := Step(s, k, ex);
    StepLocal(s, k, ex);
    ClaimsBalance(s, k, ex);
    SumUpdate(s.threads, k, s'.threads[k], OnPipe(p));
  }

  lemma SharedCountsKept(s: State, k: nat, ex: Execution)
    requires Shape(s) && k < |s.threads| && Counts(s)
    ensures var s' := Step(s, k, ex);
      && s'.wg == Sum(s'.threads, InWait())
      && s'.inflight == Sum(s'.threads, InCount())
      && s'.readers == Sum(s'.threads, InRead())
  {
    var s' := Step(s, k, ex);
    StepLocal(s, k, ex);
    WaitsBalance(s, k, ex);
    TotalsBalance(s, k, ex);
    ReadersBalance(s, k, ex);
    SumUpdate(s.threads, k, s'.threads[k], InWait());
    SumUpdate(s.threads, k, s'.threads[k], InCount());
    SumUpdate(s.threads, k, s'.threads[k], InRead());
  }

  lemma StepCountsKept(s: State, k: nat, ex: Execution)
    requires Shape(s) && k < |s.threads| && Counts(s)
    ensures Counts(Step(s, k, ex))
  {
    var s' := Step(s, k, ex);
    SharedCountsKept(s, k, ex);
    StepLocal(s, k, ex);
    forall q | 0 <= q < |s'.pipes|
      ensures s'.pipes[q].inflight == Admitted(s', q)
    {
      PipeCountKept(s, k, ex, q);
    }
  }

  lemma ArrivalCountsKept(s: State, p: nat)
    requires Counts(s)
    ensures Counts(s.(threads := s.threads + [Thread(p, Fired)]))
  {
    var t := Thread(p, Fired);
    SumAppend(s.threads, t, InWait());
    SumAppend(s.threads, t, InCount());
    SumAppend(s.threads, t, InRead());
    forall q | 0 <= q < |s.pipes|
      ensures s.pipes[q].inflight == Sum(s.threads + [t], OnPipe(q))
    {
      SumAppend(s.threads, t, OnPipe(q));
    }
  }

  // ------------------------------------------------------------------- the ceiling

  /** At most one run under drop, at most the cap under a capped allow; and whoever
      is about to swap saw room. */
  ghost predicate Bounded(s: State) {
    && (forall p :: 0 <= p < |s.pipes| ==> WithinPolicy(s, p))
    && (forall k :: 0 <= k < |s.threads| && s.threads[k].pc.Comparing? ==> SawRoom(s, s.threads[k]))
  }

  ghost predicate WithinPolicy(s: State, p: nat)
    requires p < |s.pipes|
  {
    && (s.pipes[p].overlap.Drop? ==> s.pipes[p].inflight <= 1)
    && (s.pipes[p].overlap.Allow? && s.maxRuns > 0 ==> s.pipes[p].inflight <= s.maxRuns)
  }

  ghost predicate SawRoom(s: State, t: Thread) {
    && t.pipe < |s.pipes| && t.pc.Comparing? && s.pipes[t.pipe].overlap.Allow?
    && (s.maxRuns > 0 ==> t.pc.seen < s.maxRuns)
  }

  lemma PolicyKept(s: State, k: nat, ex: Execution)
    requires Shape(s) && k < |s.threads| && Bounded(s)
    ensures WithinPolicy(Step(s, k, ex), s.threads[k].pipe)
  {
    assert WithinPolicy(s, s.threads[k].pipe);
  }

  lemma RoomSeen(s: State, k: nat, ex: Execution)
    requires Shape(s) && k < |s.threads|
    ensures var t := Step(s, k, ex).threads[k]; t.pc.Comparing? ==> SawRoom(Step(s, k, ex), t)
  {
  }

  lemma StepKeepsBounded(s: State, k: nat, ex: Execution)
    requires Shape(s) && k < |s.threads| && Bounded(s)
    ensures Bounded(Step(s, k, ex))
  {
    var s' := Step(s, k, ex);
    StepLocal(s, k, ex);
    PolicyKept(s, k, ex);
    RoomSeen(s, k, ex);
    forall p | 0 <= p < |s'.pipes|
      ensures WithinPolicy(s', p)
    {
      assert WithinPolicy(s, p);
    }
    forall j | 0 <= j < |s'.threads| && s'.threads[j].pc.Comparing?
      ensures SawRoom(s', s'.threads[j])
    {
      if j != k {
        assert SawRoom(s, s.threads[j]);
      }
    }
  }

  // --------------------------------------------------------------------- the drain

  /** The write lock excludes readers, draining is set under it and for good, and
      nobody who has passed the check is still under the lock once it is set. */
  ghost predicate Excluded(s: State) {
    && (s.drainer.Writing? || s.drainer.Marked? ==> s.readers == 0)
    && (s.draining <==> !s.drainer.Serving? && !s.drainer.Writing?)
    && (s.draining ==> forall k :: 0 <= k < |s.threads| ==> !PastCheck(s.threads[k].pc))
  }

  lemma NobodyReads(s: State, k: nat)
    requires Counts(s) && s.readers == 0 && k < |s.threads|
    ensures !HoldsRead(s.threads[k].pc)
  {
    SumAtLeast(s.threads, k, InRead());
  }

  lemma StepKeepsExcluded(s: State, k: nat, ex: Execution)
    requires Shape(s) && Counts(s) && Excluded(s) && k < |s.threads| && CanStep(s, k)
    ensures Excluded(Step(s, k, ex))
  {
    var s' := Step(s, k, ex);
    StepLocal(s, k, ex);
    ReadersBalance(s, k, ex);
    PassesCheck(s, k, ex);
    if WriteLocked(s) {
      NobodyReads(s, k);
    }
  }

  /** The check is passed, or the read lock taken, only when it may be. */
  lemma PassesCheck(s: State, k: nat, ex: Execution)
    requires Shape(s) && k < |s.threads| && CanStep(s, k)
    ensures var pc, pc' := s.threads[k].pc, Step(s, k, ex).threads[k].pc;
      && (PastCheck(pc') ==> PastCheck(pc) || !s.draining)
      && (HoldsRead(pc') ==> HoldsRead(pc) || !WriteLocked(s))
  {
  }

  lemma DrainKeepsExcluded(s: State, timeout: bool)
    requires Counts(s) && Excluded(s) && CanDrain(s, timeout)
    ensures Excluded(Drain(s, timeout))
  {
    if s.drainer.Writing? {
      forall k | 0 <= k < |s.threads|
        ensures !PastCheck(s.threads[k].pc)
      {
        NobodyReads(s, k);
      }
    }
  }

  // ----------------------------------------------------------------- the invariant

  ghost predicate Inv(s: State) {
    Shape(s) && Counts(s) && Bounded(s) && Excluded(s)
  }

  lemma StartInv(policies: seq<OverlapPolicy>, option: int)
    ensures Inv(Start(policies, option))
  {
  }

  lemma MovesKeepInv(s: State, e: Event, s': State)
    requires Inv(s) && Moves(s, e, s')
    ensures Inv(s')
  {
    match e
    case DrainOn(timeout) =>
      DrainKeepsExcluded(s, timeout);
      DrainKeepsRest(s, timeout);
    case Arrive(p) =>
      ArrivalCountsKept(s, p);
      ArrivalKeepsRest(s, p);
    case Act(k, a) =>
      StepLocal(s, k, a);
      StepCountsKept(s, k, a);
      StepKeepsBounded(s, k, a);
      StepKeepsExcluded(s, k, a);
  }

  lemma DrainKeepsRest(s: State, timeout: bool)
    requires Shape(s) && Counts(s) && Bounded(s)
    ensures Shape(Drain(s, timeout)) && Counts(Drain(s, timeout)) && Bounded(Drain(s, timeout))
  {
    var s' := Drain(s, timeout);
    assert s'.threads == s.threads && s'.pipes == s.pipes && s'.maxRuns == s.maxRuns;
    forall k | 0 <= k < |s.threads| && s.threads[k].pc.Comparing?
      ensures SawRoom(s', s.threads[k])
    {
      assert SawRoom(s, s.threads[k]);
    }
    forall p | 0 <= p < |s.pipes|
      ensures WithinPolicy(s', p) && s'.pipes[p].inflight == Admitted(s', p)
    {
      assert WithinPolicy(s, p) && Admitted(s', p) == Admitted(s, p);
    }
  }

  lemma ArrivalKeepsRest(s: State, p: nat)
    requires Shape(s) && Bounded(s) && Excluded(s) && p < |s.pipes|
    ensures var s' := s.(threads := s.threads + [Thread(p, Fired)]); Shape(s') && Bounded(s') && Excluded(s')
  {
    var s' := s.(threads := s.threads + [Thread(p, Fired)]);
    forall k | 0 <= k < |s'.threads| && s'.threads[k].pc.Comparing?
      ensures SawRoom(s', s'.threads[k])
    {
      assert SawRoom(s, s.threads[k]);
    }
    forall q | 0 <= q < |s.pipes|
      ensures WithinPolicy(s', q)
    {
      assert WithinPolicy(s, q);
    }
  }

  lemma {:induction false} HistoryKeepsInv(policies: seq<OverlapPolicy>, option: int, h: seq<State>, i: nat)
    requires IsHistory(policies, option, h) && i < |h|
    ensures Inv(h[i])
  {
    if i == 0 {
      StartInv(policies, option);
    } else {
      HistoryKeepsInv(policies, option, h, i - 1);
      assert MovesTo(h, i);
      NextKeepsInv(h[i - 1], h[i]);
    }
  }

  lemma NextKeepsInv(s: State, s': State)
    requires Inv(s) && Next(s, s')
    ensures Inv(s')
  {
    var e :| Moves(s, e, s');
    MovesKeepInv(s, e, s');
  }

  // -------------------------------------------------------------------- admission

  /** Policies and cap are what the daemon was built with. */
  ghost predicate Configured(policies: seq<OverlapPolicy>, option: int, s: State) {
    && |s.pipes| == |policies| && s.maxRuns == MaxRuns(option)
    && forall p :: 0 <= p < |policies| ==> s.pipes[p].overlap == policies[p]
  }

  lemma NextKeepsConfig(policies: seq<OverlapPolicy>, option: int, s: State, s': State)
    requires Configured(policies, option, s) && Next(s, s')
    ensures Configured(policies, option, s')
  {
    var e :| Moves(s, e, s');
    if e.Act? {
      StepLocal(s, e.thread, e.ex);
    }
  }

  lemma {:induction false} HistoryKeepsConfig(policies: seq<OverlapPolicy>, option: int, h: seq<State>, i: nat)
    requires IsHistory(policies, option, h) && i < |h|
    ensures Configured(policies, option, h[i])
  {
    if i > 0 {
      HistoryKeepsConfig(policies, option, h, i - 1);
      assert MovesTo(h, i);
      NextKeepsConfig(policies, option, h[i - 1], h[i]);
    }
  }

  /** At every moment of every interleaving, a pipeline's counter is the number of
      its runs admitted and not yet released, within what its policy allows, and the
      daemon's counters never fall below zero. */
  lemma AdmissionHolds(policies: seq<OverlapPolicy>, option: int, h: seq<State>, i: nat, p: nat)
    requires IsHistory(policies, option, h) && i < |h| && p < |policies|
    ensures var s := h[i];
      && |s.pipes| == |policies| && s.pipes[p].inflight == Admitted(s, p)
      && (policies[p].Drop? ==> s.pipes[p].inflight <= 1)
      && (policies[p].Allow? && option > 0 ==> s.pipes[p].inflight <= option)
      && (policies[p].Allow? && option == 0 ==> s.pipes[p].inflight <= 64)
      && s.wg >= 0 && s.inflight >= 0 && s.readers >= 0
  {
    HistoryKeepsInv(policies, option, h, i);
    HistoryKeepsConfig(policies, option, h, i);
    assert WithinPolicy(h[i], p);
  }

  /** An attempt to claim is refused exactly when the pipeline already has all the
      runs its policy allows at that moment. */
  lemma RefusalIsJustified(s: State, k: nat, ex: Execution)
    requires Inv(s) && k < |s.threads| && s.threads[k].pc.Claiming?
    ensures var p := s.threads[k].pipe; var pc' := Step(s, k, ex).threads[k].pc;
      && (s.pipes[p].overlap.Drop? ==> pc' == if Admitted(s, p) == 1 then Refusing(Overlapped) else Claimed)
      && (s.pipes[p].overlap.Allow? && s.maxRuns > 0 ==>
            (pc' == Refusing(AtCapacity) <==> Admitted(s, p) == s.maxRuns))
      && (s.pipes[p].overlap.Allow? && s.maxRuns <= 0 ==> pc'.Comparing?)
  {
    assert WithinPolicy(s, s.threads[k].pipe);
  }

  /** Let in: from the swap on. */
  predicate LetIn(pc: Pc) {
    HoldsClaim(pc) || pc.Leaving? || pc.Signing? || pc.Gone?
  }

  predicate TurnedAway(pc: Pc) {
    pc.Refusing? || pc.Refused?
  }

  lemma StepTurnsAway(s: State, k: nat, ex: Execution)
    requires Shape(s) && k < |s.threads| && CanStep(s, k)
    ensures var s' := Step(s, k, ex);
      && (LetIn(s.threads[k].pc) ==> LetIn(s'.threads[k].pc))
      && (TurnedAway(s'.threads[k].pc) ==>
            !LetIn(s.threads[k].pc) && s'.pipes == s.pipes && s'.wg == s.wg && s'.inflight == s.inflight)
  {
  }

  lemma NextKeepsLetIn(s: State, s': State, k: nat)
    requires Next(s, s') && k < |s.threads| && LetIn(s.threads[k].pc)
    ensures k < |s'.threads| && LetIn(s'.threads[k].pc)
  {
    var e :| Moves(s, e, s');
    if e.Act? {
      StepLocal(s, e.thread, e.ex);
      StepTurnsAway(s, e.thread, e.ex);
    }
  }

  /** A thread that is turned away never held anything: a refusal has no effect on any
      counter, neither in its own steps nor in what it leaves behind. */
  lemma {:induction false} RefusalLeavesNothing(
    policies: seq<OverlapPolicy>, option: int, h: seq<State>, i: nat, j: nat, k: nat)
    requires IsHistory(policies, option, h) && i <= j < |h| && k < |h[i].threads|
    ensures k < |h[j].threads| && (TurnedAway(h[j].threads[k].pc) ==> !LetIn(h[i].threads[k].pc))
    decreases j - i
  {
    if i < j {
      assert MovesTo(h, i + 1);
      ThreadsStay(h[i], h[i + 1]);
      RefusalLeavesNothing(policies, option, h, i + 1, j, k);
      if LetIn(h[i].threads[k].pc) {
        NextKeepsLetIn(h[i], h[i + 1], k);
      }
    }
  }

  lemma ThreadsStay(s: State, s': State)
    requires Next(s, s')
    ensures |s.threads| <= |s'.threads|
  {
    var e :| Moves(s, e, s');
    if e.Act? {
      StepLocal(s, e.thread, e.ex);
    }
  }

  // ----------------------------------------------------------------- after the drain

  ghost predicate Quiet(s: State) {
    s.draining && s.wg == 0
  }

  lemma QuietIsZero(s: State)
    requires Inv(s) && Quiet(s)
    ensures s.inflight == 0
    ensures forall p :: 0 <= p < |s.pipes| ==> s.pipes[p].inflight == 0
    ensures forall k :: 0 <= k < |s.threads| ==> !HoldsClaim(s.threads[k].pc) && !HoldsWait(s.threads[k].pc)
  {
    forall k | 0 <= k < |s.threads|
      ensures !HoldsClaim(s.threads[k].pc) && !HoldsWait(s.threads[k].pc)
    {
      SumAtLeast(s.threads, k, InWait());
      assert !PastCheck(s.threads[k].pc);
    }
    SumZero(s.threads, InCount());
    forall p | 0 <= p < |s.pipes|
      ensures s.pipes[p].inflight == 0
    {
      SumZero(s.threads, OnPipe(p));
    }
  }

  lemma NextKeepsQuiet(s: State, s': State)
    requires Inv(s) && Quiet(s) && Next(s, s')
    ensures Quiet(s')
  {
    var e :| Moves(s, e, s');
    QuietIsZero(s);
    if e.Act? {
      WaitsBalance(s, e.thread, e.ex);
      StepLocal(s, e.thread, e.ex);
      WaitJoins(s, e.thread, e.ex);
    }
  }

  /** Only a thread that has claimed joins the wait group. */
  lemma WaitJoins(s: State, k: nat, ex: Execution)
    requires Shape(s) && k < |s.threads|
    ensures HoldsWait(Step(s, k, ex).threads[k].pc) ==>
      HoldsWait(s.threads[k].pc) || HoldsClaim(s.threads[k].pc)
  {
  }

  /** Once draining is set and the wait group has reached zero, every in-flight counter
      is zero, and all of that stays so whatever still arrives. */
  lemma {:induction false} DrainedForGood(policies: seq<OverlapPolicy>, option: int, h: seq<State>, i: nat, j: nat)
    requires IsHistory(policies, option, h) && i <= j < |h| && Quiet(h[i])
    ensures Quiet(h[j]) && h[j].inflight == 0
    ensures forall p :: 0 <= p < |h[j].pipes| ==> h[j].pipes[p].inflight == 0
    decreases j - i
  {
    HistoryKeepsInv(policies, option, h, i);
    if i < j {
      assert MovesTo(h, i + 1);
      NextKeepsQuiet(h[i], h[i + 1]);
      DrainedForGood(policies, option, h, i + 1, j);
    } else {
      QuietIsZero(h[i]);
    }
  }

  /** What the drain reports as "all runs finished" is so. */
  lemma {:induction false} DrainedIsQuiet(policies: seq<OverlapPolicy>, option: int, h: seq<State>, i: nat)
    requires IsHistory(policies, option, h) && i < |h| && h[i].drainer.Drained?
    ensures Quiet(h[i])
  {
    if i > 0 {
      HistoryKeepsInv(policies, option, h, i - 1);
      assert MovesTo(h, i);
      if h[i - 1].drainer.Drained? {
        DrainedIsQuiet(policies, option, h, i - 1);
        NextKeepsQuiet(h[i - 1], h[i]);
      } else {
        DrainEnds(h[i - 1], h[i]);
      }
    }
  }

  lemma DrainEnds(s: State, s': State)
    requires Inv(s) && Next(s, s') && !s.drainer.Drained? && s'.drainer.Drained?
    ensures Quiet(s')
  {
    var e :| Moves(s, e, s');
    if e.Act? {
      StepLocal(s, e.thread, e.ex);
    }
  }
}
