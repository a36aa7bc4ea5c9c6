/** How runs end: they do, within a fixed number of events, and what the final
    records then say. */
module RunOutcome {
  import opened Collections
  import opened Nodes
  import opened Pipeline
  import opened RunModel
  import opened RunReadiness
  import opened RunInvariant
  import opened RunStart
  import opened RunTheorems

  // ------------------------------------------------------------------- termination

  ghost function PcRank(pc: Pc): nat {
    match pc
    case Top => 3
    case Pumping => 2
    case Selecting => 1
    case Inlining(_) => 1
    case Returned(_) => 0
  }

  /** Events the coordinator may still handle: two per step not yet started, one
      per step out, one for the caller. */
  ghost function Budget(cfg: Config, s: RunState): int {
    2 * (|cfg.plan.steps| - s.launched) + s.inflight
    + (if s.pc.Inlining? then 1 else 0) + (if s.callerPending then 1 else 0)
  }

  /** Moves still possible, goroutines included. */
  ghost function Fuel(cfg: Config, s: RunState): int {
    (if s.pc.Returned? then 0 else 2 * (4 * Budget(cfg, s) + PcRank(s.pc))) + |s.going| + |s.holding|
  }

  lemma FuelSound(cfg: Config, s: RunState)
    requires Inv(cfg, Anything(), s)
    ensures Budget(cfg, s) >= 0 && Fuel(cfg, s) >= 0
    ensures s.launched <= |cfg.plan.steps|
  {
    assert forall x :: x in s.ready ==> 0 <= x < |cfg.plan.steps|;
    DistinctIndices(s.ready, 0, |cfg.plan.steps|);
  }

  lemma HandleKeepsFuel(cfg: Config, s: RunState, c: Completion)
    requires c.index < |s.steps| == |cfg.plan.steps| == |s.unmet| && cfg.plan.IndicesInRange()
    ensures var s' := Handle(cfg.plan, s, c);
      s'.launched == s.launched && s'.inflight == s.inflight && s'.callerPending == s.callerPending &&
      s'.going == s.going && s'.holding == s.holding
  {
  }

  lemma LaunchSpends(cfg: Config, s: RunState)
    requires s.launched < |s.ready| && s.ready[s.launched] < |cfg.plan.steps| && !s.pc.Inlining?
    requires |s.steps| == |cfg.plan.steps| && |s.inputs| == cfg.plan.totalInputs && PlanShape(cfg.plan)
    ensures var s' := Launch(cfg.plan, s);
      s'.clock == s.clock + 1 && Budget(cfg, s') + 1 == Budget(cfg, s) && s'.pc == s.pc &&
      |s'.going| <= |s.going| + 1 && |s'.holding| <= |s.holding| + 1
  {
  }

  ghost predicate Burns(cfg: Config, s: RunState, e: Event, s': RunState) {
    && Fuel(cfg, s') < Fuel(cfg, s)
    && Budget(cfg, s') + s'.clock == Budget(cfg, s) + s.clock
    && (IsWork(e) ==> s'.clock == s.clock + 1)
  }

  /** The events the coordinator's clock counts. */
  ghost predicate IsWork(e: Event) {
    IsLaunch(e) || IsCompletion(e) || e.SelectCaller?
  }

  lemma LaunchBurns(cfg: Config, s: RunState, e: Event, free: bool, s': RunState)
    requires Budget(cfg, s) >= 0 && Moves(cfg, s, e, free, s') && IsLaunch(e)
    ensures Burns(cfg, s, e, s')
  {
    if e.InlineStart? {
      assert |s'.holding| <= |s.holding| + 1;
    } else {
      LaunchSpends(cfg, s);
    }
  }

  lemma CompletionBurns(cfg: Config, s: RunState, e: Event, free: bool, s': RunState)
    requires Budget(cfg, s) >= 0 && Moves(cfg, s, e, free, s') && IsCompletion(e)
    ensures Burns(cfg, s, e, s')
  {
    match e
    case InlineEnd(r) => HandleKeepsFuel(cfg, s.(holding := s.holding - {s.pc.step}), Completion(s.pc.step, r));
    case SelectDone => HandleKeepsFuel(cfg, s.(inflight := s.inflight - 1, done := s.done[1..]), s.done[0]);
  }

  lemma QuietBurns(cfg: Config, s: RunState, e: Event, free: bool, s': RunState)
    requires Budget(cfg, s) >= 0 && Moves(cfg, s, e, free, s') && !IsLaunch(e) && !IsCompletion(e)
    ensures Burns(cfg, s, e, s')
  {
  }

  /** Every launch, completion and caller-done event takes one from the budget and
      nothing adds to it; and every move at all burns fuel. */
  lemma MovesBurnFuel(cfg: Config, s: RunState, e: Event, free: bool, s': RunState)
    requires Budget(cfg, s) >= 0 && Moves(cfg, s, e, free, s')
    ensures Burns(cfg, s, e, s')
  {
    if IsLaunch(e) {
      LaunchBurns(cfg, s, e, free, s');
    } else if IsCompletion(e) {
      CompletionBurns(cfg, s, e, free, s');
    } else {
      QuietBurns(cfg, s, e, free, s');
    }
  }

  lemma MoveBurnsFuel(cfg: Config, trace: seq<RunState>, k: nat)
    requires 0 < k < |trace| && Budget(cfg, trace[k - 1]) >= 0 && PlanShape(cfg.plan) && Follows(cfg, trace, k)
    ensures Fuel(cfg, trace[k]) < Fuel(cfg, trace[k - 1])
  {
    var e: Event, free: bool :| Moves(cfg, trace[k - 1], e, free, trace[k]);
    MovesBurnFuel(cfg, trace[k - 1], e, free, trace[k]);
  }

  lemma FuelSoundAt(cfg: Config, trace: seq<RunState>, k: nat)
    requires cfg.plan.WellFormed() && IsRun(cfg, trace) && k < |trace|
    ensures Budget(cfg, trace[k]) >= 0 && Fuel(cfg, trace[k]) >= 0
  {
    RunInvariantHolds(cfg, trace, k);
    FuelSound(cfg, trace[k]);
  }

  lemma FuelDrops(cfg: Config, trace: seq<RunState>, k: nat)
    requires cfg.plan.WellFormed() && IsRun(cfg, trace) && 0 < k < |trace|
    ensures Fuel(cfg, trace[k]) < Fuel(cfg, trace[k - 1])
  {
    FuelSoundAt(cfg, trace, k - 1);
    MoveBurnsFuel(cfg, trace, k);
  }

  lemma {:induction false} FuelLeft(cfg: Config, trace: seq<RunState>, k: nat)
    requires cfg.plan.WellFormed() && IsRun(cfg, trace) && k < |trace|
    ensures 0 <= Fuel(cfg, trace[k]) <= Fuel(cfg, trace[0]) - k
  {
    FuelSoundAt(cfg, trace, k);
    if k > 0 {
      FuelLeft(cfg, trace, k - 1);
      FuelDrops(cfg, trace, k);
    }
  }

  /** No run goes on for ever: its length, counting the moves of every goroutine,
      is bounded by the size of the plan, and the coordinator handles at most two
      events for each step that computes something, and one more. */
  lemma RunsAreFinite(cfg: Config, trace: seq<RunState>)
    requires cfg.plan.WellFormed() && IsRun(cfg, trace)
    ensures |trace| <= 16 * |cfg.plan.steps| + 15
    ensures forall k :: 0 <= k < |trace| ==>
      trace[k].clock <= 2 * (|cfg.plan.steps| - |cfg.plan.inputs|) + 1
  {
    FuelLeft(cfg, trace, |trace| - 1);
    assert Follows(cfg, trace, 0);
    BeginFuel(cfg);
    forall k | 0 <= k < |trace|
      ensures trace[k].clock <= 2 * (|cfg.plan.steps| - |cfg.plan.inputs|) + 1
    {
      ReadinessThroughout(cfg, trace, k);
      ClockWithin(cfg, trace, k);
    }
  }

  lemma ClockWithin(cfg: Config, trace: seq<RunState>, k: nat)
    requires cfg.plan.WellFormed() && IsRun(cfg, trace) && k < |trace|
    ensures trace[k].clock <= 2 * trace[k].launched + 1
  {
    RunInvariantHolds(cfg, trace, k);
  }

  lemma BeginFuel(cfg: Config)
    requires cfg.plan.WellFormed() && PlanShape(cfg.plan)
    ensures Fuel(cfg, Begin(cfg)) == 16 * |cfg.plan.steps| + 14
  {
    InitialSupplying(cfg);
    var last := SupplyAll(cfg, Initial(cfg), 0);
  }

  // ------------------------------------------------------------------ completeness

  /** With nothing out, nothing queued and no failure, a step has succeeded: by
      the ranking, so has everything it consumes. */
  lemma {:induction false} StepSucceeded(cfg: Config, s: RunState, rank: seq<nat>, i: nat)
    requires Inv(cfg, Anything(), s) && s.pc == Returned(false) && !s.stopped
    requires cfg.plan.RankedBy(rank) && i < |cfg.plan.steps|
    ensures s.steps[i].state.Succeeded?
    decreases rank[i]
  {
    assert StepPhase(cfg.plan, s, i);
    if !cfg.plan.IsInput(i) {
      forall p | 0 <= p < |cfg.plan.steps[i].deps|
        ensures s.steps[cfg.plan.steps[i].deps[p]].state.Succeeded?
      {
        StepSucceeded(cfg, s, rank, cfg.plan.steps[i].deps[p]);
      }
      assert AllDone(cfg.plan.steps[i].deps, s.steps);
      assert s.Started() == s.ready;
    }
  }

  lemma EveryStepSucceeded(cfg: Config, s: RunState)
    requires cfg.plan.Acyclic() && Inv(cfg, Anything(), s) && s.pc == Returned(false) && !s.stopped
    ensures forall i :: 0 <= i < |s.steps| ==> s.steps[i].state.Succeeded?
  {
    var rank :| cfg.plan.RankedBy(rank);
    forall i | 0 <= i < |s.steps|
      ensures s.steps[i].state.Succeeded?
    {
      StepSucceeded(cfg, s, rank, i);
    }
  }

  /** Not failing means that nothing stopped the run. */
  lemma UnfailedEnd(cfg: Config, s: RunState)
    requires Stops(s) && s.pc.Returned? && |s.steps| == |cfg.plan.steps| && !Finalize(cfg.plan, s).Failed()
    ensures s.pc == Returned(false) && !s.stopped
  {
  }

  lemma SuccessesAreFinal(cfg: Config, s: RunState)
    requires s.pc.Returned? && |s.steps| == |cfg.plan.steps|
    requires forall i :: 0 <= i < |s.steps| ==> s.steps[i].state.Succeeded?
    ensures Finalize(cfg.plan, s).steps == s.steps
  {
  }

  /** A run that ends without failing ran every step to success. */
  lemma Completeness(cfg: Config, trace: seq<RunState>, k: nat)
    requires cfg.plan.WellFormed() && IsRun(cfg, trace) && k < |trace|
    requires trace[k].pc.Returned? && |trace[k].steps| == |cfg.plan.steps|
    requires !Finalize(cfg.plan, trace[k]).Failed()
    ensures forall i :: 0 <= i < |trace[k].steps| ==> trace[k].steps[i].state.Succeeded?
    ensures Finalize(cfg.plan, trace[k]).steps == trace[k].steps
  {
    RunInvariantHolds(cfg, trace, k);
    UnfailedEnd(cfg, trace[k]);
    EveryStepSucceeded(cfg, trace[k]);
    SuccessesAreFinal(cfg, trace[k]);
  }

  // --------------------------------------------------------------- final partition

  ghost function RunningSet(steps: seq<StepResult>): set<nat> {
    set i: nat | i < |steps| && steps[i].state.Running?
  }

  lemma {:induction false} CountIsSize(steps: seq<StepResult>)
    ensures CountRunning(steps) == |RunningSet(steps)|
  {
    if steps != [] {
      var n := |steps| - 1;
      CountIsSize(steps[..n]);
      assert RunningSet(steps) ==
        RunningSet(steps[..n]) + if steps[n].state.Running? then {n} else {};
    }
  }

  /** The records that say Running are the steps out. */
  lemma RunningIsInflight(cfg: Config, s: RunState)
    requires Inv(cfg, Anything(), s) && !s.pc.Inlining?
    ensures CountRunning(s.steps) == s.inflight
  {
    CountIsSize(s.steps);
    OutNow(cfg, s);
    var out := s.going + Elements(DoneIndices(s.done));
    forall i: nat
      ensures i in RunningSet(s.steps) <==> i in out
    {
      if i < |s.steps| {
        assert StepPhase(cfg.plan, s, i);
      } else {
        assert !InDone(s.done, i);
      }
    }
    assert RunningSet(s.steps) == out;
  }

  /** The error that ended a run: the failed step's own, or that the caller ended. */
  ghost function WhyStopped(s: RunState): Option<Error> {
    if 0 <= s.failedStep < |s.steps| then s.steps[s.failedStep].err
    else if s.cancelled then Some(Error(KindCancelled, "cancelled", false))
    else None
  }

  /** What the final record of step i may say. */
  ghost predicate FinalPhase(plan: ExecutionPlan, s: RunState, ex: Execution, i: nat)
    requires i < |ex.steps| == |plan.steps| && s.launched <= |s.ready|
  {
    var r := ex.steps[i];
    && !r.state.Pending? && !r.state.Running?
    && (r.state.Skipped? <==> !plan.IsInput(i) && i !in s.Started())
    && (!plan.IsInput(i) && !AllDone(plan.steps[i].deps, ex.steps) ==> r.state.Skipped?)
    && (!r.state.Succeeded? ==> r.value == ZERO_VALUE)
    && (r.err.Some? <==> r.state.Failed? || r.state.Cancelled?)
    && (Active(s, i) ==> r == GivenUp(plan.steps[i]))
    && (!Active(s, i) && !r.state.Skipped? ==> i < |s.steps| && r == s.steps[i])
    && (!Active(s, i) && r.err.Some? ==> (r.state.Cancelled? <==> r.err.value.kind.KindCancelled?))
  }

  /** The record of a step that was still going when the run gave up: a broken promise if
      its node claimed to honour cancellation, and otherwise just abandoned. */
  ghost function GivenUp(step: CompiledStep): StepResult {
    StepResult(Cancelled, ZERO_VALUE,
      Some(if step.node.Some? && step.node.value.stoppable then Error(Internal, "broken_cancellation", false)
           else Error(KindCancelled, "abandoned", false)))
  }

  lemma NobodyRunningAtEnd(cfg: Config, s: RunState, i: nat)
    requires Inv(cfg, Anything(), s) && s.pc == Returned(false) && i < |s.steps|
    ensures !s.steps[i].state.Running?
  {
    assert StepPhase(cfg.plan, s, i);
  }

  lemma FinalPhases(cfg: Config, s: RunState, i: nat)
    requires Inv(cfg, Anything(), s) && s.pc.Returned? && i < |s.steps|
    ensures FinalPhase(cfg.plan, s, Finalize(cfg.plan, s), i)
  {
    var ex := Finalize(cfg.plan, s);
    assert StepPhase(cfg.plan, s, i);
    if !s.pc.abandoned {
      NobodyRunningAtEnd(cfg, s, i);
    }
    if i in s.Started() {
      assert i in s.ready;
      assert AllDone(cfg.plan.steps[i].deps, s.steps);
      assert AllDone(cfg.plan.steps[i].deps, ex.steps);
    }
  }

  /** When a run has returned and its records are settled: every step is in a
      final state; a step that computes is skipped exactly when it was never
      started, and always when something it consumes did not succeed; values exist
      only on successes; the steps given up on are those that were out, at most
      the concurrency limit; the run counts as failed exactly when it reports an
      error, and giving up changes neither that nor the reason. */
  lemma FinalPartition(cfg: Config, trace: seq<RunState>, k: nat)
    requires cfg.plan.WellFormed() && IsRun(cfg, trace) && k < |trace| && trace[k].pc.Returned?
    ensures var s := trace[k];
      && s.launched <= |s.ready| && |s.steps| == |cfg.plan.steps|
      && var ex := Finalize(cfg.plan, s);
      && |ex.steps| == |cfg.plan.steps| && ex.failedStep < |ex.steps|
      && (forall i :: 0 <= i < |ex.steps| ==> FinalPhase(cfg.plan, s, ex, i))
      && ex.abandoned == (if s.pc.abandoned then s.inflight else 0)
      && ex.abandoned <= (if cfg.maxConcurrency > 0 then cfg.maxConcurrency else 256)
      && (ex.Failed() <==> ex.Err().Some?) && ex.Err() == WhyStopped(s)
      && (ex.Failed() <==> s.stopped) && ex.cancelled == s.cancelled && ex.failedStep == s.failedStep
      && (s.pc.abandoned ==> ex.Failed())
  {
    var s := trace[k];
    RunInvariantHolds(cfg, trace, k);
    SettledOutcome(cfg, s);
  }

  lemma SettledOutcome(cfg: Config, s: RunState)
    requires Inv(cfg, Anything(), s) && s.pc.Returned?
    ensures var ex := Finalize(cfg.plan, s);
      && |ex.steps| == |cfg.plan.steps| && ex.failedStep < |ex.steps|
      && (forall i :: 0 <= i < |ex.steps| ==> FinalPhase(cfg.plan, s, ex, i))
      && ex.abandoned == (if s.pc.abandoned then s.inflight else 0)
      && ex.abandoned <= (if cfg.maxConcurrency > 0 then cfg.maxConcurrency else 256)
      && (ex.Failed() <==> ex.Err().Some?) && ex.Err() == WhyStopped(s)
      && (ex.Failed() <==> s.stopped) && ex.cancelled == s.cancelled && ex.failedStep == s.failedStep
  {
    forall i | 0 <= i < |s.steps|
      ensures FinalPhase(cfg.plan, s, Finalize(cfg.plan, s), i)
    {
      FinalPhases(cfg, s, i);
    }
    RunningIsInflight(cfg, s);
    ReasonIsFinal(cfg, s);
  }

  /** Settling the records leaves the failed step's error as it was. */
  lemma ReasonIsFinal(cfg: Config, s: RunState)
    requires Phases(cfg.plan, s) && Stops(s) && s.pc.Returned? && |s.steps| == |cfg.plan.steps|
    ensures Finalize(cfg.plan, s).Err() == WhyStopped(s)
    ensures Finalize(cfg.plan, s).Failed() <==> s.stopped
  {
    assert s.failedStep >= 0 ==> StepPhase(cfg.plan, s, s.failedStep);
  }

  /** If any declared input is missing or of another type, the run has stopped
      before anything started, and no node ever runs. */
  lemma BadInputRunsNothing(cfg: Config, trace: seq<RunState>, j: nat)
    requires cfg.plan.WellFormed() && IsRun(cfg, trace)
    requires j < |cfg.plan.inputs| && BadInput(cfg, j)
    ensures forall k :: 0 <= k < |trace| ==> trace[k].launched == 0 && trace[k].stopped && trace[k].going == {}
  {
    assert Follows(cfg, trace, 0);
    BadInputStopsAtOnce(cfg, j);
    forall k | 0 <= k < |trace|
      ensures trace[k].launched == 0 && trace[k].stopped && trace[k].going == {}
    {
      RunOnward(cfg, trace, 0, k);
      NothingOut(cfg, trace, k);
    }
  }

  lemma BadInputStopsAtOnce(cfg: Config, j: nat)
    requires cfg.plan.WellFormed() && PlanShape(cfg.plan)
    requires j < |cfg.plan.inputs| && BadInput(cfg, j)
    ensures Begin(cfg).launched == 0 && Begin(cfg).stopped
  {
    BeginHasInv(cfg, Anything());
  }

  lemma NothingOut(cfg: Config, trace: seq<RunState>, k: nat)
    requires cfg.plan.WellFormed() && IsRun(cfg, trace) && k < |trace| && trace[k].launched == 0
    ensures trace[k].going == {}
  {
    RunInvariantHolds(cfg, trace, k);
    InflightWithinLaunched(cfg, trace[k]);
  }
}
