/** What holds of every run of a well-formed plan, whatever the completion order,
    the caps, the pool, the caller and the nodes do. */
module RunTheorems {
  import opened Collections
  import opened Nodes
  import opened Pipeline
  import opened RunModel
  import opened RunReadiness
  import opened RunInvariant
  import opened RunStart

  // ------------------------------------------------------------- whole-run induction

  lemma MoveKeepsInv(cfg: Config, good: ValueProperty, trace: seq<RunState>, k: nat)
    requires cfg.plan.WindowsTile() && cfg.plan.Transposed() && Hereditary(cfg, good)
    requires 0 < k < |trace| && Inv(cfg, good, trace[k - 1])
    requires PlanShape(cfg.plan) && Follows(cfg, trace, k)
    ensures Inv(cfg, good, trace[k])
  {
    var e: Event, free: bool :| Moves(cfg, trace[k - 1], e, free, trace[k]);
    EventKeepsInv(cfg, good, trace[k - 1], e, free, trace[k]);
  }

  lemma FirstHasInv(cfg: Config, good: ValueProperty, trace: seq<RunState>)
    requires cfg.plan.WellFormed() && Hereditary(cfg, good) && PlanShape(cfg.plan)
    requires Follows(cfg, trace, 0)
    ensures Inv(cfg, good, trace[0])
  {
    BeginHasInv(cfg, good);
  }

  lemma {:induction false} RunKeepsInv(cfg: Config, good: ValueProperty, trace: seq<RunState>, k: nat)
    requires cfg.plan.WellFormed() && Hereditary(cfg, good)
    requires IsRun(cfg, trace) && k < |trace|
    ensures Inv(cfg, good, trace[k])
  {
    if k == 0 {
      FirstHasInv(cfg, good, trace);
    } else {
      RunKeepsInv(cfg, good, trace, k - 1);
      MoveKeepsInv(cfg, good, trace, k);
    }
  }

  ghost function Anything(): ValueProperty {
    (i, v) => true
  }

  lemma RunInvariantHolds(cfg: Config, trace: seq<RunState>, k: nat)
    requires cfg.plan.WellFormed() && IsRun(cfg, trace) && k < |trace|
    ensures Inv(cfg, Anything(), trace[k])
  {
    RunKeepsInv(cfg, Anything(), trace, k);
  }

  // -------------------------------------------------------------------- readiness

  /** At every moment: until the run stops, `unmet` counts the unsatisfied
      positions and the queue is exactly the steps that may run; the queue is
      duplicate-free and no longer than the plan; whatever was started had all its
      dependencies succeeded; and a goroutine about to send finds room in the
      channel, whose capacity is the number of steps. */
  lemma ReadinessThroughout(cfg: Config, trace: seq<RunState>, k: nat)
    requires cfg.plan.WellFormed() && IsRun(cfg, trace) && k < |trace|
    ensures var s := trace[k]; var n := |cfg.plan.steps|;
      && |s.steps| == |s.unmet| == n && s.launched <= |s.ready| <= n - |cfg.plan.inputs|
      && (!s.stopped ==> forall i :: 0 <= i < n ==> s.unmet[i] == Outstanding(cfg.plan.steps[i].deps, s.steps))
      && (!s.stopped ==> forall i :: |cfg.plan.inputs| <= i < n ==>
            (i in s.ready <==> AllDone(cfg.plan.steps[i].deps, s.steps)))
      && Distinct(s.ready)
      && (forall i :: i in s.Started() ==> i < n && AllDone(cfg.plan.steps[i].deps, s.steps))
      && (s.going != {} ==> |s.done| < n)
  {
    RunInvariantHolds(cfg, trace, k);
    var s := trace[k];
    var n := |cfg.plan.steps|;
    assert forall x :: x in s.ready ==> |cfg.plan.inputs| <= x < n;
    DistinctIndices(s.ready, |cfg.plan.inputs|, n);
    InflightWithinLaunched(cfg, s);
  }

  /** Handed-out steps are among those started. */
  lemma InflightWithinLaunched(cfg: Config, s: RunState)
    requires Inv(cfg, Anything(), s)
    ensures |s.going| + |s.done| <= s.launched
  {
    var all := s.going + Elements(DoneIndices(s.done));
    OutNow(cfg, s);
    DistinctSize(s.Started());
    forall i | i in all
      ensures i in Elements(s.Started())
    {
      assert StepPhase(cfg.plan, s, i);
    }
    Subset(all, Elements(s.Started()));
  }

  lemma {:induction false} Subset<T>(a: set<T>, b: set<T>)
    requires a <= b
    ensures |a| <= |b|
  {
    assert b == a + (b - a);
  }

  ghost function DoneIndices(done: seq<Completion>): seq<nat> {
    seq(|done|, k requires 0 <= k < |done| => done[k].index)
  }

  /** The steps out at this moment: those going and those in the channel. */
  lemma OutNow(cfg: Config, s: RunState)
    requires Goroutines(cfg, s)
    ensures |s.going + Elements(DoneIndices(s.done))| == |s.going| + |s.done|
    ensures forall i :: i in Elements(DoneIndices(s.done)) <==> InDone(s.done, i)
  {
    var d := DoneIndices(s.done);
    DistinctSize(d);
    forall i
      ensures i in Elements(d) <==> InDone(s.done, i)
    {
      if i in d {
        var k :| 0 <= k < |d| && d[k] == i;
        assert s.done[k].index == i;
      }
      if InDone(s.done, i) {
        var k :| 0 <= k < |s.done| && s.done[k].index == i;
        assert d[k] == i;
      }
    }
    assert s.going !! Elements(d);
  }

  // ------------------------------------------------------------------ stop safety

  /** What never changes back: what was started stays started, and once stopped,
      nothing starts and neither the reason nor the deadline moves. */
  ghost predicate Onward(s: RunState, s': RunState) {
    && s.launched <= |s.ready| && s'.launched <= |s'.ready|
    && s.Started() <= s'.Started()
    && (s.stopped ==> s'.stopped && s'.launched == s.launched && SameVerdict(s, s'))
    && s.clock <= s'.clock
  }

  lemma HandleOnward(plan: ExecutionPlan, s: RunState, c: Completion)
    requires c.index < |s.steps| == |plan.steps| == |s.unmet| && plan.IndicesInRange()
    requires s.launched <= |s.ready|
    ensures Onward(s, Handle(plan, s, c))
  {
    ReleaseExtends(s.unmet, s.ready, plan.steps[c.index].dependents);
  }

  lemma LaunchOnward(plan: ExecutionPlan, s: RunState)
    requires s.launched < |s.ready| && s.ready[s.launched] < |plan.steps| && !s.stopped
    requires |s.steps| == |plan.steps| && |s.inputs| == plan.totalInputs && PlanShape(plan)
    ensures Onward(s, Launch(plan, s))
  {
    assert Launch(plan, s).Started() == s.Started() + [s.ready[s.launched]];
  }

  lemma LaunchMovesOnward(cfg: Config, s: RunState, e: Event, free: bool, s': RunState)
    requires Stops(s) && Moves(cfg, s, e, free, s') && IsLaunch(e)
    ensures Onward(s, s')
  {
    LaunchOnward(cfg.plan, s);
  }

  lemma CompletionMovesOnward(cfg: Config, s: RunState, e: Event, free: bool, s': RunState)
    requires Stops(s) && Moves(cfg, s, e, free, s') && IsCompletion(e)
    ensures Onward(s, s')
  {
    match e
    case InlineEnd(r) => HandleOnward(cfg.plan, s.(holding := s.holding - {s.pc.step}), Completion(s.pc.step, r));
    case SelectDone => HandleOnward(cfg.plan, s.(inflight := s.inflight - 1, done := s.done[1..]), s.done[0]);
  }

  lemma MovesOnward(cfg: Config, s: RunState, e: Event, free: bool, s': RunState)
    requires Stops(s) && Moves(cfg, s, e, free, s')
    ensures Onward(s, s')
  {
    if IsLaunch(e) {
      LaunchMovesOnward(cfg, s, e, free, s');
    } else if IsCompletion(e) {
      CompletionMovesOnward(cfg, s, e, free, s');
    }
  }

  lemma MoveOnward(cfg: Config, trace: seq<RunState>, k: nat)
    requires 0 < k < |trace| && Stops(trace[k - 1]) && PlanShape(cfg.plan) && Follows(cfg, trace, k)
    ensures Onward(trace[k - 1], trace[k])
  {
    var e: Event, free: bool :| Moves(cfg, trace[k - 1], e, free, trace[k]);
    MovesOnward(cfg, trace[k - 1], e, free, trace[k]);
  }

  lemma StopsAt(cfg: Config, trace: seq<RunState>, k: nat)
    requires cfg.plan.WellFormed() && IsRun(cfg, trace) && k < |trace|
    ensures Stops(trace[k]) && trace[k].launched <= |trace[k].ready|
  {
    RunInvariantHolds(cfg, trace, k);
  }

  lemma OnwardTransitive(a: RunState, b: RunState, c: RunState)
    requires Onward(a, b) && Onward(b, c)
    ensures Onward(a, c)
  {
  }

  lemma {:induction false} RunOnward(cfg: Config, trace: seq<RunState>, a: nat, b: nat)
    requires cfg.plan.WellFormed() && IsRun(cfg, trace) && a <= b < |trace|
    ensures Onward(trace[a], trace[b])
    decreases b - a
  {
    if a == b {
      StopsAt(cfg, trace, a);
    } else {
      RunOnward(cfg, trace, a, b - 1);
      StopsAt(cfg, trace, b - 1);
      MoveOnward(cfg, trace, b);
      OnwardTransitive(trace[a], trace[b - 1], trace[b]);
    }
  }

  /** Over any run: a step starts at most once and stays started; stopping has
      exactly one reason, arms the deadline at that moment, and from then on no
      step starts and reason and deadline are fixed. Giving up happens only after
      stopping. */
  lemma StopSafety(cfg: Config, trace: seq<RunState>, a: nat, b: nat)
    requires cfg.plan.WellFormed() && IsRun(cfg, trace) && a <= b < |trace|
    ensures var s, s' := trace[a], trace[b];
      && s.launched <= |s.ready| && s'.launched <= |s'.ready|
      && Distinct(s'.Started()) && s.Started() <= s'.Started()
      && (s.stopped <==> s.deadline.Some?)
      && (s.stopped <==> s.failedStep >= 0 || s.cancelled)
      && !(s.failedStep >= 0 && s.cancelled)
      && (s.stopped ==> s'.Started() == s.Started() && s'.failedStep == s.failedStep &&
                        s'.cancelled == s.cancelled && s'.deadline == s.deadline)
      && (s.pc == Returned(true) ==> s.stopped)
  {
    RunInvariantHolds(cfg, trace, a);
    RunInvariantHolds(cfg, trace, b);
    RunOnward(cfg, trace, a, b);
  }

  /** The run's own cap is kept at every moment, whatever the pool allows; and a run that
      did not ask for it never runs a node on the coordinator's goroutine, while one that
      did does so with nothing else out. */
  lemma LimitsHold(cfg: Config, trace: seq<RunState>, k: nat)
    requires cfg.plan.WellFormed() && IsRun(cfg, trace) && k < |trace|
    ensures trace[k].inflight <= if cfg.maxConcurrency > 0 then cfg.maxConcurrency else 256
    ensures trace[k].pc.Inlining? ==> cfg.inline && trace[k].going == {} && trace[k].done == []
  {
    RunInvariantHolds(cfg, trace, k);
  }

  /** At the top of the loop, a step is inlined exactly when that was asked for, the run
      has not stopped, nothing is out, one step is ready and a slot is free. */
  lemma InlinesExactly(cfg: Config, s: RunState, free: bool)
    requires Shape(cfg, s) && s.pc.Top?
    ensures Enabled(cfg, s, InlineStart, free) <==>
      cfg.inline && !s.stopped && s.inflight == 0 && |s.ready| == s.launched + 1 && free
    ensures Enabled(cfg, s, InlineSkip, free) <==> !Enabled(cfg, s, InlineStart, free)
  {
  }

  /** While pumping, the next step is launched exactly when there is one, the run has not
      stopped, its own cap leaves room and a slot is free. */
  lemma LaunchesExactly(cfg: Config, s: RunState, free: bool)
    requires Shape(cfg, s) && s.pc.Pumping?
    ensures Enabled(cfg, s, PumpLaunch, free) <==>
      !s.stopped && s.launched < |s.ready| && free &&
      s.inflight < (if cfg.maxConcurrency > 0 then cfg.maxConcurrency else 256)
    ensures Enabled(cfg, s, PumpStop, free) <==> !Enabled(cfg, s, PumpLaunch, free)
  {
  }

  /** The deadline is armed by the event that stops the run, at that moment. */
  lemma StoppingArms(cfg: Config, s: RunState, e: Event, free: bool, s': RunState)
    requires Stops(s) && Moves(cfg, s, e, free, s') && !s.stopped && s'.stopped
    ensures s'.deadline == Some(s.clock) && (IsCompletion(e) || e.SelectCaller?)
  {
  }

  /** In the select, each arm is enabled exactly when it should be. */
  lemma ArmsAre(cfg: Config, s: RunState, free: bool)
    requires Shape(cfg, s) && s.pc.Selecting?
    ensures Enabled(cfg, s, SelectDone, free) <==> s.done != []
    ensures Enabled(cfg, s, SelectCaller, free) <==> s.callerPending
    ensures Enabled(cfg, s, SelectAbandon, free) <==> s.deadline.Some?
    ensures Enabled(cfg, s, SelectSlot, free) <==>
      cfg.shared && !s.stopped && s.launched < |s.ready| && free &&
      s.inflight < (if cfg.maxConcurrency > 0 then cfg.maxConcurrency else 256)
  {
  }

  /** A step goroutine sends exactly when its node may return, and gives its slot back
      exactly when it has sent; an inlined node ends exactly as it may return. */
  lemma GoroutinesMove(cfg: Config, s: RunState, i: nat, r: ResultValue, free: bool)
    requires Shape(cfg, s) && i < |cfg.plan.steps|
    ensures Enabled(cfg, s, Send(i, r), free) <==> i in s.going && StepReturns(cfg, s, i, r)
    ensures Enabled(cfg, s, ReleaseSlot(i), free) <==> i in s.holding && i !in s.going && s.pc != Inlining(i)
    ensures s.pc == Inlining(i) ==> (Enabled(cfg, s, InlineEnd(r), free) <==> StepReturns(cfg, s, i, r))
  {
  }

  /** The caller's end stops a run that has not stopped, as cancelled and not as failed; the
      first failure recorded stops it as failed at that step; and neither changes what an
      earlier stop said. */
  lemma StopsFor(cfg: Config, s: RunState, e: Event, free: bool, s': RunState)
    requires Stops(s) && Moves(cfg, s, e, free, s')
    ensures e.SelectCaller? ==> s'.stopped && !s'.callerPending && (!s.stopped ==> s'.cancelled && s'.failedStep < 0)
    ensures IsCompletion(e) ==>
      var c := if e.InlineEnd? then Completion(s.pc.step, e.result) else s.done[0];
      c.result.Err? ==> s'.stopped && (!s.stopped ==> s'.failedStep == c.index && !s'.cancelled)
    ensures s.stopped ==> SameVerdict(s, s')
  {
    StoppedStays(cfg, s, e, free, s');
  }

  lemma StoppedStays(cfg: Config, s: RunState, e: Event, free: bool, s': RunState)
    requires Stops(s) && Moves(cfg, s, e, free, s')
    ensures s.stopped ==> SameVerdict(s, s')
  {
    MovesOnward(cfg, s, e, free, s');
  }
}
