/** The coordinator's invariant and its preservation by every event. */
module RunInvariant {
  import opened Nodes
  import opened Pipeline
  import opened RunModel
  import opened RunReadiness

  ghost predicate InDone(done: seq<Completion>, i: nat) {
    exists k :: 0 <= k < |done| && done[k].index == i
  }

  /** Handed out and not yet recorded. */
  ghost predicate Active(s: RunState, i: nat) {
    i in s.going || InDone(s.done, i) || s.pc == Inlining(i)
  }

  /** What the record of step i says about where it is. */
  ghost predicate StepPhase(plan: ExecutionPlan, s: RunState, i: nat)
    requires i < |s.steps| && s.launched <= |s.ready|
  {
    var r := s.steps[i];
    && !r.state.Skipped?
    && (r.state.Running? <==> Active(s, i))
    && (plan.IsInput(i) ==> !r.state.Pending? && !r.state.Running?)
    && (!plan.IsInput(i) ==> (r.state.Pending? <==> i !in s.Started()))
    && (r.state.Succeeded? || r.value == ZERO_VALUE)
    && (r.err.Some? <==> r.state.Failed? || r.state.Cancelled?)
    && (r.err.Some? ==> s.stopped && (r.state.Cancelled? <==> r.err.value.kind.KindCancelled?))
  }

  ghost predicate Phases(plan: ExecutionPlan, s: RunState) {
    s.launched <= |s.ready| &&
    forall i :: 0 <= i < |s.steps| ==> StepPhase(plan, s, i)
  }

  /** The goroutines, the channel and the counter agree. */
  ghost predicate Goroutines(cfg: Config, s: RunState) {
    && s.inflight == |s.going| + |s.done|
    && s.inflight <= cfg.Limit()
    && (forall a, b :: 0 <= a < b < |s.done| ==> s.done[a].index != s.done[b].index)
    && (forall k :: 0 <= k < |s.done| ==> s.done[k].index !in s.going)
    && (s.pc.Inlining? ==> cfg.inline && s.going == {} && s.done == [])
    && (s.going <= s.holding)
    && (s.pc.Inlining? ==> s.pc.step in s.holding)
    && s.launched <= |s.ready|
    && (forall i :: i in s.holding ==> i in s.Started())
    && (s.pc.Selecting? ==> s.inflight > 0 || WaitingOn(cfg, s))
  }

  /** Stopping happens for exactly one reason, which arms the deadline. */
  ghost predicate Stops(s: RunState) {
    && (s.stopped <==> s.failedStep >= 0 || s.cancelled)
    && !(s.failedStep >= 0 && s.cancelled)
    && (s.deadline.Some? <==> s.stopped)
    && s.failedStep < |s.steps|
    && (s.failedStep >= 0 ==> s.steps[s.failedStep].err.Some?)
    && (s.pc == Returned(true) ==> s.stopped)
    && (s.pc == Returned(false) ==> s.inflight == 0 && (s.stopped || s.launched == |s.ready|))
    && (s.pc.Inlining? ==> !s.stopped)
    && (s.cancelled ==> !s.callerPending)
  }

  /** Every event is paid for: a launch by the step it starts, a completion by the
      launch it ends, and the caller's end once. */
  ghost predicate Clocked(s: RunState) {
    s.clock == 2 * s.launched - s.inflight
             - (if s.pc.Inlining? then 1 else 0) + (if s.callerPending then 0 else 1)
  }

  /** The window of every step handed out holds its dependencies' values. */
  ghost predicate Windows(plan: ExecutionPlan, s: RunState) {
    forall i :: 0 <= i < |plan.steps| && Active(s, i) ==> Filled(plan.steps[i], s.inputs, s.steps)
  }

  ghost predicate Filled(step: CompiledStep, inputs: seq<Value>, steps: seq<StepResult>) {
    && step.inputOffset + |step.deps| <= |inputs|
    && forall p :: 0 <= p < |step.deps| ==> FilledAt(step, inputs, steps, p)
  }

  ghost predicate FilledAt(step: CompiledStep, inputs: seq<Value>, steps: seq<StepResult>, p: nat) {
    && p < |step.deps| && step.inputOffset + p < |inputs| && step.deps[p] < |steps|
    && inputs[step.inputOffset + p] == steps[step.deps[p]].value
  }

  /** A property of produced values, carried by what is recorded and by what is
      in the channel. */
  type ValueProperty = (nat, Value) -> bool

  ghost predicate Values(s: RunState, good: ValueProperty) {
    && (forall i :: 0 <= i < |s.steps| && s.steps[i].state.Succeeded? ==> good(i, s.steps[i].value))
    && (forall k :: 0 <= k < |s.done| && s.done[k].result.Ok? ==> good(s.done[k].index, s.done[k].result.value))
  }

  /** It holds of accepted inputs, and passes from a step's inputs to whatever
      the step may return. */
  ghost predicate Hereditary(cfg: Config, good: ValueProperty) {
    && (forall k :: 0 <= k < |cfg.plan.inputs| ==>
          var r := Supply(cfg.supplied, cfg.plan.inputs[k]); r.Ok? ==> good(k, r.value))
    && (forall i, w, v ::
          (|cfg.plan.inputs| <= i < |cfg.plan.steps| && GoodWindow(cfg.plan, i, w, good) &&
           cfg.plan.steps[i].node.Some? && MayReturn(cfg.plan.steps[i].node.value, w, Ok(v))) ==> good(i, v))
  }

  ghost predicate GoodWindow(plan: ExecutionPlan, i: nat, w: seq<Value>, good: ValueProperty)
    requires i < |plan.steps|
  {
    |w| == |plan.steps[i].deps| && forall p :: 0 <= p < |w| ==> good(plan.steps[i].deps[p], w[p])
  }

  ghost predicate Inv(cfg: Config, good: ValueProperty, s: RunState) {
    && Shape(cfg, s)
    && Readiness(cfg.plan, s.steps, s.unmet, s.ready, s.stopped, true)
    && Phases(cfg.plan, s)
    && Goroutines(cfg, s)
    && Stops(s)
    && Clocked(s)
    && Windows(cfg.plan, s)
    && Values(s, good)
  }

  // ------------------------------------------------------------ starting a step

  lemma ReadinessSame(plan: ExecutionPlan, before: seq<StepResult>, after: seq<StepResult>,
                      unmet: seq<int>, ready: seq<nat>, stopped: bool, roots: bool)
    requires |before| == |plan.steps| == |unmet|
    requires SameSuccesses(before, after)
    requires Readiness(plan, before, unmet, ready, stopped, roots)
    ensures Readiness(plan, after, unmet, ready, stopped, roots)
  {
    forall i: nat | i < |plan.steps|
      ensures Outstanding(plan.steps[i].deps, before) == Outstanding(plan.steps[i].deps, after)
      ensures AllDone(plan.steps[i].deps, before) <==> AllDone(plan.steps[i].deps, after)
    {
      OutstandingSame(plan.steps[i].deps, before, after);
    }
  }

  /** Gathering writes the step's own window and no other. */
  lemma GatheringIsLocal(plan: ExecutionPlan, s: RunState, i: nat, j: nat)
    requires PlanShape(plan) && plan.WindowsTile()
    requires i < |plan.steps| == |s.steps| && j < |plan.steps| && |s.inputs| == plan.totalInputs
    ensures var s' := Prepare(plan, s, i);
      && |s'.inputs| == plan.totalInputs
      && (i == j || Filled(plan.steps[j], s.inputs, s.steps) ==> Filled(plan.steps[j], s'.inputs, s'.steps))
  {
    if i < j {
      WindowsOrdered(plan, i, j);
    } else if j < i {
      WindowsOrdered(plan, j, i);
    }
    if i == j {
      OwnWindowFilled(plan, s, i);
    } else if Filled(plan.steps[j], s.inputs, s.steps) {
      OtherWindowStays(plan, s, i, plan.steps[j]);
    }
    FilledByValues(plan.steps[j], Gathered(plan, s, i), s.steps, Prepare(plan, s, i).steps);
  }

  lemma FilledByValues(step: CompiledStep, inputs: seq<Value>, before: seq<StepResult>, after: seq<StepResult>)
    requires |before| == |after| && forall k :: 0 <= k < |before| ==> after[k].value == before[k].value
    ensures Filled(step, inputs, before) ==> Filled(step, inputs, after)
  {
    forall p: nat | FilledAt(step, inputs, before, p)
      ensures FilledAt(step, inputs, after, p)
    {
    }
  }

  lemma OwnWindowFilled(plan: ExecutionPlan, s: RunState, i: nat)
    requires PlanShape(plan) && i < |plan.steps| == |s.steps| && |s.inputs| == plan.totalInputs
    ensures Filled(plan.steps[i], Gathered(plan, s, i), s.steps)
  {
    var step := plan.steps[i];
    forall p | 0 <= p < |step.deps|
      ensures FilledAt(step, Gathered(plan, s, i), s.steps, p)
    {
      GatheredAt(plan, s, i, step.inputOffset + p);
    }
  }

  lemma OtherWindowStays(plan: ExecutionPlan, s: RunState, i: nat, other: CompiledStep)
    requires PlanShape(plan) && i < |plan.steps| == |s.steps| && |s.inputs| == plan.totalInputs
    requires Filled(other, s.inputs, s.steps)
    requires other.inputOffset + |other.deps| <= plan.steps[i].inputOffset ||
      plan.steps[i].inputOffset + |plan.steps[i].deps| <= other.inputOffset
    ensures Filled(other, Gathered(plan, s, i), s.steps)
  {
    forall p | 0 <= p < |other.deps|
      ensures FilledAt(other, Gathered(plan, s, i), s.steps, p)
    {
      assert FilledAt(other, s.inputs, s.steps, p);
      GatheredAt(plan, s, i, other.inputOffset + p);
    }
  }

  /** Inside the window, the dependency's value; outside, what was there. */
  lemma GatheredAt(plan: ExecutionPlan, s: RunState, i: nat, c: nat)
    requires PlanShape(plan) && i < |plan.steps| == |s.steps| && |s.inputs| == plan.totalInputs && c < |s.inputs|
    ensures var step := plan.steps[i];
      |Gathered(plan, s, i)| == |s.inputs| &&
      Gathered(plan, s, i)[c] ==
        if step.inputOffset <= c < step.inputOffset + |step.deps|
        then s.steps[step.deps[c - step.inputOffset]].value else s.inputs[c]
  {
  }

  /** The next ready step is untouched so far, and everything it needs is there. */
  lemma NextIsPending(plan: ExecutionPlan, s: RunState)
    requires |s.steps| == |s.unmet| == |plan.steps| && s.launched < |s.ready|
    requires Readiness(plan, s.steps, s.unmet, s.ready, s.stopped, true)
    requires Phases(plan, s)
    ensures var i := s.ready[s.launched];
      && |plan.inputs| <= i < |plan.steps|
      && s.steps[i].state.Pending? && !Active(s, i) && i !in s.Started()
      && AllDone(plan.steps[i].deps, s.steps)
  {
    var i := s.ready[s.launched];
    assert i in s.ready;
    assert StepPhase(plan, s, i);
  }

  /** s' is s with the next ready step handed out: to a goroutine, or to the
      coordinator itself. */
  ghost predicate IsStart(cfg: Config, s: RunState, s': RunState, i: nat)
    requires PlanShape(cfg.plan)
  {
    && s.launched < |s.ready| && i == s.ready[s.launched]
    && s'.ready == s.ready && s'.launched == s.launched + 1 && s'.unmet == s.unmet
    && !s.stopped && SameVerdict(s, s') && s'.callerPending == s.callerPending
    && i < |s.steps| == |cfg.plan.steps| && |s.inputs| == cfg.plan.totalInputs
    && s'.steps == s.steps[i := s.steps[i].(state := Running)]
    && s'.inputs == Gathered(cfg.plan, s, i)
    && s'.done == s.done && s'.holding == s.holding + {i} && s'.clock == s.clock + 1
    && !s.pc.Inlining? && !s.pc.Returned? && !s'.pc.Returned? && !s'.pc.Selecting?
    && (|| (s'.going == s.going + {i} && s'.inflight == s.inflight + 1 <= cfg.Limit() && !s'.pc.Inlining?)
        || (cfg.inline && s'.going == s.going && s'.inflight == s.inflight == 0 && s'.pc == Inlining(i)))
  }

  ghost predicate SameVerdict(s: RunState, s': RunState) {
    s'.stopped == s.stopped && s'.failedStep == s.failedStep && s'.cancelled == s.cancelled && s'.deadline == s.deadline
  }

  lemma StartActive(cfg: Config, s: RunState, s': RunState, i: nat)
    requires PlanShape(cfg.plan) && IsStart(cfg, s, s', i)
    ensures forall j :: Active(s', j) <==> Active(s, j) || j == i
  {
  }

  lemma StartPhases(cfg: Config, s: RunState, s': RunState, i: nat)
    requires PlanShape(cfg.plan) && IsStart(cfg, s, s', i) && Phases(cfg.plan, s)
    requires s.steps[i].state.Pending? && !cfg.plan.IsInput(i)
    ensures Phases(cfg.plan, s')
  {
    StartActive(cfg, s, s', i);
    assert s'.Started() == s.Started() + [i];
    forall j | 0 <= j < |s'.steps|
      ensures StepPhase(cfg.plan, s', j)
    {
      assert StepPhase(cfg.plan, s, j);
    }
  }

  lemma StartWindows(cfg: Config, s: RunState, s': RunState, i: nat)
    requires PlanShape(cfg.plan) && IsStart(cfg, s, s', i) && cfg.plan.WindowsTile() && Windows(cfg.plan, s)
    ensures |s'.inputs| == cfg.plan.totalInputs && Windows(cfg.plan, s')
  {
    StartActive(cfg, s, s', i);
    GatheringIsLocal(cfg.plan, s, i, i);
    forall j | 0 <= j < |cfg.plan.steps| && Active(s', j)
      ensures Filled(cfg.plan.steps[j], s'.inputs, s'.steps)
    {
      GatheringIsLocal(cfg.plan, s, i, j);
    }
  }

  lemma StartGoroutines(cfg: Config, s: RunState, s': RunState, i: nat)
    requires PlanShape(cfg.plan) && IsStart(cfg, s, s', i) && Goroutines(cfg, s) && !Active(s, i)
    ensures Goroutines(cfg, s')
  {
    assert s'.Started() == s.Started() + [i];
    assert forall k :: 0 <= k < |s.done| ==> InDone(s.done, s.done[k].index);
  }

  lemma StartRecords(cfg: Config, good: ValueProperty, s: RunState, s': RunState, i: nat)
    requires cfg.plan.WindowsTile() && Inv(cfg, good, s) && IsStart(cfg, s, s', i)
    ensures Phases(cfg.plan, s') && Goroutines(cfg, s') && Shape(cfg, s')
  {
    NextIsPending(cfg.plan, s);
    StartPhases(cfg, s, s', i);
    StartGoroutines(cfg, s, s', i);
    assert |s'.inputs| == cfg.plan.totalInputs;
  }

  lemma StartControl(cfg: Config, good: ValueProperty, s: RunState, s': RunState, i: nat)
    requires cfg.plan.WindowsTile() && Inv(cfg, good, s) && IsStart(cfg, s, s', i)
    ensures |s'.steps| == |s'.unmet| == |cfg.plan.steps|
    ensures Readiness(cfg.plan, s'.steps, s'.unmet, s'.ready, s'.stopped, true)
    ensures Windows(cfg.plan, s') && Stops(s') && Clocked(s') && Values(s', good)
  {
    NextIsPending(cfg.plan, s);
    ReadinessSame(cfg.plan, s.steps, s'.steps, s.unmet, s.ready, s.stopped, true);
    StartWindows(cfg, s, s', i);
  }

  lemma StartKeepsInv(cfg: Config, good: ValueProperty, s: RunState, s': RunState, i: nat)
    requires cfg.plan.WindowsTile() && Inv(cfg, good, s) && IsStart(cfg, s, s', i)
    ensures Inv(cfg, good, s')
  {
    StartRecords(cfg, good, s, s', i);
    StartControl(cfg, good, s, s', i);
  }

  // ------------------------------------------------------- recording a completion

  /** s' is s with completion c taken, from the channel or from the inlined step,
      and handled. */
  ghost predicate IsFinish(cfg: Config, s: RunState, s': RunState, c: Completion)
    requires PlanShape(cfg.plan)
  {
    && c.index < |s.steps| == |s.unmet| == |cfg.plan.steps|
    && Handled(cfg.plan, s, s', c)
    && s'.launched == s.launched && s'.inputs == s.inputs && s'.going == s.going
    && s'.callerPending == s.callerPending && s'.clock == s.clock + 1 && s'.pc == Top
    && (|| (s.pc.Selecting? && s.done != [] && c == s.done[0] && s'.done == s.done[1..]
            && s'.inflight == s.inflight - 1 && s'.holding == s.holding)
        || (s.pc == Inlining(c.index) && s'.done == s.done
            && s'.inflight == s.inflight && s'.holding == s.holding - {c.index}))
  }

  /** s' records c as Handle does. */
  ghost predicate Handled(plan: ExecutionPlan, s: RunState, s': RunState, c: Completion)
    requires c.index < |s.steps| == |s.unmet| == |plan.steps| && plan.IndicesInRange()
  {
    var h := Handle(plan, s, c);
    s'.steps == h.steps && s'.unmet == h.unmet && s'.ready == h.ready && SameVerdict(h, s')
  }

  lemma FinishActive(cfg: Config, s: RunState, s': RunState, c: Completion)
    requires PlanShape(cfg.plan) && IsFinish(cfg, s, s', c) && Goroutines(cfg, s)
    ensures Active(s, c.index)
    ensures forall j :: Active(s', j) <==> Active(s, j) && j != c.index
  {
    if s.pc.Selecting? {
      assert s.done == [s.done[0]] + s'.done;
      forall j
        ensures InDone(s.done, j) <==> j == c.index || InDone(s'.done, j)
        ensures InDone(s'.done, j) ==> j != c.index
      {
        assert j == c.index ==> s.done[0].index == j;
        if k :| 0 <= k < |s'.done| && s'.done[k].index == j {
          assert s.done[k + 1].index == j;
        }
      }
    }
  }

  lemma FinishGoroutines(cfg: Config, s: RunState, s': RunState, c: Completion)
    requires PlanShape(cfg.plan) && IsFinish(cfg, s, s', c) && Goroutines(cfg, s)
    requires s.ready <= s'.ready
    ensures Goroutines(cfg, s')
  {
    assert s'.Started() == s.Started();
    if s.pc.Selecting? {
      assert forall k :: 0 <= k < |s'.done| ==> s'.done[k] == s.done[k + 1];
    }
  }

  /** What a completion does to the records: all that the phases and the windows see. */
  lemma FinishEffect(cfg: Config, s: RunState, s': RunState, c: Completion)
    requires PlanShape(cfg.plan) && IsFinish(cfg, s, s', c)
    ensures s'.steps == Recorded(s.steps, c)
    ensures (s.stopped ==> s'.stopped) && (c.result.Err? ==> s'.stopped)
  {
  }

  lemma PhaseRecorded(plan: ExecutionPlan, s: RunState, s': RunState, c: Completion, j: nat)
    requires c.index < |s.steps| && j < |s.steps| && s'.steps == Recorded(s.steps, c)
    requires (s.stopped ==> s'.stopped) && (c.result.Err? ==> s'.stopped)
    requires s.launched <= |s.ready| && s'.launched <= |s'.ready| && s'.Started() == s.Started()
    requires StepPhase(plan, s, j) && (j == c.index ==> s.steps[j].state.Running?)
    requires Active(s', j) <==> Active(s, j) && j != c.index
    ensures StepPhase(plan, s', j)
  {
  }

  lemma FinishPhases(cfg: Config, s: RunState, s': RunState, c: Completion)
    requires PlanShape(cfg.plan) && IsFinish(cfg, s, s', c) && Phases(cfg.plan, s)
    requires s.ready <= s'.ready && Active(s, c.index)
    requires forall j :: Active(s', j) <==> Active(s, j) && j != c.index
    ensures Phases(cfg.plan, s')
  {
    FinishEffect(cfg, s, s', c);
    assert s'.Started() == s.Started();
    assert StepPhase(cfg.plan, s, c.index);
    forall j | 0 <= j < |s'.steps|
      ensures StepPhase(cfg.plan, s', j)
    {
      assert StepPhase(cfg.plan, s, j);
      PhaseRecorded(cfg.plan, s, s', c, j);
    }
  }

  /** A window filled from successes is not disturbed by the record of another step. */
  lemma FilledStays(step: CompiledStep, inputs: seq<Value>, steps: seq<StepResult>, c: Completion)
    requires c.index < |steps| && !steps[c.index].state.Succeeded?
    requires Filled(step, inputs, steps) && AllDone(step.deps, steps)
    ensures Filled(step, inputs, Recorded(steps, c))
  {
    forall p | 0 <= p < |step.deps|
      ensures FilledAt(step, inputs, Recorded(steps, c), p)
    {
      assert FilledAt(step, inputs, steps, p) && steps[step.deps[p]].state.Succeeded?;
    }
  }

  lemma FinishWindows(cfg: Config, s: RunState, s': RunState, c: Completion)
    requires PlanShape(cfg.plan) && IsFinish(cfg, s, s', c) && Phases(cfg.plan, s) && Windows(cfg.plan, s)
    requires Readiness(cfg.plan, s.steps, s.unmet, s.ready, s.stopped, true)
    requires forall j :: Active(s', j) <==> Active(s, j) && j != c.index
    requires Active(s, c.index)
    ensures Windows(cfg.plan, s')
  {
    FinishEffect(cfg, s, s', c);
    assert StepPhase(cfg.plan, s, c.index);
    forall j | 0 <= j < |cfg.plan.steps| && Active(s', j)
      ensures Filled(cfg.plan.steps[j], s'.inputs, s'.steps)
    {
      assert StepPhase(cfg.plan, s, j);
      assert j in s.ready;
      FilledStays(cfg.plan.steps[j], s.inputs, s.steps, c);
    }
  }

  lemma FinishStops(cfg: Config, s: RunState, s': RunState, c: Completion)
    requires PlanShape(cfg.plan) && IsFinish(cfg, s, s', c) && Stops(s) && Clocked(s)
    requires !s.steps[c.index].state.Succeeded?
    requires s.steps[c.index].err.None?
    ensures Stops(s') && Clocked(s')
  {
  }

  lemma FinishValues(cfg: Config, good: ValueProperty, s: RunState, s': RunState, c: Completion)
    requires PlanShape(cfg.plan) && IsFinish(cfg, s, s', c) && Values(s, good)
    requires c.result.Ok? ==> good(c.index, c.result.value)
    requires !s.steps[c.index].state.Succeeded?
    ensures Values(s', good)
  {
    if s.pc.Selecting? {
      assert forall k :: 0 <= k < |s'.done| ==> s'.done[k] == s.done[k + 1];
    }
  }

  lemma FinishRecords(cfg: Config, good: ValueProperty, s: RunState, s': RunState, c: Completion)
    requires cfg.plan.Transposed() && Inv(cfg, good, s) && IsFinish(cfg, s, s', c)
    ensures s.ready <= s'.ready && |s'.steps| == |s'.unmet| == |cfg.plan.steps|
    ensures Readiness(cfg.plan, s'.steps, s'.unmet, s'.ready, s'.stopped, true)
    ensures Phases(cfg.plan, s') && Goroutines(cfg, s')
  {
    FinishActive(cfg, s, s', c);
    assert StepPhase(cfg.plan, s, c.index);
    HandleKeepsReadiness(cfg.plan, s, c, true);
    FinishGoroutines(cfg, s, s', c);
    FinishPhases(cfg, s, s', c);
  }

  lemma FinishControl(cfg: Config, good: ValueProperty, s: RunState, s': RunState, c: Completion)
    requires Inv(cfg, good, s) && IsFinish(cfg, s, s', c)
    requires c.result.Ok? ==> good(c.index, c.result.value)
    ensures Windows(cfg.plan, s') && Stops(s') && Clocked(s') && Values(s', good)
  {
    FinishActive(cfg, s, s', c);
    assert StepPhase(cfg.plan, s, c.index);
    FinishWindows(cfg, s, s', c);
    FinishStops(cfg, s, s', c);
    FinishValues(cfg, good, s, s', c);
  }

  lemma FinishKeepsInv(cfg: Config, good: ValueProperty, s: RunState, s': RunState, c: Completion)
    requires cfg.plan.Transposed() && Inv(cfg, good, s) && IsFinish(cfg, s, s', c)
    requires c.result.Ok? ==> good(c.index, c.result.value)
    ensures Inv(cfg, good, s')
  {
    FinishRecords(cfg, good, s, s', c);
    FinishControl(cfg, good, s, s', c);
    assert forall k :: 0 <= k < |s'.ready| ==> s'.ready[k] in s'.ready;
  }

  // ------------------------------------------------------------------ the events

  lemma StartEvent(cfg: Config, good: ValueProperty, s: RunState, e: Event, free: bool)
    requires cfg.plan.WindowsTile() && Inv(cfg, good, s) && Enabled(cfg, s, e, free)
    requires e.InlineStart? || e.PumpLaunch? || e.SelectSlot?
    ensures Inv(cfg, good, Apply(cfg, s, e, free))
  {
    StartKeepsInv(cfg, good, s, Apply(cfg, s, e, free), s.ready[s.launched]);
  }

  /** What a step may return on a window of good values is good. */
  lemma ReturnsGood(cfg: Config, good: ValueProperty, s: RunState, i: nat, r: ResultValue)
    requires Inv(cfg, good, s) && Hereditary(cfg, good)
    requires i < |s.steps| && Active(s, i) && StepReturns(cfg, s, i, r)
    ensures r.Ok? ==> good(i, r.value)
  {
    assert StepPhase(cfg.plan, s, i);
    assert i in s.ready && AllDone(cfg.plan.steps[i].deps, s.steps);
    WindowIsGood(cfg.plan, good, s, i);
  }

  lemma WindowIsGood(plan: ExecutionPlan, good: ValueProperty, s: RunState, i: nat)
    requires PlanShape(plan) && |s.inputs| == plan.totalInputs && |s.steps| == |plan.steps| && i < |plan.steps|
    requires Values(s, good) && AllDone(plan.steps[i].deps, s.steps) && Filled(plan.steps[i], s.inputs, s.steps)
    ensures GoodWindow(plan, i, Window(plan, s, i), good)
  {
    var w := Window(plan, s, i);
    forall p | 0 <= p < |w|
      ensures good(plan.steps[i].deps[p], w[p])
    {
      assert FilledAt(plan.steps[i], s.inputs, s.steps, p);
    }
  }

  lemma InlineEndEvent(cfg: Config, good: ValueProperty, s: RunState, r: ResultValue, free: bool)
    requires cfg.plan.Transposed() && Inv(cfg, good, s) && Enabled(cfg, s, InlineEnd(r), free)
    requires Hereditary(cfg, good)
    ensures Inv(cfg, good, Apply(cfg, s, InlineEnd(r), free))
  {
    ReturnsGood(cfg, good, s, s.pc.step, r);
    FinishKeepsInv(cfg, good, s, Apply(cfg, s, InlineEnd(r), free), Completion(s.pc.step, r));
  }

  lemma SelectDoneEvent(cfg: Config, good: ValueProperty, s: RunState, free: bool)
    requires cfg.plan.Transposed() && Inv(cfg, good, s) && Enabled(cfg, s, SelectDone, free)
    ensures Inv(cfg, good, Apply(cfg, s, SelectDone, free))
  {
    FinishKeepsInv(cfg, good, s, Apply(cfg, s, SelectDone, free), s.done[0]);
  }

  /** Moves that touch neither the records nor the queue. */
  ghost predicate SameRecords(s: RunState, s': RunState) {
    && s'.steps == s.steps && s'.unmet == s.unmet && s'.ready == s.ready
    && s'.launched == s.launched && s'.inputs == s.inputs
  }

  lemma SendActive(s: RunState, s': RunState, i: nat, r: ResultValue)
    requires i in s.going && s'.going == s.going - {i} && s'.done == s.done + [Completion(i, r)]
    requires s'.pc == s.pc
    ensures forall j :: Active(s', j) <==> Active(s, j)
  {
    forall j
      ensures InDone(s'.done, j) <==> InDone(s.done, j) || j == i
    {
      assert s'.done[|s.done|].index == i;
      if k :| 0 <= k < |s.done| && s.done[k].index == j {
        assert s'.done[k].index == j;
      }
    }
  }

  lemma SendGoroutines(cfg: Config, s: RunState, s': RunState, i: nat, r: ResultValue)
    requires Goroutines(cfg, s) && i in s.going
    requires s' == s.(going := s.going - {i}, done := s.done + [Completion(i, r)])
    ensures Goroutines(cfg, s')
  {
    assert s'.Started() == s.Started();
    assert forall k :: 0 <= k < |s.done| ==> s'.done[k] == s.done[k];
  }

  lemma SendKeepsInv(cfg: Config, good: ValueProperty, s: RunState, i: nat, r: ResultValue)
    requires Inv(cfg, good, s) && i in s.going && (r.Ok? ==> good(i, r.value))
    ensures Inv(cfg, good, s.(going := s.going - {i}, done := s.done + [Completion(i, r)]))
  {
    var s' := s.(going := s.going - {i}, done := s.done + [Completion(i, r)]);
    SendActive(s, s', i, r);
    SendGoroutines(cfg, s, s', i, r);
    SameRecordsKeep(cfg, s, s');
  }

  lemma SameRecordsKeep(cfg: Config, s: RunState, s': RunState)
    requires Phases(cfg.plan, s) && Windows(cfg.plan, s)
    requires SameRecords(s, s') && (s.stopped ==> s'.stopped)
    requires forall j :: Active(s', j) <==> Active(s, j)
    ensures Phases(cfg.plan, s') && Windows(cfg.plan, s')
  {
    forall j | 0 <= j < |s'.steps|
      ensures StepPhase(cfg.plan, s', j)
    {
      assert StepPhase(cfg.plan, s, j);
    }
  }

  /** Moves of the coordinator from one place to the next, and no more. */
  lemma TurnEvent(cfg: Config, good: ValueProperty, s: RunState, e: Event, free: bool)
    requires Inv(cfg, good, s) && Enabled(cfg, s, e, free) && (free || cfg.shared)
    requires e.InlineSkip? || e.PumpStop? || e.SelectAbandon?
    ensures Inv(cfg, good, Apply(cfg, s, e, free))
  {
    var s' := Apply(cfg, s, e, free);
    assert forall j :: Active(s', j) <==> Active(s, j);
    SameRecordsKeep(cfg, s, s');
  }

  lemma QuietEvent(cfg: Config, good: ValueProperty, s: RunState, e: Event, free: bool)
    requires Inv(cfg, good, s) && Enabled(cfg, s, e, free) && (free || cfg.shared)
    requires e.InlineSkip? || e.PumpStop? || e.SelectAbandon? || e.SelectCaller? || e.ReleaseSlot?
    ensures Inv(cfg, good, Apply(cfg, s, e, free))
  {
    if e.SelectCaller? || e.ReleaseSlot? {
      var s' := Apply(cfg, s, e, free);
      assert forall j :: Active(s', j) <==> Active(s, j);
      SameRecordsKeep(cfg, s, s');
    } else {
      TurnEvent(cfg, good, s, e, free);
    }
  }

  /** Every event keeps the invariant. */
  lemma EventKeepsInv(cfg: Config, good: ValueProperty, s: RunState, e: Event, free: bool, s': RunState)
    requires cfg.plan.WindowsTile() && cfg.plan.Transposed() && Hereditary(cfg, good)
    requires Inv(cfg, good, s) && Moves(cfg, s, e, free, s')
    ensures Inv(cfg, good, s')
  {
    if IsLaunch(e) {
      StartEvent(cfg, good, s, e, free);
    } else if IsCompletion(e) {
      CompletionEvent(cfg, good, s, e, free);
    } else if e.Send? {
      SendEvent(cfg, good, s, e.step, e.outcome);
    } else {
      QuietEvent(cfg, good, s, e, free);
    }
  }

  lemma CompletionEvent(cfg: Config, good: ValueProperty, s: RunState, e: Event, free: bool)
    requires cfg.plan.WindowsTile() && cfg.plan.Transposed() && Hereditary(cfg, good)
    requires Inv(cfg, good, s) && Enabled(cfg, s, e, free) && (free || cfg.shared) && IsCompletion(e)
    ensures Inv(cfg, good, Apply(cfg, s, e, free))
  {
    if e.InlineEnd? {
      InlineEndEvent(cfg, good, s, e.result, free);
    } else {
      SelectDoneEvent(cfg, good, s, free);
    }
  }

  lemma SendEvent(cfg: Config, good: ValueProperty, s: RunState, i: nat, r: ResultValue)
    requires Hereditary(cfg, good) && Inv(cfg, good, s) && Enabled(cfg, s, Send(i, r), true)
    ensures Inv(cfg, good, Apply(cfg, s, Send(i, r), true))
  {
    ReturnsGood(cfg, good, s, i, r);
    SendKeepsInv(cfg, good, s, i, r);
  }
}
