/** One run as a state machine (internal/runtime/scheduler.go, executor.go).

    A state holds what the coordinator owns (unmet, ready, launched, inflight,
    stopped, the abandon deadline), what it records (the step results), and what
    its step goroutines are doing. Each event is one atomic move of the
    coordinator or of a step goroutine; the select is a free choice among the
    events enabled at that point. */
module RunModel {
  import opened Collections
  import opened Nodes
  import opened Pipeline

  const DEFAULT_MAX_CONCURRENCY: nat := 256

  datatype StepState = Pending | Running | Succeeded | Failed | Cancelled | Skipped

  /** Value is the zero value until the step succeeds. */
  datatype StepResult = StepResult(state: StepState, value: Value, err: Option<Error>)

  datatype Completion = Completion(index: nat, result: ResultValue)

  /** One run's parameters. `shared` says that a slot pool was supplied. */
  datatype Config = Config(
    plan: ExecutionPlan, supplied: map<string, Value>, maxConcurrency: int, shared: bool, inline: bool)
  {
    function Limit(): (m: nat)
      ensures m > 0
    {
      if maxConcurrency <= 0 then DEFAULT_MAX_CONCURRENCY else maxConcurrency
    }
  }

  /** Where the coordinator is: at the top of the loop, inside pump, blocked in
      the select, inside a node it runs itself, or past the loop. */
  datatype Pc = Top | Pumping | Selecting | Inlining(step: nat) | Returned(abandoned: bool)

  datatype RunState = RunState(
    steps: seq<StepResult>, failedStep: int, cancelled: bool,
    unmet: seq<int>, ready: seq<nat>, launched: nat, inflight: int, stopped: bool,
    deadline: Option<nat>,     // when the abandon timer was armed, on the event clock
    callerPending: bool,       // callerDone has not been taken yet
    inputs: seq<Value>,        // the one buffer every step reads its inputs from
    going: set<nat>,           // step goroutines that have not sent their completion
    done: seq<Completion>,     // the done channel
    holding: set<nat>,         // steps that hold a slot
    pc: Pc,
    clock: nat)                // launches, completions and caller-done events handled
  {
    /** The steps handed to a goroutine or run inline so far. */
    function Started(): seq<nat>
      requires launched <= |ready|
    {
      ready[..launched]
    }
  }

  /** Indices are where every access below needs them. */
  ghost predicate Shape(cfg: Config, s: RunState) {
    var n := |cfg.plan.steps|;
    && |s.steps| == n && |s.unmet| == n && |s.inputs| == cfg.plan.totalInputs
    && s.launched <= |s.ready|
    && (forall k :: 0 <= k < |s.ready| ==> s.ready[k] < n)
    && (forall i :: i in s.going ==> i < n)
    && (forall k :: 0 <= k < |s.done| ==> s.done[k].index < n)
    && (s.pc.Inlining? ==> s.pc.step < n)
    && PlanShape(cfg.plan)
  }

  ghost predicate PlanShape(plan: ExecutionPlan) {
    && plan.IndicesInRange()
    && plan.InputsLead()
    && forall i :: 0 <= i < |plan.steps| ==>
      plan.steps[i].inputOffset + |plan.steps[i].deps| <= plan.totalInputs
  }

  lemma WellFormedHasShape(plan: ExecutionPlan)
    requires plan.WellFormed()
    ensures PlanShape(plan)
  {
    WindowsPartitionBuffer(plan);
  }

  // ---------------------------------------------------------------- executor.go

  function Supply(supplied: map<string, Value>, input: PlanInput): ResultValue {
    if input.name !in supplied then Err(Errf(InvalidInput, "input_missing"))
    else if supplied[input.name].typ != input.typ then Err(Errf(InvalidInput, "input_type"))
    else Ok(supplied[input.name])
  }

  function Recorded(steps: seq<StepResult>, c: Completion): seq<StepResult>
    requires c.index < |steps|
  {
    var before := steps[c.index];
    steps[c.index := match c.result
      case Err(e) =>
        before.(err := Some(e), state := if e.kind.KindCancelled? then Cancelled else Failed)
      case Ok(v) =>
        before.(state := Succeeded, value := v)]
  }

  // --------------------------------------------------------------- scheduler.go

  /** Count down the dependents and queue those that reach zero. */
  function Release(unmet: seq<int>, ready: seq<nat>, dependents: seq<nat>): (r: (seq<int>, seq<nat>))
    requires forall k :: 0 <= k < |dependents| ==> dependents[k] < |unmet|
    ensures |r.0| == |unmet|
    decreases |dependents|
  {
    if dependents == [] then (unmet, ready)
    else
      var d := dependents[0];
      var unmet' := unmet[d := unmet[d] - 1];
      Release(unmet', if unmet'[d] == 0 then ready + [d] else ready, dependents[1..])
  }

  /** The abandon deadline is armed at most once. */
  function Armed(s: RunState): Option<nat> {
    if s.deadline.None? then Some(s.clock) else s.deadline
  }

  function Handle(plan: ExecutionPlan, s: RunState, c: Completion): RunState
    requires c.index < |s.steps| == |plan.steps| == |s.unmet| && plan.IndicesInRange()
  {
    var recorded := s.(steps := Recorded(s.steps, c));
    var s' := if c.result.Err? && !s.stopped
              then recorded.(stopped := true, failedStep := c.index, deadline := Armed(s))
              else recorded;
    if s'.stopped then s'
    else
      var (unmet, ready) := Release(s.unmet, s.ready, plan.steps[c.index].dependents);
      s'.(unmet := unmet, ready := ready)
  }

  /** A step's window of the input buffer, filled from its dependencies. */
  function Gathered(plan: ExecutionPlan, s: RunState, i: nat): seq<Value>
    requires i < |plan.steps| && |s.steps| == |plan.steps| && |s.inputs| == plan.totalInputs && PlanShape(plan)
  {
    var step := plan.steps[i];
    s.inputs[..step.inputOffset]
    + seq(|step.deps|, p requires 0 <= p < |step.deps| => s.steps[step.deps[p]].value)
    + s.inputs[step.inputOffset + |step.deps|..]
  }

  function Window(plan: ExecutionPlan, s: RunState, i: nat): (w: seq<Value>)
    requires i < |plan.steps| && |s.inputs| == plan.totalInputs && PlanShape(plan)
    ensures |w| == |plan.steps[i].deps|
  {
    s.inputs[plan.steps[i].inputOffset..plan.steps[i].inputOffset + |plan.steps[i].deps|]
  }

  function Prepare(plan: ExecutionPlan, s: RunState, i: nat): RunState
    requires i < |plan.steps| && |s.steps| == |plan.steps| && |s.inputs| == plan.totalInputs && PlanShape(plan)
  {
    s.(inputs := Gathered(plan, s, i), steps := s.steps[i := s.steps[i].(state := Running)])
  }

  /** Start the next ready step on a goroutine; it holds a slot. */
  function Launch(plan: ExecutionPlan, s: RunState): RunState
    requires s.launched < |s.ready| && s.ready[s.launched] < |plan.steps|
    requires |s.steps| == |plan.steps| && |s.inputs| == plan.totalInputs && PlanShape(plan)
  {
    var i := s.ready[s.launched];
    Prepare(plan, s, i).(inflight := s.inflight + 1, launched := s.launched + 1,
      going := s.going + {i}, holding := s.holding + {i}, clock := s.clock + 1)
  }

  /** Work is queued and this run's own cap leaves room. */
  predicate CanStart(cfg: Config, s: RunState) {
    s.launched < |s.ready| && s.inflight < cfg.Limit()
  }

  /** The pool arm of the select is enabled. */
  predicate WaitingOn(cfg: Config, s: RunState) {
    cfg.shared && !s.stopped && CanStart(cfg, s)
  }

  predicate WantsInline(cfg: Config, s: RunState) {
    cfg.inline && !s.stopped && s.inflight == 0 && |s.ready| - s.launched == 1
  }

  function Initial(cfg: Config): RunState {
    var n := |cfg.plan.steps|;
    RunState(
      seq(n, _ => StepResult(Pending, ZERO_VALUE, None)), -1, false,
      seq(n, i requires 0 <= i < n => |cfg.plan.steps[i].deps|), [], 0, 0, false,
      None, true, seq(cfg.plan.totalInputs, _ => ZERO_VALUE), {}, [], {}, Top, 0)
  }

  /** Record the declared inputs from the k-th on, then queue the roots. */
  function SupplyFrom(cfg: Config, s: RunState, k: nat): RunState
    requires k <= |cfg.plan.inputs| && PlanShape(cfg.plan)
    requires |s.steps| == |s.unmet| == |cfg.plan.steps|
    decreases |cfg.plan.inputs| - k
  {
    if k == |cfg.plan.inputs| then s.(ready := s.ready + cfg.plan.roots)
    else
      var c := Completion(cfg.plan.inputs[k].step, Supply(cfg.supplied, cfg.plan.inputs[k]));
      SupplyFrom(cfg, Handle(cfg.plan, s, c), k + 1)
  }

  function Begin(cfg: Config): RunState
    requires PlanShape(cfg.plan)
  {
    SupplyFrom(cfg, Initial(cfg), 0)
  }

  datatype Event =
    | InlineStart                          // tryInline claims a slot and enters the node
    | InlineEnd(result: ResultValue)       // the inlined node returned
    | InlineSkip                           // tryInline reports false
    | PumpLaunch                           // pump claims a slot and launches
    | PumpStop                             // pump is done; return or block in the select
    | SelectSlot                           // case waiting <- struct{}{}
    | SelectDone                           // case c := <-s.done
    | SelectCaller                         // case <-callerDone
    | SelectAbandon                        // case <-s.abandon
    | Send(step: nat, outcome: ResultValue) // a step goroutine sends its completion
    | ReleaseSlot(step: nat)               // a step goroutine gives its slot back

  /** `free` says that a slot can be taken at this moment; it is always true for
      a run without a pool. */
  ghost predicate Enabled(cfg: Config, s: RunState, e: Event, free: bool)
    requires Shape(cfg, s)
  {
    match e
    case InlineStart => s.pc.Top? && WantsInline(cfg, s) && free
    case InlineSkip => s.pc.Top? && !(WantsInline(cfg, s) && free)
    case InlineEnd(r) => s.pc.Inlining? && StepReturns(cfg, s, s.pc.step, r)
    case PumpLaunch => s.pc.Pumping? && !s.stopped && CanStart(cfg, s) && free
    case PumpStop => s.pc.Pumping? && !(!s.stopped && CanStart(cfg, s) && free)
    case SelectSlot => s.pc.Selecting? && WaitingOn(cfg, s) && free
    case SelectDone => s.pc.Selecting? && s.done != []
    case SelectCaller => s.pc.Selecting? && s.callerPending
    case SelectAbandon => s.pc.Selecting? && s.deadline.Some?
    case Send(i, r) => i in s.going && StepReturns(cfg, s, i, r)
    case ReleaseSlot(i) => i in s.holding && i !in s.going && s.pc != Inlining(i)
  }

  /** Step i, reading its window of the buffer now, may return r. */
  ghost predicate StepReturns(cfg: Config, s: RunState, i: nat, r: ResultValue)
    requires Shape(cfg, s) && i < |cfg.plan.steps|
  {
    cfg.plan.steps[i].node.Some? && MayReturn(cfg.plan.steps[i].node.value, Window(cfg.plan, s, i), r)
  }

  /** The events that start a step, and those that record one. */
  predicate IsLaunch(e: Event) {
    e.InlineStart? || e.PumpLaunch? || e.SelectSlot?
  }

  predicate IsCompletion(e: Event) {
    e.InlineEnd? || e.SelectDone?
  }

  ghost function Apply(cfg: Config, s: RunState, e: Event, free: bool): RunState
    requires Shape(cfg, s) && Enabled(cfg, s, e, free)
  {
    match e
    case InlineStart =>
      var i := s.ready[s.launched];
      Prepare(cfg.plan, s, i).(launched := s.launched + 1, holding := s.holding + {i},
        clock := s.clock + 1, pc := Inlining(i))
    case InlineSkip => s.(pc := Pumping)
    case InlineEnd(r) =>
      var i := s.pc.step;
      Handle(cfg.plan, s.(holding := s.holding - {i}), Completion(i, r)).(clock := s.clock + 1, pc := Top)
    case PumpLaunch => Launch(cfg.plan, s)
    case PumpStop =>
      s.(pc := if s.inflight == 0 && !WaitingOn(cfg, s) then Returned(false) else Selecting)
    case SelectSlot => Launch(cfg.plan, s).(pc := Top)
    case SelectDone =>
      Handle(cfg.plan, s.(inflight := s.inflight - 1, done := s.done[1..]), s.done[0])
        .(clock := s.clock + 1, pc := Top)
    case SelectCaller => CallerEnded(s)
    case SelectAbandon => s.(pc := Returned(true))
    case Send(i, r) => s.(going := s.going - {i}, done := s.done + [Completion(i, r)])
    case ReleaseSlot(i) => s.(holding := s.holding - {i})
  }

  function CallerEnded(s: RunState): RunState {
    s.(callerPending := false, stopped := true,
       cancelled := s.cancelled || !s.stopped, deadline := Armed(s), clock := s.clock + 1, pc := Top)
  }

  /** One move of one run, whatever the pool allows at that moment. */
  ghost predicate Moves(cfg: Config, s: RunState, e: Event, free: bool, s': RunState) {
    && Shape(cfg, s)
    && (free || cfg.shared)
    && Enabled(cfg, s, e, free)
    && s' == Apply(cfg, s, e, free)
  }

  ghost predicate Next(cfg: Config, s: RunState, s': RunState) {
    exists e: Event, free: bool :: Moves(cfg, s, e, free, s')
  }

  /** The k-th state of a run: the first has the inputs recorded, and each other
      follows from the one before it. */
  ghost predicate Follows(cfg: Config, trace: seq<RunState>, k: nat)
    requires PlanShape(cfg.plan)
  {
    k < |trace| && if k == 0 then trace[0] == Begin(cfg) else Next(cfg, trace[k - 1], trace[k])
  }

  /** A run so far. */
  ghost predicate IsRun(cfg: Config, trace: seq<RunState>) {
    && PlanShape(cfg.plan)
    && |trace| > 0
    && forall k :: 0 <= k < |trace| ==> Follows(cfg, trace, k)
  }

  lemma RunBegins(cfg: Config)
    requires PlanShape(cfg.plan)
    ensures IsRun(cfg, [Begin(cfg)])
  {
    var trace := [Begin(cfg)];
    assert Follows(cfg, trace, 0);
  }

  lemma RunExtends(cfg: Config, trace: seq<RunState>, s: RunState)
    requires IsRun(cfg, trace) && Next(cfg, trace[|trace| - 1], s)
    ensures IsRun(cfg, trace + [s])
  {
    var trace' := trace + [s];
    forall k | 0 <= k < |trace'|
      ensures Follows(cfg, trace', k)
    {
      assert k < |trace| ==> Follows(cfg, trace, k);
    }
  }

  // ------------------------------------------------------------------- finalize

  datatype Execution = Execution(
    steps: seq<StepResult>, failedStep: int, cancelled: bool, abandoned: nat)
  {
    predicate Failed() { failedStep >= 0 || cancelled }

    function Err(): Option<Error>
      requires failedStep < |steps|
    {
      if failedStep >= 0 then steps[failedStep].err
      else if cancelled then Some(Errf(KindCancelled, "cancelled"))
      else None
    }
  }

  function AbandonedErr(step: CompiledStep): Error {
    if step.node.Some? && step.node.value.stoppable then Errf(Internal, "broken_cancellation")
    else Errf(KindCancelled, "abandoned")
  }

  function Settled(step: CompiledStep, r: StepResult, abandoned: bool): StepResult {
    if abandoned && r.state.Running? then r.(state := Cancelled, err := Some(AbandonedErr(step)))
    else if r.state.Pending? then r.(state := Skipped)
    else r
  }

  function CountRunning(steps: seq<StepResult>): nat {
    if steps == [] then 0
    else CountRunning(steps[..|steps| - 1]) + if steps[|steps| - 1].state.Running? then 1 else 0
  }

  function Finalize(plan: ExecutionPlan, s: RunState): Execution
    requires s.pc.Returned? && |s.steps| == |plan.steps|
  {
    var abandoned := s.pc.abandoned;
    Execution(
      seq(|s.steps|, i requires 0 <= i < |s.steps| => Settled(plan.steps[i], s.steps[i], abandoned)),
      s.failedStep,
      s.cancelled || (abandoned && !(s.failedStep >= 0 || s.cancelled)),
      if abandoned then CountRunning(s.steps) else 0)
  }
}
