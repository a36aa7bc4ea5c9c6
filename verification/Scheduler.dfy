/** One run's coordinator, field by field (internal/runtime/scheduler.go). Every
    method is tied to the run model: the object always stands at the end of a run,
    which it records as it goes, so what holds of every run holds of it. */
module Scheduler {
  import opened Collections
  import opened Nodes
  import opened RunModel
  import opened RunInvariant
  import opened RunStart
  import opened RunTheorems
  import opened RunOutcome
  import Retries

  lemma ShapeAt(cfg: Config, trace: seq<RunState>, k: nat)
    requires cfg.plan.WellFormed() && IsRun(cfg, trace) && k < |trace|
    ensures Shape(cfg, trace[k])
  {
    RunInvariantHolds(cfg, trace, k);
  }

  /** The step being inlined is one that computes. */
  lemma InlinedComputes(cfg: Config, trace: seq<RunState>, k: nat)
    requires cfg.plan.WellFormed() && IsRun(cfg, trace) && k < |trace| && trace[k].pc.Inlining?
    ensures |cfg.plan.inputs| <= trace[k].pc.step < |cfg.plan.steps|
  {
    RunInvariantHolds(cfg, trace, k);
    assert StepPhase(cfg.plan, trace[k], trace[k].pc.step);
  }

  lemma BeginsAtTop(cfg: Config)
    requires cfg.plan.WellFormed() && PlanShape(cfg.plan)
    ensures Begin(cfg).pc == Top
  {
    InitialSupplying(cfg);
    var last := RunStart.SupplyAll(cfg, Initial(cfg), 0);
  }

  /** So is one that is going. */
  lemma GoingComputes(cfg: Config, trace: seq<RunState>, k: nat, i: nat)
    requires cfg.plan.WellFormed() && IsRun(cfg, trace) && k < |trace| && i in trace[k].going
    ensures |cfg.plan.inputs| <= i < |cfg.plan.steps|
  {
    RunInvariantHolds(cfg, trace, k);
    assert StepPhase(cfg.plan, trace[k], i);
  }

  lemma SupplyEnds(cfg: Config, s: RunState)
    requires PlanShape(cfg.plan) && |s.steps| == |s.unmet| == |cfg.plan.steps|
    ensures SupplyFrom(cfg, s, |cfg.plan.inputs|) == s.(ready := s.ready + cfg.plan.roots)
  {
  }

  lemma LaunchMoves(cfg: Config, s: RunState, e: Event, s': RunState)
    requires Shape(cfg, s) && e in {PumpLaunch, SelectSlot} && Enabled(cfg, s, e, true) && s' == Launch(cfg.plan, s)
    ensures Moves(cfg, s, e, true, if e == SelectSlot then s'.(pc := Top) else s')
  {
  }

  lemma PumpStopMoves(cfg: Config, s: RunState, free: bool, finished: bool)
    requires Shape(cfg, s) && (free || cfg.shared) && Enabled(cfg, s, PumpStop, free)
    requires finished <==> s.inflight == 0 && !WaitingOn(cfg, s)
    ensures Moves(cfg, s, PumpStop, free, s.(pc := if finished then Returned(false) else Selecting))
  {
  }

  lemma InlineEndMoves(cfg: Config, s: RunState, i: nat, r: ResultValue, s': RunState)
    requires Shape(cfg, s) && s.pc == Inlining(i) && StepReturns(cfg, s, i, r)
    requires s' == Handle(cfg.plan, s.(holding := s.holding - {i}), Completion(i, r)).(clock := s.clock + 1, pc := Top)
    ensures Moves(cfg, s, InlineEnd(r), true, s')
  {
  }

  lemma DoneMoves(cfg: Config, s: RunState, s': RunState)
    requires Shape(cfg, s) && s.pc == Selecting && s.done != []
    requires s' == Handle(cfg.plan, s.(inflight := s.inflight - 1, done := s.done[1..]), s.done[0])
      .(clock := s.clock + 1, pc := Top)
    ensures Moves(cfg, s, SelectDone, true, s')
  {
  }

  /** The run has not stopped, and its coordinator is inside a node it runs itself, or
      blocked with nothing to receive. */
  ghost predicate Waits(s: RunState) {
    !s.stopped && (s.pc.Inlining? || (s.pc.Selecting? && s.done == []))
  }

  /** Then some node has not come back, or the pool has no slot to give. */
  lemma WaitingForSomething(cfg: Config, trace: seq<RunState>, k: nat)
    requires cfg.plan.WellFormed() && IsRun(cfg, trace) && k < |trace| && Waits(trace[k])
    ensures trace[k].pc.Inlining? || trace[k].going != {} || WaitingOn(cfg, trace[k])
  {
    RunInvariantHolds(cfg, trace, k);
  }

  /** The execution reported by a run that ended in s. */
  ghost predicate Concludes(cfg: Config, s: RunState, ex: Execution) {
    && s.pc.Returned? && |s.steps| == |cfg.plan.steps| && ex == Finalize(cfg.plan, s)
    && (!ex.Failed() ==> forall i :: 0 <= i < |ex.steps| ==> ex.steps[i].state.Succeeded?)
  }

  /** What was reported accounts for the run. */
  ghost predicate Accounts(cfg: Config, trace: seq<RunState>, ex: Option<Execution>) {
    && IsRun(cfg, trace)
    && (ex.Some? ==> Concludes(cfg, trace[|trace| - 1], ex.value))
    && (ex.None? ==> Waits(trace[|trace| - 1]))
  }

  class Coordinator {
    const cfg: Config

    // the execution record
    var steps: seq<StepResult>
    var failedStep: int
    var cancelled: bool

    // what the coordinator owns
    var unmet: seq<int>
    var ready: seq<nat>
    var launched: nat
    var inflight: int
    var stopped: bool
    var deadline: Option<nat>
    var callerPending: bool
    const inputs: array<Value>

    // its surroundings: step goroutines, the done channel, slots held
    var going: set<nat>
    var done: seq<Completion>
    var holding: set<nat>
    var clock: nat

    ghost var pc: Pc
    ghost var trace: seq<RunState>

    ghost function State(): RunState
      reads this, inputs
    {
      RunState(steps, failedStep, cancelled, unmet, ready, launched, inflight, stopped, deadline,
        callerPending, inputs[..], going, done, holding, pc, clock)
    }

    /** The object is where its recorded run has got to. */
    ghost predicate OnRun()
      reads this, inputs
    {
      cfg.plan.WellFormed() && IsRun(cfg, trace) && trace[|trace| - 1] == State()
    }

    constructor (c: Config)
      requires PlanShape(c.plan)
      ensures cfg == c && State() == Initial(c) && fresh(inputs)
    {
      var n := |c.plan.steps|;
      cfg := c;
      steps := seq(n, _ => StepResult(Pending, ZERO_VALUE, None));
      failedStep, cancelled := -1, false;
      unmet := seq(n, i requires 0 <= i < n => |c.plan.steps[i].deps|);
      ready, launched, inflight, stopped := [], 0, 0, false;
      deadline, callerPending := None, true;
      inputs := new Value[c.plan.totalInputs](_ => ZERO_VALUE);
      going, done, holding, clock := {}, [], {}, 0;
      pc, trace := Top, [];
      new;
      assert inputs[..] == seq(c.plan.totalInputs, _ => ZERO_VALUE);
    }

    // ------------------------------------------------------------- single operations

    /** Store a completion and report whether it was a failure. */
    method Record(c: Completion) returns (failure: bool)
      requires c.index < |steps|
      modifies this`steps
      ensures State() == old(State()).(steps := Recorded(old(steps), c))
      ensures failure <==> c.result.Err?
    {
      var r := steps[c.index];
      match c.result
      case Err(e) =>
        r := r.(err := Some(e));
        if e.kind.KindCancelled? {
          r := r.(state := Cancelled);
        } else {
          r := r.(state := Failed);
        }
        steps := steps[c.index := r];
        return true;
      case Ok(v) =>
        r := r.(state := Succeeded);
        r := r.(value := v);
        steps := steps[c.index := r];
        return false;
    }

    method WindDown()
      modifies this`deadline
      ensures State() == old(State()).(deadline := Armed(old(State())))
    {
      if deadline.None? {
        deadline := Some(clock);
      }
    }

    /** Record a completion and release whatever it unblocked. */
    method HandleCompletion(c: Completion)
      requires c.index < |steps| == |cfg.plan.steps| == |unmet| && cfg.plan.IndicesInRange()
      modifies this`steps, this`stopped, this`failedStep, this`deadline, this`unmet, this`ready
      ensures State() == Handle(cfg.plan, old(State()), c)
    {
      var failure := Record(c);
      if failure && !stopped {
        stopped := true;
        failedStep := c.index;
        WindDown();
      }
      if stopped {
        return;
      }
      CountDown(cfg.plan.steps[c.index].dependents);
    }

    method CountDown(dependents: seq<nat>)
      requires forall k :: 0 <= k < |dependents| ==> dependents[k] < |unmet|
      modifies this`unmet, this`ready
      ensures (unmet, ready) == Release(old(unmet), old(ready), dependents)
    {
      for k := 0 to |dependents|
        invariant |unmet| == |old(unmet)|
        invariant Release(unmet, ready, dependents[k..]) == Release(old(unmet), old(ready), dependents)
      {
        var d := dependents[k];
        assert dependents[k..][0] == d && dependents[k..][1..] == dependents[k + 1..];
        unmet := unmet[d := unmet[d] - 1];
        if unmet[d] == 0 {
          ready := ready + [d];
        }
      }
    }

    /** Gather a step's inputs into its window of the one buffer. */
    method Gather(i: nat)
      requires i < |cfg.plan.steps| == |steps| && inputs.Length == cfg.plan.totalInputs && PlanShape(cfg.plan)
      modifies inputs
      ensures inputs[..] == Gathered(cfg.plan, old(State()), i)
    {
      var step := cfg.plan.steps[i];
      for p := 0 to |step.deps|
        invariant forall c :: 0 <= c < inputs.Length && !(step.inputOffset <= c < step.inputOffset + p) ==>
          inputs[c] == old(inputs[c])
        invariant forall q :: 0 <= q < p ==> inputs[step.inputOffset + q] == steps[step.deps[q]].value
      {
        inputs[step.inputOffset + p] := steps[step.deps[p]].value;
      }
    }

    /** Gather a step's inputs and mark it running. */
    method Prepare(i: nat)
      requires i < |cfg.plan.steps| == |steps| && inputs.Length == cfg.plan.totalInputs && PlanShape(cfg.plan)
      modifies this`steps, inputs
      ensures State() == RunModel.Prepare(cfg.plan, old(State()), i)
    {
      Gather(i);
      steps := steps[i := steps[i].(state := Running)];
    }

    method LaunchNext()
      requires launched < |ready| && ready[launched] < |cfg.plan.steps|
      requires |steps| == |cfg.plan.steps| && inputs.Length == cfg.plan.totalInputs && PlanShape(cfg.plan)
      modifies this`steps, inputs, this`inflight, this`launched, this`going, this`holding, this`clock
      ensures State() == Launch(cfg.plan, old(State()))
    {
      var i := ready[launched];
      Prepare(i);
      Hand(i);
    }

    /** Step i goes to a goroutine of its own, with a slot. */
    method Hand(i: nat)
      modifies this`inflight, this`launched, this`going, this`holding, this`clock
      ensures State() == old(State()).(inflight := old(inflight) + 1, launched := old(launched) + 1,
        going := old(going) + {i}, holding := old(holding) + {i}, clock := old(clock) + 1)
    {
      inflight := inflight + 1;
      going, holding := going + {i}, holding + {i};
      launched, clock := launched + 1, clock + 1;
    }

    /** A slot may be free or not; without a pool there is always room. */
    method TryTake() returns (free: bool)
      ensures free || cfg.shared
    {
      if !cfg.shared {
        return true;
      }
      free := *;
    }

    method SupplyInputs()
      requires State() == Initial(cfg) && PlanShape(cfg.plan)
      modifies this
      ensures State() == Begin(cfg)
    {
      for k := 0 to |cfg.plan.inputs|
        invariant |steps| == |unmet| == |cfg.plan.steps|
        invariant SupplyFrom(cfg, State(), k) == Begin(cfg)
      {
        SupplyNext(k);
      }
      SupplyEnds(cfg, State());
      QueueRoots();
    }

    method QueueRoots()
      modifies this`ready
      ensures State() == old(State()).(ready := old(ready) + cfg.plan.roots)
    {
      ready := ready + cfg.plan.roots;
    }

    /** Record the k-th declared input. */
    method SupplyNext(k: nat)
      requires k < |cfg.plan.inputs| && PlanShape(cfg.plan) && |steps| == |unmet| == |cfg.plan.steps|
      modifies this`steps, this`stopped, this`failedStep, this`deadline, this`unmet, this`ready
      ensures |steps| == |unmet| == |cfg.plan.steps|
      ensures SupplyFrom(cfg, State(), k + 1) == SupplyFrom(cfg, old(State()), k)
    {
      var input := cfg.plan.inputs[k];
      HandleCompletion(Completion(input.step, Supply(cfg.supplied, input)));
    }

    // ------------------------------------------------------------------ moves of a run

    /** What each move needs to know of where the run stands. */
    ghost predicate Ready()
      reads this, inputs
    {
      Shape(cfg, State()) && Budget(cfg, State()) >= 0
    }

    /** Where a run stands, its indices are in range and its fuel is not spent. */
    lemma OnRunHasShape()
      requires OnRun()
      ensures Ready() && inputs.Length == cfg.plan.totalInputs && 0 <= Fuel(cfg, State())
    {
      ShapeAt(cfg, trace, |trace| - 1);
      FuelSoundAt(cfg, trace, |trace| - 1);
    }

    /** Note a move that has just been made. */
    ghost method Note(e: Event, free: bool)
      requires cfg.plan.WellFormed() && IsRun(cfg, trace) && Budget(cfg, trace[|trace| - 1]) >= 0
      requires Moves(cfg, trace[|trace| - 1], e, free, State())
      modifies this`trace
      ensures OnRun() && trace == old(trace) + [State()]
      ensures Fuel(cfg, State()) < Fuel(cfg, old(trace)[|old(trace)| - 1])
    {
      MovesBurnFuel(cfg, trace[|trace| - 1], e, free, State());
      RunExtends(cfg, trace, State());
      trace := trace + [State()];
    }

    /** Run step i's node under its policy, on what its window holds. It may not
        come back. */
    method CallNode(i: nat) returns (r: Option<ResultValue>)
      requires Shape(cfg, State()) && |cfg.plan.inputs| <= i < |cfg.plan.steps|
      ensures r.Some? ==> StepReturns(cfg, State(), i, r.value)
    {
      var step := cfg.plan.steps[i];
      var w := inputs[step.inputOffset..step.inputOffset + |step.deps|];
      assert w == Window(cfg.plan, State(), i);
      var world := Retries.Outside(step.node.value, w);
      var end, _ := Retries.RunStep(step.node.value, step.retry, w, world);
      if end.Returns? {
        Retries.StepMayReturn(step.node.value, step.retry, w, world, end);
        return Some(end.result);
      }
      return None;
    }

    /** Start the next ready step, holding a slot already. */
    method Start(e: Event)
      requires OnRun() && Ready() && e in {PumpLaunch, SelectSlot} && Enabled(cfg, State(), e, true)
      modifies this, inputs
      ensures OnRun() && old(trace) < trace
      ensures Fuel(cfg, State()) < old(Fuel(cfg, State()))
      ensures pc == (if e == PumpLaunch then Pumping else Top) && stopped == old(stopped)
    {
      LaunchMove(e);
      Note(e, true);
    }

    method LaunchMove(e: Event)
      requires Shape(cfg, State()) && e in {PumpLaunch, SelectSlot} && Enabled(cfg, State(), e, true)
      modifies this`steps, inputs, this`inflight, this`launched, this`going, this`holding, this`clock, this`pc
      ensures Moves(cfg, old(State()), e, true, State())
      ensures pc == (if e == PumpLaunch then Pumping else Top)
    {
      ghost var before := State();
      LaunchNext();
      ghost var after := State();
      if e == SelectSlot {
        pc := Top;
      }
      LaunchMoves(cfg, before, e, after);
    }

    /** Launch from the queue until a cap or the pool says no; `full` says it was the
        pool. */
    method Pump() returns (full: bool)
      requires OnRun() && pc == Pumping
      modifies this, inputs
      ensures OnRun() && old(trace) <= trace && pc == Pumping
      ensures Fuel(cfg, State()) <= old(Fuel(cfg, State()))
      ensures full ==> cfg.shared
      ensures stopped || !CanStart(cfg, State()) || full
      ensures stopped || launched == |ready| || full ||
        inflight >= if cfg.maxConcurrency > 0 then cfg.maxConcurrency else 256
    {
      if stopped {
        return false;
      }
      while launched < |ready| && inflight < cfg.Limit()
        invariant OnRun() && old(trace) <= trace && pc == Pumping && !stopped
        invariant Fuel(cfg, State()) <= old(Fuel(cfg, State()))
        decreases Fuel(cfg, State())
      {
        OnRunHasShape();
        var free := TryTake();
        if !free {
          return true;
        }
        Start(PumpLaunch);
      }
      OnRunHasShape();
      return false;
    }

    // ------------------------------------------------------------------------- inlining

    method EnterNext()
      requires launched < |ready| && ready[launched] < |cfg.plan.steps|
      requires |steps| == |cfg.plan.steps| && inputs.Length == cfg.plan.totalInputs && PlanShape(cfg.plan)
      modifies this`steps, inputs, this`launched, this`holding, this`clock, this`pc
      ensures State() == RunModel.Prepare(cfg.plan, old(State()), old(ready[launched])).(
        launched := old(launched) + 1, holding := old(holding) + {old(ready[launched])},
        clock := old(clock) + 1, pc := Inlining(old(ready[launched])))
    {
      var i := ready[launched];
      launched := launched + 1;
      Prepare(i);
      holding, clock, pc := holding + {i}, clock + 1, Inlining(i);
    }

    method EnterInline() returns (i: nat)
      requires OnRun() && Ready() && Enabled(cfg, State(), InlineStart, true)
      modifies this, inputs
      ensures OnRun() && old(trace) < trace && pc == Inlining(i)
      ensures Fuel(cfg, State()) < old(Fuel(cfg, State()))
    {
      ghost var before := State();
      i := ready[launched];
      EnterNext();
      assert State() == Apply(cfg, before, InlineStart, true);
      Note(InlineStart, true);
    }

    method Leave(i: nat, result: ResultValue)
      requires i < |steps| == |cfg.plan.steps| == |unmet| && cfg.plan.IndicesInRange()
      modifies this`steps, this`stopped, this`failedStep, this`deadline, this`unmet, this`ready
      modifies this`holding, this`clock, this`pc
      ensures State() == Handle(cfg.plan, old(State()).(holding := old(holding) - {i}), Completion(i, result))
        .(clock := old(clock) + 1, pc := Top)
    {
      holding := holding - {i};
      HandleCompletion(Completion(i, result));
      BackToTop();
    }

    /** The event has been dealt with. */
    method BackToTop()
      modifies this`clock, this`pc
      ensures State() == old(State()).(clock := old(clock) + 1, pc := Top)
    {
      clock, pc := clock + 1, Top;
    }

    method LeaveInline(i: nat, result: ResultValue)
      requires OnRun() && Ready() && pc == Inlining(i) && StepReturns(cfg, State(), i, result)
      modifies this, inputs
      ensures OnRun() && old(trace) < trace && pc == Top
      ensures Fuel(cfg, State()) < old(Fuel(cfg, State()))
    {
      ghost var before := State();
      Leave(i, result);
      InlineEndMoves(cfg, before, i, result, State());
      Note(InlineEnd(result), true);
    }

    ghost method SkipInline(free: bool)
      requires OnRun() && Ready() && Enabled(cfg, State(), InlineSkip, free) && (free || cfg.shared)
      modifies this`pc, this`trace
      ensures OnRun() && old(trace) < trace && pc == Pumping
      ensures Fuel(cfg, State()) < old(Fuel(cfg, State()))
    {
      ghost var before := State();
      pc := Pumping;
      assert Moves(cfg, before, InlineSkip, free, State());
      Note(InlineSkip, free);
    }

    /** The shortcut for a lone step: the coordinator executes it itself and is caught
        inside a node that does not come back. */
    method TryInline() returns (r: Inlined)
      requires OnRun() && pc == Top
      modifies this, inputs
      ensures OnRun() && old(trace) < trace
      ensures Fuel(cfg, State()) < old(Fuel(cfg, State()))
      ensures match r
        case NotTried => pc == Pumping
        case Ran => pc == Top
        case Stuck => Waits(State())
    {
      OnRunHasShape();
      if !cfg.inline || stopped || inflight != 0 || |ready| - launched != 1 {
        SkipInline(true);
        return NotTried;
      }
      var free := TryTake();
      if !free {
        SkipInline(false);
        return NotTried;
      }
      var i := EnterInline();
      r := RunInline(i);
    }

    method RunInline(i: nat) returns (r: Inlined)
      requires OnRun() && pc == Inlining(i)
      modifies this, inputs
      ensures OnRun() && old(trace) <= trace
      ensures Fuel(cfg, State()) <= old(Fuel(cfg, State()))
      ensures (r == Ran && pc == Top) || (r == Stuck && Waits(State()))
    {
      OnRunHasShape();
      StopsAt(cfg, trace, |trace| - 1);
      InlinedComputes(cfg, trace, |trace| - 1);
      var result := CallNode(i);
      if result.None? {
        return Stuck;
      }
      LeaveInline(i, result.value);
      return Ran;
    }

    // --------------------------------------------------------------- the other goroutines

    method Put(c: Completion)
      modifies this`going, this`done
      ensures State() == old(State()).(going := old(going) - {c.index}, done := old(done) + [c])
    {
      going, done := going - {c.index}, done + [c];
    }

    /** A step goroutine sends its completion. */
    method SendFrom(i: nat, result: ResultValue)
      requires OnRun() && Ready() && i in going && StepReturns(cfg, State(), i, result)
      modifies this, inputs
      ensures OnRun() && old(trace) < trace && pc == old(pc)
      ensures Fuel(cfg, State()) < old(Fuel(cfg, State()))
      ensures State() == old(State()).(going := old(going) - {i}, done := old(done) + [Completion(i, result)])
    {
      ghost var before := State();
      Put(Completion(i, result));
      assert State() == Apply(cfg, before, Send(i, result), true);
      Note(Send(i, result), true);
    }

    /** A step goroutine gives its slot back, after its completion. */
    method GiveBack(i: nat)
      requires OnRun() && Ready() && i in holding && i !in going && !pc.Inlining?
      modifies this, inputs
      ensures OnRun() && old(trace) < trace && pc == old(pc)
      ensures Fuel(cfg, State()) < old(Fuel(cfg, State()))
      ensures State() == old(State()).(holding := old(holding) - {i})
    {
      ghost var before := State();
      holding := holding - {i};
      assert State() == Apply(cfg, before, ReleaseSlot(i), true);
      Note(ReleaseSlot(i), true);
    }

    /** Whatever the step goroutines do while the coordinator is blocked. Their moves
        at other times are not seen before it blocks again. */
    method Meanwhile()
      requires OnRun() && pc == Selecting
      modifies this, inputs
      ensures OnRun() && old(trace) <= trace && pc == Selecting
      ensures Fuel(cfg, State()) <= old(Fuel(cfg, State()))
    {
      var moved := true;
      while moved
        invariant OnRun() && old(trace) <= trace && pc == Selecting
        invariant Fuel(cfg, State()) <= old(Fuel(cfg, State()))
        decreases moved, Fuel(cfg, State())
      {
        OnRunHasShape();
        moved := OneMoves();
      }
    }

    /** Some step goroutine moves on, if one can. */
    method OneMoves() returns (moved: bool)
      requires OnRun() && pc == Selecting
      modifies this, inputs
      ensures OnRun() && old(trace) <= trace && pc == Selecting
      ensures Fuel(cfg, State()) <= old(Fuel(cfg, State()))
      ensures moved ==> Fuel(cfg, State()) < old(Fuel(cfg, State()))
    {
      OnRunHasShape();
      var i: nat :| true;
      if i in going {
        moved := Finish(i);
      } else if i in holding {
        GiveBack(i);
        moved := true;
      } else {
        moved := false;
      }
    }

    /** The node of a step that is going comes back, or does not. */
    method Finish(i: nat) returns (moved: bool)
      requires OnRun() && pc == Selecting && i in going
      modifies this, inputs
      ensures OnRun() && old(trace) <= trace && pc == Selecting
      ensures Fuel(cfg, State()) <= old(Fuel(cfg, State()))
      ensures moved ==> Fuel(cfg, State()) < old(Fuel(cfg, State()))
    {
      OnRunHasShape();
      GoingComputes(cfg, trace, |trace| - 1, i);
      var result := CallNode(i);
      moved := result.Some?;
      if moved {
        SendFrom(i, result.value);
      }
    }

    // ------------------------------------------------------------------------- the select

    /** The pool arm is enabled. */
    method WaitingOnPool() returns (waiting: bool)
      ensures waiting <==> WaitingOn(cfg, State())
      ensures waiting <==>
        cfg.shared && !stopped && launched < |ready| &&
        inflight < if cfg.maxConcurrency > 0 then cfg.maxConcurrency else 256
    {
      waiting := !stopped && launched < |ready| && inflight < cfg.Limit() && cfg.shared;
    }

    method Receive()
      requires done != [] && done[0].index < |steps| == |cfg.plan.steps| == |unmet| && cfg.plan.IndicesInRange()
      modifies this`steps, this`stopped, this`failedStep, this`deadline, this`unmet, this`ready
      modifies this`inflight, this`done, this`clock, this`pc
      ensures State() ==
        Handle(cfg.plan, old(State()).(inflight := old(inflight) - 1, done := old(done)[1..]), old(done)[0])
        .(clock := old(clock) + 1, pc := Top)
    {
      var c := done[0];
      inflight, done := inflight - 1, done[1..];
      HandleCompletion(c);
      BackToTop();
    }

    method ReceiveMove()
      requires Shape(cfg, State()) && pc == Selecting && done != []
      modifies this`steps, this`stopped, this`failedStep, this`deadline, this`unmet, this`ready
      modifies this`inflight, this`done, this`clock, this`pc
      ensures Moves(cfg, old(State()), SelectDone, true, State()) && pc == Top
    {
      ghost var before := State();
      Receive();
      DoneMoves(cfg, before, State());
    }

    method TakeDone()
      requires OnRun() && Ready() && pc == Selecting && done != []
      modifies this, inputs
      ensures OnRun() && old(trace) < trace && pc == Top
      ensures Fuel(cfg, State()) < old(Fuel(cfg, State()))
    {
      ReceiveMove();
      Note(SelectDone, true);
    }

    /** The caller's context ended; the arm is disabled from then on. */
    method CallerDone()
      modifies this`callerPending, this`stopped, this`cancelled, this`deadline, this`clock, this`pc
      ensures State() == CallerEnded(old(State()))
    {
      Cancel();
      WindDown();
      BackToTop();
    }

    method Cancel()
      modifies this`callerPending, this`stopped, this`cancelled
      ensures State() == old(State()).(callerPending := false, stopped := true,
        cancelled := old(cancelled) || !old(stopped))
    {
      callerPending := false;
      if !stopped {
        stopped := true;
        cancelled := true;
      }
    }

    method TakeCaller()
      requires OnRun() && Ready() && pc == Selecting && callerPending
      modifies this, inputs
      ensures OnRun() && old(trace) < trace && pc == Top
      ensures Fuel(cfg, State()) < old(Fuel(cfg, State()))
      ensures State() == CallerEnded(old(State()))
    {
      ghost var before := State();
      CallerDone();
      assert State() == Apply(cfg, before, SelectCaller, true);
      Note(SelectCaller, true);
    }

    ghost method Abandon()
      requires OnRun() && Ready() && pc == Selecting && deadline.Some?
      modifies this`pc, this`trace
      ensures OnRun() && old(trace) < trace && pc == Returned(true)
      ensures Fuel(cfg, State()) < old(Fuel(cfg, State()))
    {
      ghost var before := State();
      pc := Returned(true);
      assert State() == Apply(cfg, before, SelectAbandon, true);
      Note(SelectAbandon, true);
    }

    /** Block until some arm can be taken, and take any one that can. The caller may
        or may not have ended; a completion in the channel is there to be received; a
        timer that is armed fires sooner or later, so nothing blocks for ever on it. */
    method Select() returns (r: Selected)
      requires OnRun() && pc == Selecting
      modifies this, inputs
      ensures OnRun() && old(trace) <= trace
      ensures r == Handled ==> pc == Top && Fuel(cfg, State()) < old(Fuel(cfg, State()))
      ensures r == Abandoned ==> pc == Returned(true)
      ensures r == Blocked ==> done == [] && deadline.None? && Waits(State())
    {
      Meanwhile();
      OnRunHasShape();
      StopsAt(cfg, trace, |trace| - 1);
      var arm: nat :| true;
      var waiting := WaitingOnPool();
      var free := TryTake();
      if arm == 0 && waiting && free {
        Start(SelectSlot);
        return Handled;
      } else if arm == 1 && callerPending {
        TakeCaller();
        return Handled;
      } else if arm == 2 && deadline.Some? {
        Abandon();
        return Abandoned;
      } else if done != [] {
        TakeDone();
        return Handled;
      } else if deadline.Some? {
        Abandon();
        return Abandoned;
      }
      return Blocked;
    }

    /** Having pumped: return if nothing is running and nothing startable, else
        block. */
    method Settle(full: bool) returns (finished: bool)
      requires OnRun() && pc == Pumping && (full ==> cfg.shared)
      requires stopped || !CanStart(cfg, State()) || full
      modifies this, inputs
      ensures OnRun() && old(trace) < trace
      ensures Fuel(cfg, State()) < old(Fuel(cfg, State()))
      ensures pc == if finished then Returned(false) else Selecting
      ensures State() == old(State()).(pc := pc)
      ensures finished <==> old(inflight) == 0 && !WaitingOn(cfg, old(State()))
    {
      OnRunHasShape();
      var waiting := WaitingOnPool();
      finished := inflight == 0 && !waiting;
      ghost var before := State();
      pc := if finished then Returned(false) else Selecting;
      PumpStopMoves(cfg, before, !full, finished);
      Note(PumpStop, !full);
    }

    /** Drive the run: to its end, to giving up, or to a point where it waits for
        something that does not happen. */
    method Loop() returns (end: LoopEnd)
      requires OnRun() && pc == Top
      modifies this, inputs
      ensures OnRun() && old(trace) <= trace
      ensures end == Finished ==> pc == Returned(false)
      ensures end == GaveUp ==> pc == Returned(true)
      ensures end == StillWaiting ==> Waits(State())
      ensures end != GoesOn
    {
      end := GoesOn;
      while end == GoesOn
        invariant OnRun() && old(trace) <= trace && (end == GoesOn ==> pc == Top)
        invariant end == Finished ==> pc == Returned(false)
        invariant end == GaveUp ==> pc == Returned(true)
        invariant end == StillWaiting ==> Waits(State())
        decreases end == GoesOn, Fuel(cfg, State())
      {
        OnRunHasShape();
        end := Turn();
      }
    }

    /** Once round the loop. */
    method Turn() returns (end: LoopEnd)
      requires OnRun() && pc == Top
      modifies this, inputs
      ensures OnRun() && old(trace) <= trace
      ensures end == GoesOn ==> pc == Top && Fuel(cfg, State()) < old(Fuel(cfg, State()))
      ensures end == Finished ==> pc == Returned(false)
      ensures end == GaveUp ==> pc == Returned(true)
      ensures end == StillWaiting ==> Waits(State())
    {
      var inlined := TryInline();
      if inlined == Stuck {
        return StillWaiting;
      }
      if inlined == Ran {
        return GoesOn;
      }
      end := PumpAndSelect();
    }

    /** The rest of the turn, when nothing was inlined. */
    method PumpAndSelect() returns (end: LoopEnd)
      requires OnRun() && pc == Pumping
      modifies this, inputs
      ensures OnRun() && old(trace) <= trace
      ensures end == GoesOn ==> pc == Top && Fuel(cfg, State()) < old(Fuel(cfg, State()))
      ensures end == Finished ==> pc == Returned(false)
      ensures end == GaveUp ==> pc == Returned(true)
      ensures end == StillWaiting ==> Waits(State())
    {
      var full := Pump();
      var finished := Settle(full);
      if finished {
        return Finished;
      }
      var selected := Select();
      if selected == Abandoned {
        return GaveUp;
      }
      return if selected == Handled then GoesOn else StillWaiting;
    }

    // --------------------------------------------------------------------------- the end

    /** Settle the states the loop could not. */
    method FinalizeRun(abandoned: bool) returns (ex: Execution)
      requires |steps| == |cfg.plan.steps| && pc == Returned(abandoned)
      modifies this`steps, this`cancelled
      ensures ex == Finalize(cfg.plan, old(State()))
    {
      var count := 0;
      if abandoned {
        count := SettleRunning();
        if !(failedStep >= 0 || cancelled) {
          cancelled := true;
        }
      }
      SkipPending();
      ex := Execution(steps, failedStep, cancelled, count);
    }

    /** Every step still running is cancelled and counted. */
    method SettleRunning() returns (count: nat)
      requires |steps| == |cfg.plan.steps|
      modifies this`steps
      ensures count == CountRunning(old(steps)) && |steps| == |old(steps)|
      ensures forall i :: 0 <= i < |steps| ==>
        steps[i] == if old(steps)[i].state.Running?
                    then old(steps)[i].(state := Cancelled, err := Some(AbandonedErr(cfg.plan.steps[i])))
                    else old(steps)[i]
    {
      count := 0;
      ghost var before := steps;
      for i := 0 to |steps|
        invariant |steps| == |before| && count == CountRunning(before[..i])
        invariant forall j :: i <= j < |steps| ==> steps[j] == before[j]
        invariant forall j :: 0 <= j < i ==>
          steps[j] == if before[j].state.Running?
                      then before[j].(state := Cancelled, err := Some(AbandonedErr(cfg.plan.steps[j])))
                      else before[j]
      {
        assert before[..i + 1][..i] == before[..i];
        if steps[i].state.Running? {
          steps := steps[i := steps[i].(state := Cancelled, err := Some(AbandonedErr(cfg.plan.steps[i])))];
          count := count + 1;
        }
      }
      assert before[..|before|] == before;
    }

    /** Whatever never started is skipped. */
    method SkipPending()
      modifies this`steps
      ensures |steps| == |old(steps)|
      ensures forall i :: 0 <= i < |steps| ==>
        steps[i] == if old(steps)[i].state.Pending? then old(steps)[i].(state := Skipped) else old(steps)[i]
    {
      ghost var before := steps;
      for i := 0 to |steps|
        invariant |steps| == |before|
        invariant forall j :: i <= j < |steps| ==> steps[j] == before[j]
        invariant forall j :: 0 <= j < i ==>
          steps[j] == if before[j].state.Pending? then before[j].(state := Skipped) else before[j]
      {
        if steps[i].state.Pending? {
          steps := steps[i := steps[i].(state := Skipped)];
        }
      }
    }

    /** Record the inputs; from here on there is a run. */
    method SupplyAll()
      requires State() == Initial(cfg) && cfg.plan.WellFormed() && PlanShape(cfg.plan)
      modifies this, inputs
      ensures OnRun() && pc == Top
    {
      SupplyInputs();
      trace := [State()];
      BeginsAtTop(cfg);
    }

    method Conclude(abandoned: bool) returns (ex: Execution)
      requires OnRun() && pc == Returned(abandoned)
      modifies this`steps, this`cancelled
      ensures Concludes(cfg, trace[|trace| - 1], ex)
    {
      OnRunHasShape();
      ex := FinalizeRun(abandoned);
      if !ex.Failed() {
        Completeness(cfg, trace, |trace| - 1);
      }
    }

    /** From the start to wherever the loop ends. */
    method Drive() returns (end: LoopEnd)
      requires State() == Initial(cfg) && cfg.plan.WellFormed()
      modifies this, inputs
      ensures OnRun() && end != GoesOn
      ensures end == Finished ==> pc == Returned(false)
      ensures end == GaveUp ==> pc == Returned(true)
      ensures end == StillWaiting ==> Waits(trace[|trace| - 1])
    {
      WellFormedHasShape(cfg.plan);
      SupplyAll();
      end := Loop();
    }

    /** What to report, given how the loop ended. */
    method Answer(end: LoopEnd) returns (ex: Option<Execution>)
      requires OnRun() && end != GoesOn
      requires end == Finished ==> pc == Returned(false)
      requires end == GaveUp ==> pc == Returned(true)
      requires end == StillWaiting ==> Waits(trace[|trace| - 1])
      modifies this`steps, this`cancelled
      ensures Accounts(cfg, trace, ex)
    {
      if end == StillWaiting {
        return None;
      }
      var result := Conclude(end == GaveUp);
      return Some(result);
    }
  }

  datatype Inlined = NotTried | Ran | Stuck

  datatype Selected = Handled | Abandoned | Blocked

  datatype LoopEnd = GoesOn | Finished | GaveUp | StillWaiting

  /** Run a plan once. The result is what the model says of a run that got where this
      one did, so a result that is no failure has every step succeeded; without one,
      the run is still waiting for a node or for a slot. */
  method Run(cfg: Config) returns (ex: Option<Execution>, ghost trace: seq<RunState>)
    requires cfg.plan.WellFormed()
    ensures IsRun(cfg, trace)
    ensures ex.Some? ==> Concludes(cfg, trace[|trace| - 1], ex.value)
    ensures ex.None? ==> Waits(trace[|trace| - 1])
  {
    WellFormedHasShape(cfg.plan);
    var c := new Coordinator(cfg);
    var end := c.Drive();
    ex := c.Answer(end);
    trace := c.trace;
    assert Accounts(cfg, trace, ex);
  }
}
