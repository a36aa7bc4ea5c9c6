/** Supplying the inputs establishes the coordinator's invariant. */
module RunStart {
  import opened Collections
  import opened Nodes
  import opened Pipeline
  import opened RunModel
  import opened RunReadiness
  import opened RunInvariant

  /** Nothing is supplied under the input's name, or a value of another type. */
  ghost predicate BadInput(cfg: Config, j: nat)
    requires j < |cfg.plan.inputs|
  {
    var input := cfg.plan.inputs[j];
    input.name !in cfg.supplied || cfg.supplied[input.name].typ != input.typ
  }

  /** The record of a declared input: the value supplied under its name if that is of its
      type, and otherwise what is wrong with it. */
  ghost predicate InputRecorded(cfg: Config, steps: seq<StepResult>, j: nat)
    requires j < |cfg.plan.inputs| && j < |steps|
  {
    var input := cfg.plan.inputs[j];
    steps[j] ==
      if input.name !in cfg.supplied then
        StepResult(Failed, ZERO_VALUE, Some(Error(InvalidInput, "input_missing", false)))
      else if cfg.supplied[input.name].typ != input.typ then
        StepResult(Failed, ZERO_VALUE, Some(Error(InvalidInput, "input_type", false)))
      else StepResult(Succeeded, cfg.supplied[input.name], None)
  }

  /** Nothing has been scheduled yet. */
  ghost predicate Idle(cfg: Config, s: RunState) {
    && s.launched == 0 && s.inflight == 0 && s.going == {} && s.done == [] && s.holding == {}
    && s.pc == Top && s.clock == 0 && s.callerPending && !s.cancelled
    && |s.inputs| == cfg.plan.totalInputs
  }

  /** The first k inputs are recorded. */
  ghost predicate Supplying(cfg: Config, s: RunState, k: nat) {
    && PlanShape(cfg.plan)
    && k <= |cfg.plan.inputs| && |s.steps| == |s.unmet| == |cfg.plan.steps|
    && Readiness(cfg.plan, s.steps, s.unmet, s.ready, s.stopped, false)
    && Idle(cfg, s)
    && (forall j :: 0 <= j < k ==> InputRecorded(cfg, s.steps, j))
    && (forall j :: k <= j < |s.steps| ==> s.steps[j] == StepResult(Pending, ZERO_VALUE, None))
    && (s.deadline.Some? <==> s.stopped)
    && (s.stopped <==> s.failedStep >= 0)
    && (s.stopped <==> exists j :: 0 <= j < k && s.steps[j].err.Some?)
    && (s.failedStep >= 0 ==> s.failedStep < k && s.steps[s.failedStep].err.Some?)
  }

  lemma InitialSupplying(cfg: Config)
    requires PlanShape(cfg.plan)
    ensures Supplying(cfg, Initial(cfg), 0)
  {
    var s := Initial(cfg);
    forall i: nat | i < |cfg.plan.steps|
      ensures Outstanding(cfg.plan.steps[i].deps, s.steps) == |cfg.plan.steps[i].deps|
      ensures cfg.plan.steps[i].deps != [] ==> !AllDone(cfg.plan.steps[i].deps, s.steps)
    {
      OutstandingAll(cfg.plan.steps[i].deps, s.steps);
      OutstandingZero(cfg.plan.steps[i].deps, s.steps);
    }
  }

  lemma SupplyOne(cfg: Config, s: RunState, k: nat)
    requires cfg.plan.Transposed() && Supplying(cfg, s, k) && k < |cfg.plan.inputs|
    ensures var c := Completion(cfg.plan.inputs[k].step, Supply(cfg.supplied, cfg.plan.inputs[k]));
      Supplying(cfg, Handle(cfg.plan, s, c), k + 1)
  {
    var c := Completion(cfg.plan.inputs[k].step, Supply(cfg.supplied, cfg.plan.inputs[k]));
    var s' := Handle(cfg.plan, s, c);
    HandleKeepsReadiness(cfg.plan, s, c, false);
    assert InputRecorded(cfg, s'.steps, k);
    forall j | 0 <= j < k
      ensures InputRecorded(cfg, s'.steps, j) && s'.steps[j] == s.steps[j]
    {
      assert InputRecorded(cfg, s.steps, j);
    }
    if s.stopped {
      var j :| 0 <= j < k && s.steps[j].err.Some?;
      assert s'.steps[j].err.Some?;
    } else if c.result.Err? {
      assert s'.steps[k].err.Some?;
    }
  }

  lemma {:induction false} SupplyAll(cfg: Config, s: RunState, k: nat) returns (last: RunState)
    requires cfg.plan.Transposed() && Supplying(cfg, s, k)
    ensures Supplying(cfg, last, |cfg.plan.inputs|)
    ensures SupplyFrom(cfg, s, k) == last.(ready := last.ready + cfg.plan.roots)
    decreases |cfg.plan.inputs| - k
  {
    if k == |cfg.plan.inputs| {
      last := s;
    } else {
      SupplyOne(cfg, s, k);
      var c := Completion(cfg.plan.inputs[k].step, Supply(cfg.supplied, cfg.plan.inputs[k]));
      last := SupplyAll(cfg, Handle(cfg.plan, s, c), k + 1);
    }
  }

  lemma RootsJoin(plan: ExecutionPlan, steps: seq<StepResult>, unmet: seq<int>, ready: seq<nat>, stopped: bool)
    requires |steps| == |plan.steps| == |unmet| && plan.RootsExact()
    requires Readiness(plan, steps, unmet, ready, stopped, false)
    ensures Readiness(plan, steps, unmet, ready + plan.roots, stopped, true)
  {
    assert forall i :: i in plan.roots ==> plan.steps[i].deps == [];
    assert forall k :: 0 <= k < |ready| ==> ready[k] in ready;
    assert forall k :: 0 <= k < |plan.roots| ==> plan.roots[k] in plan.roots;
  }

  /** What a run starts from: the invariant holds, each input is recorded
      as supplied or as what is wrong with it, and the run has stopped exactly if some
      input is bad. */
  lemma BeginHasInv(cfg: Config, good: ValueProperty)
    requires cfg.plan.WellFormed() && PlanShape(cfg.plan) && Hereditary(cfg, good)
    ensures Inv(cfg, good, Begin(cfg))
    ensures Begin(cfg).launched == 0
    ensures forall j :: 0 <= j < |cfg.plan.inputs| ==> InputRecorded(cfg, Begin(cfg).steps, j)
    ensures Begin(cfg).stopped <==> exists j :: 0 <= j < |cfg.plan.inputs| && BadInput(cfg, j)
  {
    InitialSupplying(cfg);
    var last := SupplyAll(cfg, Initial(cfg), 0);
    JoinHasInv(cfg, good, last);
    StopsOnBadInput(cfg, last.steps);
  }

  lemma StopsOnBadInput(cfg: Config, steps: seq<StepResult>)
    requires |cfg.plan.inputs| <= |steps|
    requires forall j :: 0 <= j < |cfg.plan.inputs| ==> InputRecorded(cfg, steps, j)
    ensures (exists j :: 0 <= j < |cfg.plan.inputs| && steps[j].err.Some?) <==>
      exists j :: 0 <= j < |cfg.plan.inputs| && BadInput(cfg, j)
  {
    forall j | 0 <= j < |cfg.plan.inputs|
      ensures steps[j].err.Some? <==> BadInput(cfg, j)
    {
      assert InputRecorded(cfg, steps, j);
    }
  }

  lemma JoinHasInv(cfg: Config, good: ValueProperty, last: RunState)
    requires cfg.plan.RootsExact() && Hereditary(cfg, good)
    requires Supplying(cfg, last, |cfg.plan.inputs|)
    ensures Inv(cfg, good, last.(ready := last.ready + cfg.plan.roots))
  {
    var s := last.(ready := last.ready + cfg.plan.roots);
    RootsJoin(cfg.plan, last.steps, last.unmet, last.ready, last.stopped);
    forall i | 0 <= i < |s.steps|
      ensures StepPhase(cfg.plan, s, i)
      ensures s.steps[i].state.Succeeded? ==> good(i, s.steps[i].value)
    {
      if i < |cfg.plan.inputs| {
        assert InputRecorded(cfg, last.steps, i);
      }
    }
    assert forall k :: 0 <= k < |s.ready| ==> s.ready[k] in s.ready;
    assert forall i :: !Active(s, i);
  }
}
