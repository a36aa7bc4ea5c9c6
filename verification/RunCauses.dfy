/** What a run records of a step that computes is what the step's body did with what the
    run records of the steps it consumes: nothing is made up on the way, and nothing is
    swapped. */
module RunCauses {
  import opened Collections
  import opened Nodes
  import opened Pipeline
  import opened RunModel
  import opened RunReadiness
  import opened RunInvariant
  import RunStart
  import opened RunTheorems
  import opened RunValues

  /** args is the data recorded of the steps that step i consumes, port by port. */
  ghost predicate FedWith(plan: ExecutionPlan, steps: seq<StepResult>, i: nat, args: seq<Data>) {
    && i < |plan.steps| && |args| == |plan.steps[i].deps|
    && forall p :: 0 <= p < |args| ==> FedAt(steps, plan.steps[i].deps[p], args[p])
  }

  ghost predicate FedAt(steps: seq<StepResult>, d: nat, arg: Data) {
    d < |steps| && steps[d].state.Succeeded? && steps[d].value.ref.Ref? && steps[d].value.ref.data == arg
  }

  /** The body of step i, called with args, may do o, and r is that outcome handed on. */
  ghost predicate DoneWith(plan: ExecutionPlan, i: nat, args: seq<Data>, o: Outcome, r: ResultValue) {
    && i < |plan.steps| && plan.steps[i].node.Some?
    && Does(plan.steps[i].node.value, args, o)
    && HandsOn(o, plan.steps[i].node.value.Describe().output.typ, r)
  }

  /** A result of step i has its cause: a cancellation, or what the body did with the data
      recorded of the steps it consumes. */
  ghost predicate Caused(plan: ExecutionPlan, steps: seq<StepResult>, i: nat, r: ResultValue) {
    || (r.Err? && r.err.kind.KindCancelled?)
    || exists args, o: Outcome :: FedWith(plan, steps, i, args) && DoneWith(plan, i, args, o, r)
  }

  /** The record of step i has its cause. */
  ghost predicate RecordCaused(plan: ExecutionPlan, steps: seq<StepResult>, i: nat)
    requires i < |steps|
  {
    && (steps[i].state.Succeeded? ==> Caused(plan, steps, i, Ok(steps[i].value)))
    && (steps[i].err.Some? ==> Caused(plan, steps, i, Err(steps[i].err.value)))
  }

  ghost predicate Causes(plan: ExecutionPlan, s: RunState) {
    && (forall i :: |plan.inputs| <= i < |s.steps| ==> RecordCaused(plan, s.steps, i))
    && (forall k :: 0 <= k < |s.done| ==> Caused(plan, s.steps, s.done[k].index, s.done[k].result))
  }

  /** Successes are recorded for good. */
  ghost predicate SuccessesStay(before: seq<StepResult>, after: seq<StepResult>) {
    |before| == |after| && forall j :: 0 <= j < |before| && before[j].state.Succeeded? ==> after[j] == before[j]
  }

  lemma CauseStays(plan: ExecutionPlan, before: seq<StepResult>, after: seq<StepResult>, i: nat, r: ResultValue)
    requires SuccessesStay(before, after) && Caused(plan, before, i, r)
    ensures Caused(plan, after, i, r)
  {
    if !(r.Err? && r.err.kind.KindCancelled?) {
      var args, o: Outcome :| FedWith(plan, before, i, args) && DoneWith(plan, i, args, o, r);
      forall p | 0 <= p < |args|
        ensures FedAt(after, plan.steps[i].deps[p], args[p])
      {
        assert FedAt(before, plan.steps[i].deps[p], args[p]);
      }
      assert FedWith(plan, after, i, args);
    }
  }

  // -------------------------------------------------------- what a step may return

  lemma WindowFeeds(plan: ExecutionPlan, s: RunState, i: nat, args: seq<Data>)
    requires PlanShape(plan) && i < |plan.steps| == |s.steps| && |s.inputs| == plan.totalInputs
    requires AllDone(plan.steps[i].deps, s.steps) && Filled(plan.steps[i], s.inputs, s.steps)
    requires Unwraps(Window(plan, s, i), args)
    ensures FedWith(plan, s.steps, i, args)
  {
    var w := Window(plan, s, i);
    forall p | 0 <= p < |args|
      ensures FedAt(s.steps, plan.steps[i].deps[p], args[p])
    {
      assert FilledAt(plan.steps[i], s.inputs, s.steps, p);
      assert w[p] == s.steps[plan.steps[i].deps[p]].value;
    }
  }

  lemma ReturnIsCaused(cfg: Config, s: RunState, i: nat, r: ResultValue)
    requires PlanShape(cfg.plan) && i < |cfg.plan.steps| == |s.steps| && |s.inputs| == cfg.plan.totalInputs
    requires AllDone(cfg.plan.steps[i].deps, s.steps) && Filled(cfg.plan.steps[i], s.inputs, s.steps)
    requires cfg.plan.steps[i].node.Some?
    requires Admits(cfg.plan.steps[i].node.value.Describe(), Window(cfg.plan, s, i))
    requires MayReturn(cfg.plan.steps[i].node.value, Window(cfg.plan, s, i), r)
    ensures Caused(cfg.plan, s.steps, i, r)
  {
    if !(r.Err? && r.err.kind.KindCancelled?) {
      var args, o := PossibleIsDone(cfg.plan.steps[i].node.value, Window(cfg.plan, s, i), r);
      WindowFeeds(cfg.plan, s, i, args);
      assert DoneWith(cfg.plan, i, args, o, r);
    }
  }

  /** What a step that is out may return has its cause. */
  lemma ActiveReturnIsCaused(cfg: Config, s: RunState, i: nat, r: ResultValue)
    requires cfg.plan.EdgesTyped() && Inv(cfg, TypedAt(cfg.plan), s)
    requires i < |cfg.plan.steps| && Active(s, i) && StepReturns(cfg, s, i, r)
    ensures Caused(cfg.plan, s.steps, i, r)
  {
    ActiveWindowTyped(cfg, s, i);
    assert StepPhase(cfg.plan, s, i);
    assert i in s.ready;
    ReturnIsCaused(cfg, s, i, r);
  }

  // ------------------------------------------------------------------ every event

  lemma RecordKeepsCauses(plan: ExecutionPlan, s: RunState, c: Completion, s': RunState)
    requires Causes(plan, s) && c.index < |s.steps| && Caused(plan, s.steps, c.index, c.result)
    requires s.steps[c.index].state.Running? && s.steps[c.index].err.None?
    requires s'.steps == Recorded(s.steps, c)
    requires s'.done == s.done || (s.done != [] && s'.done == s.done[1..])
    ensures Causes(plan, s')
  {
    assert SuccessesStay(s.steps, s'.steps);
    forall i | |plan.inputs| <= i < |s'.steps|
      ensures RecordCaused(plan, s'.steps, i)
    {
      if i == c.index {
        CauseStays(plan, s.steps, s'.steps, i, c.result);
      } else {
        RecordStays(plan, s.steps, s'.steps, i);
      }
    }
    forall k | 0 <= k < |s'.done|
      ensures Caused(plan, s'.steps, s'.done[k].index, s'.done[k].result)
    {
      var j := if s'.done == s.done then k else k + 1;
      assert s'.done[k] == s.done[j];
      CauseStays(plan, s.steps, s'.steps, s.done[j].index, s.done[j].result);
    }
  }

  lemma RecordStays(plan: ExecutionPlan, before: seq<StepResult>, after: seq<StepResult>, i: nat)
    requires i < |before| && SuccessesStay(before, after) && RecordCaused(plan, before, i)
    requires after[i].err == before[i].err
    requires after[i].state.Succeeded? ==> after[i] == before[i]
    ensures RecordCaused(plan, after, i)
  {
    if after[i].state.Succeeded? {
      CauseStays(plan, before, after, i, Ok(before[i].value));
    }
    if after[i].err.Some? {
      CauseStays(plan, before, after, i, Err(before[i].err.value));
    }
  }

  /** Nothing is recorded; at most a completion that has its cause joins the channel. */
  lemma SendKeepsCauses(plan: ExecutionPlan, s: RunState, s': RunState)
    requires Causes(plan, s) && |s'.steps| == |s.steps|
    requires forall i :: 0 <= i < |s.steps| ==>
      s'.steps[i] == s.steps[i] || (s.steps[i].state.Pending? && s'.steps[i] == s.steps[i].(state := Running))
    requires s'.done == s.done || (|s'.done| == |s.done| + 1 && s'.done[..|s.done|] == s.done &&
      Caused(plan, s.steps, s'.done[|s.done|].index, s'.done[|s.done|].result))
    ensures Causes(plan, s')
  {
    forall i | |plan.inputs| <= i < |s'.steps|
      ensures RecordCaused(plan, s'.steps, i)
    {
      RecordStays(plan, s.steps, s'.steps, i);
    }
    forall k | 0 <= k < |s'.done|
      ensures Caused(plan, s'.steps, s'.done[k].index, s'.done[k].result)
    {
      assert k < |s.done| ==> s'.done[k] == s.done[k];
      CauseStays(plan, s.steps, s'.steps, s'.done[k].index, s'.done[k].result);
    }
  }

  /** A launch marks the next step running and touches no other record. */
  lemma LaunchMarks(cfg: Config, s: RunState, e: Event, free: bool, s': RunState)
    requires Moves(cfg, s, e, free, s') && IsLaunch(e)
    ensures s.launched < |s.ready| && s'.done == s.done
    ensures s'.steps == s.steps[s.ready[s.launched] := s.steps[s.ready[s.launched]].(state := Running)]
  {
  }

  lemma LaunchKeepsCauses(cfg: Config, s: RunState, e: Event, free: bool, s': RunState)
    requires Inv(cfg, TypedAt(cfg.plan), s) && Causes(cfg.plan, s)
    requires Moves(cfg, s, e, free, s') && IsLaunch(e)
    ensures Causes(cfg.plan, s')
  {
    LaunchMarks(cfg, s, e, free, s');
    NextIsPending(cfg.plan, s);
    SendKeepsCauses(cfg.plan, s, s');
  }

  lemma HandleRecords(plan: ExecutionPlan, s: RunState, c: Completion)
    requires c.index < |s.steps| == |plan.steps| == |s.unmet| && plan.IndicesInRange()
    ensures Handle(plan, s, c).steps == Recorded(s.steps, c) && Handle(plan, s, c).done == s.done
  {
  }

  lemma CompletionKeepsCauses(cfg: Config, s: RunState, e: Event, free: bool, s': RunState)
    requires cfg.plan.EdgesTyped() && Inv(cfg, TypedAt(cfg.plan), s) && Causes(cfg.plan, s)
    requires Moves(cfg, s, e, free, s') && IsCompletion(e)
    ensures Causes(cfg.plan, s')
  {
    if e.InlineEnd? {
      var c := Completion(s.pc.step, e.result);
      ActiveReturnIsCaused(cfg, s, s.pc.step, e.result);
      assert StepPhase(cfg.plan, s, s.pc.step);
      HandleRecords(cfg.plan, s.(holding := s.holding - {s.pc.step}), c);
      RecordKeepsCauses(cfg.plan, s, c, s');
    } else {
      var c := s.done[0];
      assert Active(s, c.index);
      assert StepPhase(cfg.plan, s, c.index);
      HandleRecords(cfg.plan, s.(inflight := s.inflight - 1, done := s.done[1..]), c);
      RecordKeepsCauses(cfg.plan, s, c, s');
    }
  }

  lemma MoveKeepsCauses(cfg: Config, s: RunState, e: Event, free: bool, s': RunState)
    requires cfg.plan.EdgesTyped() && Inv(cfg, TypedAt(cfg.plan), s) && Causes(cfg.plan, s)
    requires Moves(cfg, s, e, free, s')
    ensures Causes(cfg.plan, s')
  {
    if IsLaunch(e) {
      LaunchKeepsCauses(cfg, s, e, free, s');
    } else if IsCompletion(e) {
      CompletionKeepsCauses(cfg, s, e, free, s');
    } else {
      if e.Send? {
        ActiveReturnIsCaused(cfg, s, e.step, e.outcome);
      }
      SendKeepsCauses(cfg.plan, s, s');
    }
  }

  lemma StepKeepsCauses(cfg: Config, trace: seq<RunState>, k: nat)
    requires cfg.plan.EdgesTyped() && 0 < k < |trace|
    requires Inv(cfg, TypedAt(cfg.plan), trace[k - 1]) && Causes(cfg.plan, trace[k - 1])
    requires PlanShape(cfg.plan) && Follows(cfg, trace, k)
    ensures Causes(cfg.plan, trace[k])
  {
    var e: Event, free: bool :| Moves(cfg, trace[k - 1], e, free, trace[k]);
    MoveKeepsCauses(cfg, trace[k - 1], e, free, trace[k]);
  }

  /** Before anything has started there is nothing to explain. */
  lemma IdleHasCauses(cfg: Config, s: RunState)
    requires Phases(cfg.plan, s) && s.launched == 0 && s.done == [] && |s.steps| == |cfg.plan.steps|
    ensures Causes(cfg.plan, s)
  {
    forall i | |cfg.plan.inputs| <= i < |s.steps|
      ensures RecordCaused(cfg.plan, s.steps, i)
    {
      assert StepPhase(cfg.plan, s, i);
    }
  }

  lemma BeginHasCauses(cfg: Config)
    requires cfg.plan.WellFormed() && PlanShape(cfg.plan)
    ensures Causes(cfg.plan, Begin(cfg))
  {
    RunStart.BeginHasInv(cfg, Anything());
    InflightWithinLaunched(cfg, Begin(cfg));
    IdleHasCauses(cfg, Begin(cfg));
  }

  lemma TypedInv(cfg: Config, trace: seq<RunState>, k: nat)
    requires cfg.plan.WellFormed() && WellMade(cfg.supplied) && IsRun(cfg, trace) && k < |trace|
    ensures Inv(cfg, TypedAt(cfg.plan), trace[k])
  {
    TypesAreHereditary(cfg);
    RunKeepsInv(cfg, TypedAt(cfg.plan), trace, k);
  }

  lemma FirstHasCauses(cfg: Config, trace: seq<RunState>)
    requires cfg.plan.WellFormed() && PlanShape(cfg.plan) && Follows(cfg, trace, 0)
    ensures Causes(cfg.plan, trace[0])
  {
    BeginHasCauses(cfg);
  }

  lemma NextHasCauses(cfg: Config, trace: seq<RunState>, k: nat)
    requires cfg.plan.WellFormed() && WellMade(cfg.supplied) && IsRun(cfg, trace) && 0 < k < |trace|
    requires Causes(cfg.plan, trace[k - 1])
    ensures Causes(cfg.plan, trace[k])
  {
    TypedInv(cfg, trace, k - 1);
    StepKeepsCauses(cfg, trace, k);
  }

  lemma {:induction false} RunHasCauses(cfg: Config, trace: seq<RunState>, k: nat)
    requires cfg.plan.WellFormed() && WellMade(cfg.supplied) && IsRun(cfg, trace) && k < |trace|
    ensures Causes(cfg.plan, trace[k])
  {
    if k == 0 {
      FirstHasCauses(cfg, trace);
    } else {
      RunHasCauses(cfg, trace, k - 1);
      NextHasCauses(cfg, trace, k);
    }
  }

  /** At every moment of every run: a computing step that succeeded did so because its body
      yields that data from the data recorded of the steps it consumes, in port order; and
      the error of one that did not is a failure of its body on that data, as it was
      reported, or a cancellation. */
  lemma OutcomesHaveCauses(cfg: Config, trace: seq<RunState>, k: nat, i: nat)
    requires cfg.plan.WellFormed() && WellMade(cfg.supplied) && IsRun(cfg, trace) && k < |trace|
    requires |cfg.plan.inputs| <= i < |trace[k].steps|
    ensures RecordCaused(cfg.plan, trace[k].steps, i)
  {
    RunHasCauses(cfg, trace, k);
  }
}
