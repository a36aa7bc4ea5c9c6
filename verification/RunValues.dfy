/** What the values in a run are: of the declared types, and determined by the
    supplied inputs alone. */
module RunValues {
  import opened Collections
  import opened Nodes
  import opened Pipeline
  import opened RunModel
  import opened RunReadiness
  import opened RunInvariant
  import opened RunTheorems

  // ---------------------------------------------------------------- type soundness

  /** Values are boxed with their own type; the only other value is the zero one. */
  ghost predicate WellMade(supplied: map<string, Value>) {
    forall name :: name in supplied ==>
      supplied[name] == ZERO_VALUE || Carries(supplied[name], supplied[name].typ)
  }

  ghost function TypedAt(plan: ExecutionPlan): ValueProperty {
    (i: nat, v: Value) => i < |plan.steps| && Carries(v, plan.OutputType(i))
  }

  lemma InputKeepsType(cfg: Config, k: nat)
    requires cfg.plan.InputsLead() && WellMade(cfg.supplied)
    requires k < |cfg.plan.inputs| && Supply(cfg.supplied, cfg.plan.inputs[k]).Ok?
    ensures TypedAt(cfg.plan)(k, Supply(cfg.supplied, cfg.plan.inputs[k]).value)
  {
    assert cfg.plan.inputs[k].typ != "";
  }

  lemma StepKeepsType(plan: ExecutionPlan, i: nat, w: seq<Value>, v: Value)
    requires |plan.inputs| <= i < |plan.steps| && plan.steps[i].node.Some?
    requires MayReturn(plan.steps[i].node.value, w, Ok(v))
    ensures TypedAt(plan)(i, v)
  {
    SuccessHasOutputType(plan.steps[i].node.value, w, v);
    assert Carries(v, plan.OutputType(i));
  }

  lemma TypesAreHereditary(cfg: Config)
    requires cfg.plan.InputsLead() && WellMade(cfg.supplied)
    ensures Hereditary(cfg, TypedAt(cfg.plan))
  {
    var good := TypedAt(cfg.plan);
    forall k: nat | k < |cfg.plan.inputs| && Supply(cfg.supplied, cfg.plan.inputs[k]).Ok?
      ensures good(k, Supply(cfg.supplied, cfg.plan.inputs[k]).value)
    {
      InputKeepsType(cfg, k);
    }
    forall i: nat, w, v | |cfg.plan.inputs| <= i < |cfg.plan.steps| && GoodWindow(cfg.plan, i, w, good) &&
      cfg.plan.steps[i].node.Some? && MayReturn(cfg.plan.steps[i].node.value, w, Ok(v))
      ensures good(i, v)
    {
      StepKeepsType(cfg.plan, i, w, v);
    }
  }

  lemma SuccessHasOutputType(n: RuntimeNode, w: seq<Value>, v: Value)
    requires MayReturn(n, w, Ok(v))
    ensures Carries(v, n.Describe().output.typ)
  {
    var o: Outcome :| Allows(n, w, o) && Ok(v) == n.Execute(w, o);
    AdapterMeetsDescriptor(n, w, o);
  }

  /** At every moment of every run, a step that has been handed out sees exactly
      its arity of inputs, each of its port's declared type. */
  lemma InvocationsWellTyped(cfg: Config, trace: seq<RunState>, k: nat, i: nat)
    requires cfg.plan.WellFormed() && WellMade(cfg.supplied) && IsRun(cfg, trace) && k < |trace|
    requires i < |cfg.plan.steps| && Active(trace[k], i)
    ensures cfg.plan.steps[i].node.Some? && |trace[k].inputs| == cfg.plan.totalInputs
    ensures Admits(cfg.plan.steps[i].node.value.Describe(), Window(cfg.plan, trace[k], i))
  {
    TypesAreHereditary(cfg);
    RunKeepsInv(cfg, TypedAt(cfg.plan), trace, k);
    ActiveWindowTyped(cfg, trace[k], i);
  }

  /** So its adapter always reaches the body: the two internal mismatches, which
      the adapters check for at run time, cannot come out of them. */
  lemma MismatchUnreachable(cfg: Config, trace: seq<RunState>, k: nat, i: nat, o: Outcome)
    requires cfg.plan.WellFormed() && WellMade(cfg.supplied) && IsRun(cfg, trace) && k < |trace|
    requires i < |cfg.plan.steps| && Active(trace[k], i)
    ensures cfg.plan.steps[i].node.Some? && |trace[k].inputs| == cfg.plan.totalInputs
    ensures var node := cfg.plan.steps[i].node.value;
      HandsOn(o, cfg.plan.OutputType(i), node.Execute(Window(cfg.plan, trace[k], i), o))
  {
    InvocationsWellTyped(cfg, trace, k, i);
    AdapterMeetsDescriptor(cfg.plan.steps[i].node.value, Window(cfg.plan, trace[k], i), o);
    assert !cfg.plan.IsInput(i);
  }

  ghost predicate CarriesOutput(plan: ExecutionPlan, steps: seq<StepResult>, d: nat) {
    d < |plan.steps| && d < |steps| && Carries(steps[d].value, plan.OutputType(d))
  }

  lemma FilledWindowTyped(plan: ExecutionPlan, s: RunState, i: nat)
    requires PlanShape(plan) && |s.inputs| == plan.totalInputs && |s.steps| == |plan.steps| && i < |plan.steps|
    requires plan.Fed(i) && AllDone(plan.steps[i].deps, s.steps) && Filled(plan.steps[i], s.inputs, s.steps)
    requires forall p :: 0 <= p < |plan.steps[i].deps| ==> CarriesOutput(plan, s.steps, plan.steps[i].deps[p])
    ensures Admits(plan.steps[i].node.value.Describe(), Window(plan, s, i))
  {
    var w := Window(plan, s, i);
    forall p | 0 <= p < |w|
      ensures IsA(w[p], plan.steps[i].node.value.Describe().inputs[p].typ)
    {
      assert FilledAt(plan.steps[i], s.inputs, s.steps, p);
      assert CarriesOutput(plan, s.steps, plan.steps[i].deps[p]);
    }
  }

  lemma ActiveWindowTyped(cfg: Config, s: RunState, i: nat)
    requires cfg.plan.EdgesTyped() && Inv(cfg, TypedAt(cfg.plan), s)
    requires i < |cfg.plan.steps| && Active(s, i)
    ensures cfg.plan.steps[i].node.Some?
    ensures Admits(cfg.plan.steps[i].node.value.Describe(), Window(cfg.plan, s, i))
  {
    assert StepPhase(cfg.plan, s, i);
    assert i in s.ready && AllDone(cfg.plan.steps[i].deps, s.steps);
    assert Filled(cfg.plan.steps[i], s.inputs, s.steps);
    assert cfg.plan.Fed(i);
    forall p | 0 <= p < |cfg.plan.steps[i].deps|
      ensures CarriesOutput(cfg.plan, s.steps, cfg.plan.steps[i].deps[p])
    {
      var d := cfg.plan.steps[i].deps[p];
      assert TypedAt(cfg.plan)(d, s.steps[d].value);
    }
    FilledWindowTyped(cfg.plan, s, i);
  }

  /** Every recorded value has the type its edge was compiled with. */
  lemma RecordedValuesTyped(cfg: Config, trace: seq<RunState>, k: nat, i: nat)
    requires cfg.plan.WellFormed() && WellMade(cfg.supplied) && IsRun(cfg, trace) && k < |trace|
    requires i < |cfg.plan.steps| && i < |trace[k].steps| && trace[k].steps[i].state.Succeeded?
    ensures Carries(trace[k].steps[i].value, cfg.plan.OutputType(i))
  {
    TypesAreHereditary(cfg);
    RunKeepsInv(cfg, TypedAt(cfg.plan), trace, k);
    assert TypedAt(cfg.plan)(i, trace[k].steps[i].value);
  }

  // -------------------------------------------------------------------- confluence

  ghost function RankOf(plan: ExecutionPlan): (rank: seq<nat>)
    requires plan.Acyclic()
    ensures plan.RankedBy(rank)
  {
    var rank :| plan.RankedBy(rank);
    rank
  }

  /** What a node produces from a window, if it can succeed on it at all. */
  ghost function Produced(n: RuntimeNode, w: seq<Value>): Option<Value> {
    if exists v :: MayReturn(n, w, Ok(v)) then
      var v :| MayReturn(n, w, Ok(v)); Some(v)
    else None
  }

  /** A node applied to the values of what it consumes, if they all have one. */
  ghost function Combined(n: RuntimeNode, args: seq<Option<Value>>): Option<Value> {
    if forall p :: 0 <= p < |args| ==> args[p].Some? then
      Produced(n, seq(|args|, p requires 0 <= p < |args| => args[p].value))
    else None
  }

  lemma CombinedAll(n: RuntimeNode, args: seq<Option<Value>>, w: seq<Value>)
    requires |args| == |w| && forall p :: 0 <= p < |w| ==> args[p] == Some(w[p])
    ensures Combined(n, args) == Produced(n, w)
  {
    assert seq(|args|, p requires 0 <= p < |args| => args[p].value) == w;
  }

  /** The graph evaluated as nested function application, with no scheduler: an
      input is what was supplied, a step is its node applied to the values of the
      steps it consumes, in port order. */
  ghost function Eval(plan: ExecutionPlan, supplied: map<string, Value>, i: nat): Option<Value>
    requires plan.WellFormed() && i < |plan.steps|
    decreases RankOf(plan)[i]
  {
    if i < |plan.inputs| then
      var input := plan.inputs[i];
      if input.name in supplied && supplied[input.name].typ == input.typ then Some(supplied[input.name]) else None
    else
      var deps := plan.steps[i].deps;
      Combined(plan.steps[i].node.value,
        seq(|deps|, p requires 0 <= p < |deps| => Eval(plan, supplied, deps[p])))
  }

  ghost function EvaluatesTo(plan: ExecutionPlan, supplied: map<string, Value>): ValueProperty
    requires plan.WellFormed()
  {
    (i: nat, v: Value) => i < |plan.steps| && Eval(plan, supplied, i) == Some(v)
  }

  ghost predicate AllDeterministic(plan: ExecutionPlan) {
    forall i :: 0 <= i < |plan.steps| && plan.steps[i].node.Some? ==> Deterministic(plan.steps[i].node.value)
  }

  lemma SuccessIsUnique(n: RuntimeNode, w: seq<Value>, v1: Value, v2: Value)
    requires Deterministic(n) && MayReturn(n, w, Ok(v1)) && MayReturn(n, w, Ok(v2))
    ensures v1 == v2
  {
    var o1: Outcome :| Allows(n, w, o1) && Ok(v1) == n.Execute(w, o1);
    var o2: Outcome :| Allows(n, w, o2) && Ok(v2) == n.Execute(w, o2);
    AdapterMeetsDescriptor(n, w, o1);
    AdapterMeetsDescriptor(n, w, o2);
    assert o1.Yields? && o2.Yields?;
  }

  lemma EvalUnfolds(plan: ExecutionPlan, supplied: map<string, Value>, i: nat, w: seq<Value>)
    requires plan.WellFormed() && |plan.inputs| <= i < |plan.steps| && |w| == |plan.steps[i].deps|
    requires forall p :: 0 <= p < |w| ==> Eval(plan, supplied, plan.steps[i].deps[p]) == Some(w[p])
    ensures Eval(plan, supplied, i) == Produced(plan.steps[i].node.value, w)
  {
    var deps := plan.steps[i].deps;
    var args := seq(|deps|, p requires 0 <= p < |deps| => Eval(plan, supplied, deps[p]));
    assert Eval(plan, supplied, i) == Combined(plan.steps[i].node.value, args);
    CombinedAll(plan.steps[i].node.value, args, w);
  }

  lemma EvalStep(plan: ExecutionPlan, supplied: map<string, Value>, i: nat, w: seq<Value>, v: Value)
    requires plan.WellFormed() && AllDeterministic(plan)
    requires |plan.inputs| <= i < |plan.steps| && GoodWindow(plan, i, w, EvaluatesTo(plan, supplied))
    requires MayReturn(plan.steps[i].node.value, w, Ok(v))
    ensures Eval(plan, supplied, i) == Some(v)
  {
    forall p | 0 <= p < |w|
      ensures Eval(plan, supplied, plan.steps[i].deps[p]) == Some(w[p])
    {
      assert EvaluatesTo(plan, supplied)(plan.steps[i].deps[p], w[p]);
    }
    EvalUnfolds(plan, supplied, i, w);
    SuccessIsUnique(plan.steps[i].node.value, w, v, Produced(plan.steps[i].node.value, w).value);
  }

  lemma EvaluationIsHereditary(cfg: Config)
    requires cfg.plan.WellFormed() && AllDeterministic(cfg.plan)
    ensures Hereditary(cfg, EvaluatesTo(cfg.plan, cfg.supplied))
  {
    var good := EvaluatesTo(cfg.plan, cfg.supplied);
    forall i, w, v | |cfg.plan.inputs| <= i < |cfg.plan.steps| && GoodWindow(cfg.plan, i, w, good) &&
      cfg.plan.steps[i].node.Some? && MayReturn(cfg.plan.steps[i].node.value, w, Ok(v))
      ensures good(i, v)
    {
      EvalStep(cfg.plan, cfg.supplied, i, w, v);
    }
  }

  /** In every run of a plan whose nodes are functions of their inputs, the value
      of a step that succeeded is the value of that step in the graph. */
  lemma RunComputesEval(cfg: Config, trace: seq<RunState>, k: nat, i: nat)
    requires cfg.plan.WellFormed() && AllDeterministic(cfg.plan) && IsRun(cfg, trace) && k < |trace|
    requires i < |cfg.plan.steps| && i < |trace[k].steps| && trace[k].steps[i].state.Succeeded?
    ensures Eval(cfg.plan, cfg.supplied, i) == Some(trace[k].steps[i].value)
  {
    EvaluationIsHereditary(cfg);
    RunKeepsInv(cfg, EvaluatesTo(cfg.plan, cfg.supplied), trace, k);
    assert EvaluatesTo(cfg.plan, cfg.supplied)(i, trace[k].steps[i].value);
  }

  /** Two runs of one plan on the same inputs agree on every step both completed,
      whatever their caps, pools, inlining and schedules. */
  lemma Confluence(cfg1: Config, cfg2: Config, run1: seq<RunState>, run2: seq<RunState>, k1: nat, k2: nat, i: nat)
    requires cfg1.plan == cfg2.plan && cfg1.supplied == cfg2.supplied
    requires cfg1.plan.WellFormed() && AllDeterministic(cfg1.plan)
    requires IsRun(cfg1, run1) && IsRun(cfg2, run2) && k1 < |run1| && k2 < |run2|
    requires i < |cfg1.plan.steps| && i < |run1[k1].steps| && i < |run2[k2].steps|
    requires run1[k1].steps[i].state.Succeeded? && run2[k2].steps[i].state.Succeeded?
    ensures run1[k1].steps[i].value == run2[k2].steps[i].value
  {
    RunComputesEval(cfg1, run1, k1, i);
    RunComputesEval(cfg2, run2, k2, i);
  }
}
