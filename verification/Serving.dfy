/** From an accepted file to what every run does: plans that compile run soundly,
    and events of their own trigger always fit (internal/trigger, internal/daemon/run.go:165-173). */
module Serving {
  import opened Collections
  import opened Nodes
  import opened Pipeline
  import opened Source
  import opened Faults
  import opened Resolution
  import opened Compiler
  import opened RunModel
  import opened RunInvariant
  import opened RunStart
  import opened RunTheorems
  import opened RunOutcome
  import opened RunValues

  // ------------------------------------------------------------------ compiled runs

  /** Step i reads exactly what its node's ports ask for, so whatever its body does
      is handed on at the declared type: no mismatch can be reported. */
  ghost predicate CallSound(plan: ExecutionPlan, s: RunState, i: nat) {
    && i < |plan.steps| && plan.steps[i].node.Some? && PlanShape(plan) && |s.inputs| == plan.totalInputs
    && var node, w := plan.steps[i].node.value, Window(plan, s, i);
    && Admits(node.Describe(), w)
    && forall o :: HandsOn(o, node.Describe().output.typ, node.Execute(w, o))
  }

  ghost predicate CallsSound(plan: ExecutionPlan, s: RunState) {
    forall i :: 0 <= i < |plan.steps| && Active(s, i) ==> CallSound(plan, s, i)
  }

  /** A run that ended without failing left nothing undone. */
  ghost predicate Finished(plan: ExecutionPlan, s: RunState) {
    s.pc.Returned? && |s.steps| == |plan.steps| && !Finalize(plan, s).Failed() ==>
      && Finalize(plan, s).steps == s.steps
      && forall i :: 0 <= i < |s.steps| ==>
        s.steps[i].state.Succeeded? && Carries(s.steps[i].value, plan.OutputType(i))
  }

  ghost predicate RunSound(plan: ExecutionPlan, s: RunState) {
    CallsSound(plan, s) && Finished(plan, s)
  }

  lemma CallIsSound(cfg: Config, trace: seq<RunState>, k: nat, i: nat)
    requires cfg.plan.WellFormed() && WellMade(cfg.supplied) && IsRun(cfg, trace) && k < |trace|
    requires i < |cfg.plan.steps| && Active(trace[k], i)
    ensures CallSound(cfg.plan, trace[k], i)
  {
    InvocationsWellTyped(cfg, trace, k, i);
    var node, w := cfg.plan.steps[i].node.value, Window(cfg.plan, trace[k], i);
    forall o
      ensures HandsOn(o, node.Describe().output.typ, node.Execute(w, o))
    {
      AdapterMeetsDescriptor(node, w, o);
    }
  }

  lemma FinishedAt(cfg: Config, trace: seq<RunState>, k: nat)
    requires cfg.plan.WellFormed() && WellMade(cfg.supplied) && IsRun(cfg, trace) && k < |trace|
    ensures Finished(cfg.plan, trace[k])
  {
    var s := trace[k];
    if s.pc.Returned? && |s.steps| == |cfg.plan.steps| && !Finalize(cfg.plan, s).Failed() {
      Completeness(cfg, trace, k);
      forall i | 0 <= i < |s.steps|
        ensures Carries(s.steps[i].value, cfg.plan.OutputType(i))
      {
        RecordedValuesTyped(cfg, trace, k, i);
      }
    }
  }

  lemma EveryStateSound(cfg: Config, trace: seq<RunState>, k: nat)
    requires cfg.plan.WellFormed() && WellMade(cfg.supplied) && IsRun(cfg, trace) && k < |trace|
    ensures RunSound(cfg.plan, trace[k])
  {
    forall i | 0 <= i < |cfg.plan.steps| && Active(trace[k], i)
      ensures CallSound(cfg.plan, trace[k], i)
    {
      CallIsSound(cfg, trace, k, i);
    }
    FinishedAt(cfg, trace, k);
  }

  /** What acceptance buys: for every file that compiles, every supplied input map,
      every configuration and every interleaving, each node is called with exactly
      what its ports declare, and a run that does not fail ran every step. */
  method CompileSound(f: File, reg: Registries, name: string) returns (r: Compiled)
    requires f.Validated() && reg.Valid()
    ensures r.Plan? <==> Acceptable(f, reg)
    ensures r.Plan? ==> forall cfg: Config, trace: seq<RunState>, k: nat ::
      cfg.plan == r.plan && WellMade(cfg.supplied) && IsRun(cfg, trace) && k < |trace| ==>
        RunSound(r.plan, trace[k])
  {
    r := Compile(f, reg, name);
    if r.Plan? {
      forall cfg: Config, trace: seq<RunState>, k: nat |
        cfg.plan == r.plan && WellMade(cfg.supplied) && IsRun(cfg, trace) && k < |trace|
        ensures RunSound(r.plan, trace[k])
      {
        EveryStateSound(cfg, trace, k);
      }
    }
  }

  // ------------------------------------------------------------------------ triggers

  const WEBHOOK := Trigger(
    TriggerDescriptor("trigger.webhook",
      [PortDescriptor("body", BYTES), PortDescriptor("method", TEXT),
       PortDescriptor("path", TEXT), PortDescriptor("query", TEXT)]),
    Some([BYTES, TEXT]))

  const SCHEDULE := Trigger(
    TriggerDescriptor("trigger.schedule", [PortDescriptor("fired_at", TIME)]), None)

  /** What one accepted request, or one tick, hands to a run. */
  function WebhookValues(body: Data, verb: Data, path: Data, query: Data): map<string, Value> {
    map["body" := NewValue(BYTES, body), "method" := NewValue(TEXT, verb),
        "path" := NewValue(TEXT, path), "query" := NewValue(TEXT, query)]
  }

  function ScheduleValues(at: Data): map<string, Value> {
    map["fired_at" := NewValue(TIME, at)]
  }

  /** The event carries what the descriptor says, at the type it says. */
  ghost predicate Delivers(t: Trigger, values: map<string, Value>) {
    && WellMade(values)
    && forall name :: t.desc.Provided(name).Some? ==>
         name in values && Carries(values[name], t.desc.Provided(name).value)
  }

  /** A name is supplied as the first port so named says, and not at all if none is. */
  ghost predicate FirstNamed(ports: seq<PortDescriptor>, want: string, k: nat) {
    k < |ports| && ports[k].name == want && forall j :: 0 <= j < k ==> ports[j].name != want
  }

  lemma {:induction false} ProvidedIsListed(ports: seq<PortDescriptor>, want: string)
    ensures ProvidedFrom(ports, want).Some? ==>
      exists k: nat :: FirstNamed(ports, want, k) && ports[k].typ == ProvidedFrom(ports, want).value
    ensures ProvidedFrom(ports, want).None? ==> forall k :: 0 <= k < |ports| ==> ports[k].name != want
  {
    if ports != [] && ports[0].name != want {
      ProvidedIsListed(ports[1..], want);
      if k: nat :| FirstNamed(ports[1..], want, k) && ports[1..][k].typ == ProvidedFrom(ports[1..], want).value {
        assert FirstNamed(ports, want, k + 1);
      }
    } else if ports != [] {
      assert FirstNamed(ports, want, 0);
    }
  }

  lemma ProvidedAt(ports: seq<PortDescriptor>, want: string, k: nat)
    requires FirstNamed(ports, want, k)
    ensures ProvidedFrom(ports, want) == Some(ports[k].typ)
  {
    ProvidedIsListed(ports, want);
    if j: nat :| FirstNamed(ports, want, j) && ports[j].typ == ProvidedFrom(ports, want).value {
      assert j == k;
    }
  }

  /** A request supplies exactly these four, at these types, with what it carried. */
  lemma WebhookDelivers(body: Data, verb: Data, path: Data, query: Data)
    ensures Delivers(WEBHOOK, WebhookValues(body, verb, path, query))
    ensures WEBHOOK.responseTypes == Some(["Bytes", "Text"])
    ensures var values := WebhookValues(body, verb, path, query);
      && values.Keys == {"body", "method", "path", "query"}
      && values["body"] == Value("Bytes", Ref("Bytes", body))
      && values["method"] == Value("Text", Ref("Text", verb))
      && values["path"] == Value("Text", Ref("Text", path))
      && values["query"] == Value("Text", Ref("Text", query))
    ensures WEBHOOK.desc.Provided("body") == Some("Bytes")
    ensures forall name :: name in ["method", "path", "query"] ==> WEBHOOK.desc.Provided(name) == Some("Text")
  {
    ProvidedAt(WEBHOOK.desc.supplies, "body", 0);
    ProvidedAt(WEBHOOK.desc.supplies, "method", 1);
    ProvidedAt(WEBHOOK.desc.supplies, "path", 2);
    ProvidedAt(WEBHOOK.desc.supplies, "query", 3);
    forall name | WEBHOOK.desc.Provided(name).Some?
      ensures name in WebhookValues(body, verb, path, query)
      ensures Carries(WebhookValues(body, verb, path, query)[name], WEBHOOK.desc.Provided(name).value)
    {
      ProvidedIsListed(WEBHOOK.desc.supplies, name);
    }
  }

  lemma ScheduleDelivers(at: Data)
    ensures Delivers(SCHEDULE, ScheduleValues(at))
    ensures SCHEDULE.responseTypes.None? && SCHEDULE.desc.Provided("fired_at") == Some("Time")
    ensures ScheduleValues(at) == map["fired_at" := Value("Time", Ref("Time", at))]
  {
    ProvidedAt(SCHEDULE.desc.supplies, "fired_at", 0);
    forall name | SCHEDULE.desc.Provided(name).Some?
      ensures name in ScheduleValues(at)
      ensures Carries(ScheduleValues(at)[name], SCHEDULE.desc.Provided(name).value)
    {
      ProvidedIsListed(SCHEDULE.desc.supplies, name);
    }
  }

  /** What an event carries passes for every input the pipeline declares. */
  lemma EventsFit(f: File, reg: Registries, plan: ExecutionPlan, values: map<string, Value>, k: nat)
    requires Acceptable(f, reg) && Compiles(f, reg, plan) && f.trigger.Some?
    requires plan.trigger.Some? ==> Delivers(plan.trigger.value.trigger, values)
    requires k < |plan.inputs|
    ensures plan.inputs[k].name in values && Supply(values, plan.inputs[k]) == Ok(values[plan.inputs[k].name])
  {
    var spec := f.trigger.value;
    var t := BuildTrigger(reg, spec).value;
    assert TriggerFits(f, reg, spec);
    assert plan.trigger.value.trigger == t;
    var name := plan.inputs[k].name;
    assert InputNames(plan)[k] == name && name in f.inputs;
    assert t.desc.Provided(name) == Some(f.inputs[name]);
  }

  // ----------------------------------------------------------------- inputs stay put

  /** Nothing after the start writes the record of a declared input. */
  lemma InputsFixed(cfg: Config, s: RunState, e: Event, free: bool, s': RunState)
    requires Shape(cfg, s) && Phases(cfg.plan, s) && Moves(cfg, s, e, free, s')
    requires forall k :: 0 <= k < |s.ready| ==> |cfg.plan.inputs| <= s.ready[k]
    ensures |s'.steps| == |s.steps|
    ensures forall j :: 0 <= j < |cfg.plan.inputs| ==> s'.steps[j] == s.steps[j]
  {
    forall j | 0 <= j < |cfg.plan.inputs|
      ensures !Active(s, j)
    {
      assert StepPhase(cfg.plan, s, j);
    }
    match e
    case SelectDone => assert Active(s, s.done[0].index);
    case InlineEnd(_) => assert Active(s, s.pc.step);
    case InlineStart =>
    case PumpLaunch =>
    case SelectSlot =>
    case InlineSkip =>
    case PumpStop =>
    case SelectCaller =>
    case SelectAbandon =>
    case Send(_, _) =>
    case ReleaseSlot(_) =>
  }

  lemma InputsFixedAt(cfg: Config, trace: seq<RunState>, k: nat)
    requires 0 < k < |trace| && Inv(cfg, Anything(), trace[k - 1]) && PlanShape(cfg.plan) && Follows(cfg, trace, k)
    ensures |trace[k].steps| == |trace[k - 1].steps|
    ensures forall j :: 0 <= j < |cfg.plan.inputs| ==> trace[k].steps[j] == trace[k - 1].steps[j]
  {
    var s := trace[k - 1];
    assert forall k :: 0 <= k < |s.ready| ==> s.ready[k] in s.ready;
    var e: Event, free: bool :| Moves(cfg, s, e, free, trace[k]);
    InputsFixed(cfg, s, e, free, trace[k]);
  }

  lemma InputsFixedInRun(cfg: Config, trace: seq<RunState>, k: nat)
    requires cfg.plan.WellFormed() && IsRun(cfg, trace) && 0 < k < |trace|
    ensures |trace[k].steps| == |trace[k - 1].steps|
    ensures |cfg.plan.inputs| <= |trace[k].steps|
    ensures forall j :: 0 <= j < |cfg.plan.inputs| ==> trace[k].steps[j] == trace[k - 1].steps[j]
  {
    RunInvariantHolds(cfg, trace, k - 1);
    InputsFixedAt(cfg, trace, k);
  }

  lemma FirstInputs(cfg: Config, trace: seq<RunState>)
    requires cfg.plan.WellFormed() && PlanShape(cfg.plan) && Follows(cfg, trace, 0)
    ensures AllRecorded(cfg, trace[0])
  {
    BeginHasInv(cfg, Anything());
  }

  ghost predicate AllRecorded(cfg: Config, s: RunState) {
    && |s.steps| == |cfg.plan.steps| >= |cfg.plan.inputs|
    && forall j :: 0 <= j < |cfg.plan.inputs| ==> InputRecorded(cfg, s.steps, j)
  }

  lemma RecordedStays(cfg: Config, s: RunState, s': RunState)
    requires AllRecorded(cfg, s) && |s'.steps| == |s.steps|
    requires forall j :: 0 <= j < |cfg.plan.inputs| ==> s'.steps[j] == s.steps[j]
    ensures AllRecorded(cfg, s')
  {
    forall j | 0 <= j < |cfg.plan.inputs|
      ensures InputRecorded(cfg, s'.steps, j)
    {
      assert InputRecorded(cfg, s.steps, j);
    }
  }

  /** At every moment the record of an input is what Supply said. */
  lemma {:induction false} InputsAsSupplied(cfg: Config, trace: seq<RunState>, k: nat)
    requires cfg.plan.WellFormed() && IsRun(cfg, trace) && k < |trace|
    ensures AllRecorded(cfg, trace[k])
  {
    if k == 0 {
      FirstInputs(cfg, trace);
    } else {
      InputsAsSupplied(cfg, trace, k - 1);
      InputsFixedInRun(cfg, trace, k);
      RecordedStays(cfg, trace[k - 1], trace[k]);
    }
  }

  // --------------------------------------------------------------------- served runs

  /** A run the daemon starts for an event of the pipeline's own trigger. */
  ghost predicate Served(f: File, reg: Registries, cfg: Config) {
    && f.Validated() && reg.Valid()
    && Acceptable(f, reg) && Compiles(f, reg, cfg.plan) && cfg.plan.WellFormed()
    && f.trigger.Some? && cfg.plan.trigger.Some?
    && Delivers(cfg.plan.trigger.value.trigger, cfg.supplied)
  }

  /** Input j is recorded with the value the event carried under its name. */
  ghost predicate HoldsEvent(cfg: Config, steps: seq<StepResult>, j: nat) {
    && j < |steps| && j < |cfg.plan.inputs| && cfg.plan.inputs[j].name in cfg.supplied
    && steps[j] == StepResult(Succeeded, cfg.supplied[cfg.plan.inputs[j].name], None)
  }

  ghost predicate Passes(cfg: Config, j: nat) {
    && j < |cfg.plan.inputs| && cfg.plan.inputs[j].name in cfg.supplied
    && Supply(cfg.supplied, cfg.plan.inputs[j]) == Ok(cfg.supplied[cfg.plan.inputs[j].name])
  }

  lemma ServedInputsPass(f: File, reg: Registries, cfg: Config)
    requires Served(f, reg, cfg)
    ensures forall j :: 0 <= j < |cfg.plan.inputs| ==> Passes(cfg, j)
  {
    forall j | 0 <= j < |cfg.plan.inputs|
      ensures Passes(cfg, j)
    {
      EventsFit(f, reg, cfg.plan, cfg.supplied, j);
    }
  }

  lemma PassedInputsHold(cfg: Config, s: RunState)
    requires |cfg.plan.inputs| <= |s.steps|
    requires forall j :: 0 <= j < |cfg.plan.inputs| ==> Passes(cfg, j) && InputRecorded(cfg, s.steps, j)
    requires s.failedStep >= 0 ==> s.failedStep < |s.steps| && s.steps[s.failedStep].err.Some?
    ensures forall j :: 0 <= j < |cfg.plan.inputs| ==> HoldsEvent(cfg, s.steps, j)
    ensures s.failedStep >= 0 ==> s.failedStep >= |cfg.plan.inputs|
  {
    forall j | 0 <= j < |cfg.plan.inputs|
      ensures HoldsEvent(cfg, s.steps, j)
    {
      assert Passes(cfg, j) && InputRecorded(cfg, s.steps, j);
    }
    assert 0 <= s.failedStep < |cfg.plan.inputs| ==> HoldsEvent(cfg, s.steps, s.failedStep);
  }

  /** Neither a missing nor an ill-typed input can occur in a served run: every
      input is recorded with the value the event carried, and whatever fails is a
      step that computes. */
  lemma ServedInputsSucceed(f: File, reg: Registries, cfg: Config, trace: seq<RunState>, k: nat)
    requires Served(f, reg, cfg) && IsRun(cfg, trace) && k < |trace|
    ensures |trace[k].steps| == |cfg.plan.steps|
    ensures forall j :: 0 <= j < |cfg.plan.inputs| ==> HoldsEvent(cfg, trace[k].steps, j)
    ensures trace[k].failedStep >= 0 ==> trace[k].failedStep >= |cfg.plan.inputs|
  {
    InputsAsSupplied(cfg, trace, k);
    FailureIsRecorded(cfg, trace, k);
    ServedInputsPass(f, reg, cfg);
    PassedInputsHold(cfg, trace[k]);
  }

  lemma FailureIsRecorded(cfg: Config, trace: seq<RunState>, k: nat)
    requires cfg.plan.WellFormed() && IsRun(cfg, trace) && k < |trace|
    ensures var s := trace[k];
      s.failedStep >= 0 ==> s.failedStep < |s.steps| && s.steps[s.failedStep].err.Some?
  {
    RunInvariantHolds(cfg, trace, k);
  }

  /** What a trigger is told about a run. */
  datatype Reply = Reply(err: Option<Error>, value: Value)

  function OutcomeOf(ex: Execution, respondStep: int): Reply
    requires ex.failedStep < |ex.steps| && respondStep < |ex.steps|
  {
    if ex.Failed() then Reply(ex.Err(), ZERO_VALUE)
    else if respondStep < 0 then Reply(None, ZERO_VALUE)
    else Reply(None, ex.steps[respondStep].value)
  }

  ghost predicate Writable(t: Trigger, v: Value) {
    t.responseTypes.Some? && exists typ :: typ in t.responseTypes.value && Carries(v, typ)
  }

  lemma RespondStepFits(f: File, reg: Registries, plan: ExecutionPlan)
    requires f.Validated() && reg.Valid() && Acceptable(f, reg) && Compiles(f, reg, plan)
    requires f.trigger.Some? && plan.trigger.Some?
    ensures var b := plan.trigger.value;
      && b.respondStep < |plan.steps|
      && (b.respondStep >= 0 <==> f.trigger.value.respondWith != "")
      && (b.respondStep >= 0 ==>
            && b.trigger.responseTypes.Some?
            && plan.OutputType(b.respondStep) in b.trigger.responseTypes.value)
  {
    var spec, b := f.trigger.value, plan.trigger.value;
    var inputs, ids := InputNames(plan), StepNames(plan);
    assert TriggerFits(f, reg, spec);
    assert BindsTrigger(reg, spec, b) && RepliesWith(f, reg, inputs, ids, spec, b.trigger, b.respondStep);
    NamedReplyIsRepliable(f, reg, spec, b.trigger);
    if b.respondStep >= 0 {
      StepOutputType(f, reg, inputs, ids, plan, b.respondStep);
    }
  }

  /** The caller of a served run gets the error that ended it, or else a value of a
      type its trigger can write, produced by the step the pipeline named. */
  lemma RepliesAreWritable(f: File, reg: Registries, cfg: Config, trace: seq<RunState>, k: nat)
    requires Served(f, reg, cfg) && IsRun(cfg, trace) && k < |trace| && trace[k].pc.Returned?
    ensures var s, b := trace[k], cfg.plan.trigger.value;
      && |s.steps| == |cfg.plan.steps|
      && var ex := Finalize(cfg.plan, s);
      && ex.failedStep < |ex.steps| && b.respondStep < |ex.steps|
      && var out := OutcomeOf(ex, b.respondStep);
      && (out.err.Some? <==> s.failedStep >= 0 || s.cancelled) && out.err == WhyStopped(s)
      && (out.err.None? && f.trigger.value.respondWith != "" ==>
            b.respondStep >= 0 && out.value == s.steps[b.respondStep].value && Writable(b.trigger, out.value))
      && (out.err.None? && f.trigger.value.respondWith == "" ==> out.value == ZERO_VALUE)
  {
    FinalPartition(cfg, trace, k);
    RespondStepFits(f, reg, cfg.plan);
    FinishedAt(cfg, trace, k);
  }
}
