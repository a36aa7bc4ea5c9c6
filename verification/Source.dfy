/** A parsed pipeline file and the registries it is compiled against
    (internal/pipeline/config.go, parser.go), and what it means for a file to be
    acceptable, stated over names alone. */
module Source {
  import opened Collections
  import opened Nodes
  import opened Pipeline

  /** A step's dependencies: a list bound in port order, or a mapping from port
      name to step. */
  datatype Needs = Positional(order: seq<string>) | Named(byPort: map<string, string>)
  {
    /** The steps referenced, whichever port they feed. */
    ghost function Names(): set<string> {
      match this
      case Positional(order) => Elements(order)
      case Named(byPort) => byPort.Values
    }

    /** Every port of d gets exactly one step: a list only if no two ports share a
        type and only at d's length; a mapping only if it names all of d's ports
        and nothing else. */
    ghost predicate Fits(d: Descriptor) {
      match this
      case Positional(order) => d.TypeDistinct() && |order| == d.Arity()
      case Named(byPort) =>
        && (forall p :: 0 <= p < d.Arity() ==> d.inputs[p].name in byPort)
        && (forall name :: name in byPort ==> name in d.PortNames())
    }

    /** The step bound to port p. */
    ghost function Bound(d: Descriptor, p: nat): string
      requires Fits(d) && p < d.Arity()
    {
      match this
      case Positional(order) => order[p]
      case Named(byPort) => byPort[d.inputs[p].name]
    }
  }

  datatype Step = Step(uses: string, config: string, needs: Needs, retry: Option<Retry>)
  {
    function RetryPolicy(): Retry {
      if retry.None? then DEFAULT_RETRY else retry.value
    }
  }

  datatype TriggerSpec = TriggerSpec(
    uses: string, config: string, timeout: int, respondWith: string, onOverlap: Option<OverlapPolicy>)

  const MAX_RETRY_ATTEMPTS := 100

  datatype File = File(inputs: map<string, TypeID>, steps: map<string, Step>, trigger: Option<TriggerSpec>)
  {
    /** What parsing has already checked. */
    ghost predicate Validated() {
      && steps != map[]
      && inputs.Keys !! steps.Keys
      && (forall name :: name in inputs ==> inputs[name] != "")
      && (forall id :: id in steps && steps[id].retry.Some? ==>
            1 <= steps[id].retry.value.maxAttempts <= MAX_RETRY_ATTEMPTS && steps[id].retry.value.backoff >= 0)
      && (forall id :: id in steps ==> id !in steps[id].needs.Names())
    }

    ghost function Names(): set<string> { inputs.Keys + steps.Keys }

    /** The steps a name needs; an input needs nothing. */
    ghost function NeededBy(name: string): set<string> {
      if name in steps then steps[name].needs.Names() else {}
    }
  }

  /** What a constructor did with a configuration. */
  datatype Build<+T> = Built(value: T) | BuiltNothing | BadConfig

  datatype Registries = Registries(
    types: set<TypeID>,
    nodes: map<string, string -> Build<RuntimeNode>>,
    triggers: map<string, string -> Build<Trigger>>)
  {
    /** A node's output type is a type: TypeOf never yields an empty name. */
    ghost predicate Valid() {
      forall uses, config :: uses in nodes && nodes[uses](config).Built? ==>
        nodes[uses](config).value.Describe().output.typ != ""
    }
  }

  // ------------------------------------------------------------------ acceptability

  function BuildNode(reg: Registries, step: Step): Build<RuntimeNode> {
    if step.uses in reg.nodes then reg.nodes[step.uses](step.config) else BadConfig
  }

  /** The node a name resolves to. */
  ghost function NodeOf(f: File, reg: Registries, name: string): Option<RuntimeNode> {
    if name in f.steps && BuildNode(reg, f.steps[name]).Built?
    then Some(BuildNode(reg, f.steps[name]).value) else None
  }

  /** What an edge leaving a name carries. */
  ghost function TypeOf(f: File, reg: Registries, name: string): TypeID {
    if name in f.inputs then f.inputs[name]
    else match NodeOf(f, reg, name)
      case Some(n) => n.Describe().output.typ
      case None => ""
  }

  ghost predicate InputsTyped(f: File, reg: Registries) {
    forall name :: name in f.inputs ==> f.inputs[name] in reg.types
  }

  ghost predicate NodesResolve(f: File, reg: Registries) {
    forall id :: id in f.steps ==> NodeOf(f, reg, id).Some?
  }

  ghost predicate NeedsExist(f: File) {
    forall id :: id in f.steps ==> f.steps[id].needs.Names() <= f.Names()
  }

  /** Names each of which needs the next, ending where they began. */
  ghost predicate NeedsCycle(f: File, c: seq<string>) {
    && |c| >= 2 && c[0] == c[|c| - 1]
    && (forall k :: 0 <= k < |c| ==> c[k] in f.Names())
    && (forall k :: 0 <= k < |c| - 1 ==> c[k + 1] in f.NeededBy(c[k]))
  }

  ghost predicate NeedsAcyclic(f: File) {
    forall c :: !NeedsCycle(f, c)
  }

  /** A step's needs fit its node's ports, and each binding has the port's type. */
  ghost predicate EdgesFit(f: File, reg: Registries, id: string)
    requires id in f.steps && NodeOf(f, reg, id).Some?
  {
    var d := NodeOf(f, reg, id).value.Describe();
    var needs := f.steps[id].needs;
    && needs.Fits(d)
    && forall p :: 0 <= p < d.Arity() ==> TypeOf(f, reg, needs.Bound(d, p)) == d.inputs[p].typ
  }

  ghost predicate AllEdgesFit(f: File, reg: Registries)
    requires NodesResolve(f, reg)
  {
    forall id :: id in f.steps ==> EdgesFit(f, reg, id)
  }

  function BuildTrigger(reg: Registries, spec: TriggerSpec): Build<Trigger> {
    if spec.uses in reg.triggers then reg.triggers[spec.uses](spec.config) else BadConfig
  }

  /** The trigger supplies every declared input at its declared type, a caller is
      never left waiting without a bound, and the reply is one it can write. */
  ghost predicate TriggerFits(f: File, reg: Registries, spec: TriggerSpec) {
    && BuildTrigger(reg, spec).Built?
    && var t := BuildTrigger(reg, spec).value;
    && (forall name :: name in f.inputs ==> t.desc.Provided(name) == Some(f.inputs[name]))
    && (t.responseTypes.Some? ==> spec.timeout > 0)
    && ReplyFits(f, reg, spec, t)
  }

  ghost predicate ReplyFits(f: File, reg: Registries, spec: TriggerSpec, t: Trigger) {
    spec.respondWith != "" ==>
      && t.responseTypes.Some?
      && spec.respondWith in f.steps
      && TypeOf(f, reg, spec.respondWith) in t.responseTypes.value
  }

  /** Every edge carries what its port asks for, and the trigger fits. */
  ghost predicate TypesFit(f: File, reg: Registries)
    requires NodesResolve(f, reg)
  {
    && AllEdgesFit(f, reg)
    && (f.trigger.Some? ==> TriggerFits(f, reg, f.trigger.value))
  }

  /** What a file must satisfy to have a plan. */
  ghost predicate Acceptable(f: File, reg: Registries) {
    && InputsTyped(f, reg)
    && NodesResolve(f, reg)
    && NeedsExist(f)
    && NeedsAcyclic(f)
    && TypesFit(f, reg)
  }
}
