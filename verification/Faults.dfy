/** Everything that can be wrong with a pipeline file, one fault at a time, each stated
    over names. A phase of the compiler skips only what it cannot judge
    (internal/pipeline/compiler.go:63-67), and this is what "cannot judge" means. */
module Faults {
  import opened Collections
  import opened Nodes
  import opened Pipeline
  import opened Source

  datatype Problem =
    | UnknownType(input: string)
    | NodeProblem(step: string)
    | MissingDependency(step: string, dep: string)
    | DependencyCycle(path: seq<string>)
    | AmbiguousPorts(step: string)
    | WrongArity(step: string)
    | UnboundPort(step: string, port: string)
    | NoSuchPort(step: string, port: string)
    | EdgeMismatch(step: string, port: string)
    | TriggerUnbuilt
    | InputNotSupplied(input: string)
    | InputSuppliedOtherwise(input: string)
    | NoTimeout
    | NobodyToAnswer
    | ReplyUnknown
    | ReplyIsInput
    | ReplyUnwritable
  {
    /** The input or step a problem is attributed to, if it is to one. */
    ghost function Of(): Option<string> {
      match this
      case UnknownType(input) => Some(input)
      case NodeProblem(step) => Some(step)
      case MissingDependency(step, _) => Some(step)
      case AmbiguousPorts(step) => Some(step)
      case WrongArity(step) => Some(step)
      case UnboundPort(step, _) => Some(step)
      case NoSuchPort(step, _) => Some(step)
      case EdgeMismatch(step, _) => Some(step)
      case InputNotSupplied(input) => Some(input)
      case InputSuppliedOtherwise(input) => Some(input)
      case _ => None
    }
  }

  // -------------------------------------------------------- what can be known of a name

  /** What an edge leaving a name carries, as far as that is known: nothing is known of
      an input of an unregistered type, nor of a step whose node did not build. */
  ghost function KnownType(f: File, reg: Registries, name: string): TypeID {
    if name in f.inputs then if f.inputs[name] in reg.types then f.inputs[name] else ""
    else match NodeOf(f, reg, name)
      case Some(n) => n.Describe().output.typ
      case None => ""
  }

  /** A step has ports to judge its needs by, and everything it needs exists. */
  ghost predicate Judgeable(f: File, reg: Registries, id: string) {
    id in f.steps && NodeOf(f, reg, id).Some? && f.steps[id].needs.Names() <= f.Names()
  }

  // -------------------------------------------------------------------------- the faults

  ghost predicate InputFault(f: File, reg: Registries, q: Problem) {
    q.UnknownType? && q.input in f.inputs && f.inputs[q.input] !in reg.types
  }

  ghost predicate NodeFault(f: File, reg: Registries, q: Problem) {
    && q.NodeProblem? && q.step in f.steps
    && var step := f.steps[q.step];
    !(step.uses in reg.nodes && reg.nodes[step.uses](step.config).Built?)
  }

  ghost predicate MissingFault(f: File, q: Problem) {
    q.MissingDependency? && q.dep in f.NeededBy(q.step) && q.dep !in f.Names()
  }

  /** The ways in which needs do not fit a node's ports. */
  ghost predicate NeedsFault(needs: Needs, d: Descriptor, q: Problem) {
    match q
    case AmbiguousPorts(_) => needs.Positional? && !d.TypeDistinct()
    case WrongArity(_) => needs.Positional? && d.TypeDistinct() && |needs.order| != d.Arity()
    case UnboundPort(_, port) => needs.Named? && port in d.PortNames() && port !in needs.byPort
    case NoSuchPort(_, port) => needs.Named? && port in needs.byPort && port !in d.PortNames()
    case _ => false
  }

  /** What feeds port p is known, and is not what the port asks for. */
  ghost predicate Mismatch(f: File, reg: Registries, from: string, port: PortDescriptor) {
    KnownType(f, reg, from) != "" && KnownType(f, reg, from) != port.typ
  }

  ghost predicate PortFault(f: File, reg: Registries, needs: Needs, d: Descriptor, q: Problem) {
    q.EdgeMismatch? && needs.Fits(d) &&
    exists p :: 0 <= p < d.Arity() && d.inputs[p].name == q.port && Mismatch(f, reg, needs.Bound(d, p), d.inputs[p])
  }

  ghost predicate EdgeFault(f: File, reg: Registries, q: Problem) {
    && q.Of().Some? && Judgeable(f, reg, q.Of().value)
    && var needs := f.steps[q.Of().value].needs;
    && var d := NodeOf(f, reg, q.Of().value).value.Describe();
    NeedsFault(needs, d, q) || PortFault(f, reg, needs, d, q)
  }

  /** An input of known type that t does not supply as declared. */
  ghost predicate SupplyFault(f: File, reg: Registries, t: Trigger, q: Problem) {
    match q
    case InputNotSupplied(input) => KnownInput(f, reg, input) && t.desc.Provided(input).None?
    case InputSuppliedOtherwise(input) =>
      KnownInput(f, reg, input) && t.desc.Provided(input).Some? && t.desc.Provided(input).value != f.inputs[input]
    case _ => false
  }

  ghost predicate KnownInput(f: File, reg: Registries, input: string) {
    input in f.inputs && f.inputs[input] in reg.types
  }

  ghost predicate ReplyFault(f: File, reg: Registries, spec: TriggerSpec, t: Trigger, q: Problem) {
    spec.respondWith != "" &&
    match q
    case NobodyToAnswer => t.responseTypes.None?
    case ReplyUnknown => t.responseTypes.Some? && spec.respondWith !in f.Names()
    case ReplyIsInput => t.responseTypes.Some? && spec.respondWith in f.inputs
    case ReplyUnwritable =>
      && t.responseTypes.Some? && spec.respondWith in f.steps && spec.respondWith !in f.inputs
      && KnownType(f, reg, spec.respondWith) != ""
      && KnownType(f, reg, spec.respondWith) !in t.responseTypes.value
    case _ => false
  }

  ghost predicate TriggerFault(f: File, reg: Registries, spec: TriggerSpec, q: Problem) {
    if spec.uses in reg.triggers && reg.triggers[spec.uses](spec.config).Built? then
      var t := reg.triggers[spec.uses](spec.config).value;
      || SupplyFault(f, reg, t, q)
      || (q.NoTimeout? && t.responseTypes.Some? && spec.timeout <= 0)
      || ReplyFault(f, reg, spec, t, q)
    else q.TriggerUnbuilt?
  }

  ghost predicate Fault(f: File, reg: Registries, q: Problem) {
    || InputFault(f, reg, q)
    || NodeFault(f, reg, q)
    || MissingFault(f, q)
    || (q.DependencyCycle? && NeedsCycle(f, q.path))
    || EdgeFault(f, reg, q)
    || (f.trigger.Some? && TriggerFault(f, reg, f.trigger.value, q))
  }

  // ---------------------------------------------------- faultless means acceptable

  lemma KnownTypeIsType(f: File, reg: Registries, name: string)
    requires f.Validated() && reg.Valid() && InputsTyped(f, reg) && NodesResolve(f, reg) && name in f.Names()
    ensures KnownType(f, reg, name) == TypeOf(f, reg, name) != ""
  {
    if name !in f.inputs {
      assert NodeOf(f, reg, name).Some?;
      var step := f.steps[name];
      assert reg.nodes[step.uses](step.config).Built?;
    }
  }

  ghost predicate NoFault(f: File, reg: Registries) {
    forall q :: !Fault(f, reg, q)
  }

  lemma NamesFaultless(f: File, reg: Registries)
    requires NoFault(f, reg)
    ensures InputsTyped(f, reg) && NodesResolve(f, reg) && NeedsExist(f) && NeedsAcyclic(f)
  {
    forall name | name in f.inputs
      ensures f.inputs[name] in reg.types
    {
      assert !Fault(f, reg, UnknownType(name));
    }
    forall id | id in f.steps
      ensures NodeOf(f, reg, id).Some?
    {
      assert !Fault(f, reg, NodeProblem(id));
    }
    forall id, dep | id in f.steps && dep in f.steps[id].needs.Names()
      ensures dep in f.Names()
    {
      assert !Fault(f, reg, MissingDependency(id, dep));
    }
    forall c
      ensures !NeedsCycle(f, c)
    {
      assert !Fault(f, reg, DependencyCycle(c));
    }
  }

  lemma NeedsFit(needs: Needs, d: Descriptor, id: string)
    ensures needs.Fits(d) <==> forall q: Problem :: q.Of() == Some(id) ==> !NeedsFault(needs, d, q)
  {
    if forall q: Problem :: q.Of() == Some(id) ==> !NeedsFault(needs, d, q) {
      assert AmbiguousPorts(id).Of() == WrongArity(id).Of() == Some(id);
      assert !NeedsFault(needs, d, AmbiguousPorts(id)) && !NeedsFault(needs, d, WrongArity(id));
      if needs.Named? {
        forall p | 0 <= p < d.Arity()
          ensures d.inputs[p].name in needs.byPort
        {
          assert UnboundPort(id, d.inputs[p].name).Of() == Some(id);
          assert !NeedsFault(needs, d, UnboundPort(id, d.inputs[p].name));
        }
        forall name | name in needs.byPort
          ensures name in d.PortNames()
        {
          assert NoSuchPort(id, name).Of() == Some(id);
          assert !NeedsFault(needs, d, NoSuchPort(id, name));
        }
      }
    }
  }

  /** What a step is bound to exists, so its type is known. */
  lemma BoundIsKnown(f: File, reg: Registries, id: string, p: nat)
    requires f.Validated() && reg.Valid() && InputsTyped(f, reg) && NodesResolve(f, reg) && NeedsExist(f)
    requires id in f.steps && NodeOf(f, reg, id).Some?
    requires f.steps[id].needs.Fits(NodeOf(f, reg, id).value.Describe())
    requires p < NodeOf(f, reg, id).value.Describe().Arity()
    ensures var from := f.steps[id].needs.Bound(NodeOf(f, reg, id).value.Describe(), p);
      KnownType(f, reg, from) == TypeOf(f, reg, from) != ""
  {
    var needs, d := f.steps[id].needs, NodeOf(f, reg, id).value.Describe();
    assert needs.Bound(d, p) in needs.Names();
    KnownTypeIsType(f, reg, needs.Bound(d, p));
  }

  ghost predicate NamesSound(f: File, reg: Registries) {
    && f.Validated() && reg.Valid()
    && InputsTyped(f, reg) && NodesResolve(f, reg) && NeedsExist(f)
  }

  ghost predicate StepFaultless(f: File, reg: Registries, id: string) {
    forall q: Problem :: q.Of() == Some(id) ==> !EdgeFault(f, reg, q)
  }

  lemma StepFits(f: File, reg: Registries, id: string)
    requires NamesSound(f, reg) && id in f.steps && NodeOf(f, reg, id).Some?
    ensures EdgesFit(f, reg, id) <==> StepFaultless(f, reg, id)
  {
    var needs, d := f.steps[id].needs, NodeOf(f, reg, id).value.Describe();
    NeedsFit(needs, d, id);
    assert Judgeable(f, reg, id);
    if needs.Fits(d) {
      forall p | 0 <= p < d.Arity()
        ensures KnownType(f, reg, needs.Bound(d, p)) == TypeOf(f, reg, needs.Bound(d, p)) != ""
        ensures StepFaultless(f, reg, id) ==>
          !Mismatch(f, reg, needs.Bound(d, p), d.inputs[p])
      {
        BoundIsKnown(f, reg, id, p);
        var q := EdgeMismatch(id, d.inputs[p].name);
        assert q.Of() == Some(id);
        assert Mismatch(f, reg, needs.Bound(d, p), d.inputs[p]) ==> EdgeFault(f, reg, q);
      }
    } else {
      var q: Problem :| q.Of() == Some(id) && NeedsFault(needs, d, q);
      assert EdgeFault(f, reg, q);
    }
  }

  lemma EdgesFaultless(f: File, reg: Registries)
    requires NamesSound(f, reg)
    ensures AllEdgesFit(f, reg) <==> forall q :: !EdgeFault(f, reg, q)
  {
    forall id | id in f.steps
      ensures EdgesFit(f, reg, id) <==> StepFaultless(f, reg, id)
    {
      StepFits(f, reg, id);
    }
    if AllEdgesFit(f, reg) {
      forall q
        ensures !EdgeFault(f, reg, q)
      {
        assert EdgeFault(f, reg, q) ==> q.Of().value in f.steps && StepFaultless(f, reg, q.Of().value);
      }
    }
  }

  lemma ReplyFitsIfFaultless(f: File, reg: Registries, spec: TriggerSpec, t: Trigger)
    requires forall q :: !ReplyFault(f, reg, spec, t, q)
    requires spec.respondWith in f.steps ==>
      KnownType(f, reg, spec.respondWith) == TypeOf(f, reg, spec.respondWith) != ""
    ensures ReplyFits(f, reg, spec, t)
  {
    assert !ReplyFault(f, reg, spec, t, NobodyToAnswer) && !ReplyFault(f, reg, spec, t, ReplyUnknown);
    assert !ReplyFault(f, reg, spec, t, ReplyIsInput) && !ReplyFault(f, reg, spec, t, ReplyUnwritable);
  }

  lemma ReplyFaultless(f: File, reg: Registries, spec: TriggerSpec, t: Trigger)
    requires NamesSound(f, reg)
    ensures ReplyFits(f, reg, spec, t) <==> forall q :: !ReplyFault(f, reg, spec, t, q)
  {
    if spec.respondWith in f.steps {
      KnownTypeIsType(f, reg, spec.respondWith);
    }
    if forall q :: !ReplyFault(f, reg, spec, t, q) {
      ReplyFitsIfFaultless(f, reg, spec, t);
    }
  }

  ghost predicate AllSupplied(f: File, t: Trigger) {
    forall name :: name in f.inputs ==> t.desc.Provided(name) == Some(f.inputs[name])
  }

  lemma SupplyFaultless(f: File, reg: Registries, t: Trigger)
    requires InputsTyped(f, reg)
    ensures AllSupplied(f, t) <==> forall q :: !SupplyFault(f, reg, t, q)
  {
    if forall q :: !SupplyFault(f, reg, t, q) {
      forall name | name in f.inputs
        ensures t.desc.Provided(name) == Some(f.inputs[name])
      {
        assert !SupplyFault(f, reg, t, InputNotSupplied(name));
        assert !SupplyFault(f, reg, t, InputSuppliedOtherwise(name));
      }
    }
  }

  lemma TriggerFaultless(f: File, reg: Registries, spec: TriggerSpec)
    requires NamesSound(f, reg)
    ensures TriggerFits(f, reg, spec) <==> forall q :: !TriggerFault(f, reg, spec, q)
  {
    match BuildTrigger(reg, spec)
    case Built(t) =>
      SupplyFaultless(f, reg, t);
      ReplyFaultless(f, reg, spec, t);
      assert (forall q :: !TriggerFault(f, reg, spec, q)) ==> !TriggerFault(f, reg, spec, NoTimeout);
      assert forall q :: SupplyFault(f, reg, t, q) || ReplyFault(f, reg, spec, t, q) ==> TriggerFault(f, reg, spec, q);
    case _ =>
      assert TriggerFault(f, reg, spec, TriggerUnbuilt);
  }

  /** A file is acceptable exactly when it has no fault. */
  lemma AcceptableIsFaultless(f: File, reg: Registries)
    requires f.Validated() && reg.Valid()
    ensures Acceptable(f, reg) <==> NoFault(f, reg)
  {
    if NoFault(f, reg) {
      NamesFaultless(f, reg);
    }
    if InputsTyped(f, reg) && NodesResolve(f, reg) && NeedsExist(f) {
      EdgesFaultless(f, reg);
      if f.trigger.Some? {
        TriggerFaultless(f, reg, f.trigger.value);
      }
      TypesFaultless(f, reg);
    }
  }

  lemma TypesFaultless(f: File, reg: Registries)
    requires InputsTyped(f, reg) && NodesResolve(f, reg) && NeedsExist(f)
    requires AllEdgesFit(f, reg) <==> forall q :: !EdgeFault(f, reg, q)
    requires f.trigger.Some? ==>
      (TriggerFits(f, reg, f.trigger.value) <==> forall q :: !TriggerFault(f, reg, f.trigger.value, q))
    ensures Acceptable(f, reg) <==> NoFault(f, reg)
  {
    if NoFault(f, reg) {
      NamesFaultless(f, reg);
      assert forall q :: EdgeFault(f, reg, q) ==> Fault(f, reg, q);
      assert f.trigger.Some? ==> forall q :: TriggerFault(f, reg, f.trigger.value, q) ==> Fault(f, reg, q);
    }
  }
}
