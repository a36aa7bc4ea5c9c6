/** The compiler: an object that collects problems phase by phase, and hands out a
    plan when there are none (internal/pipeline/compiler.go). */
module Compiler {
  import opened Collections
  import opened Nodes
  import opened Pipeline
  import opened Source
  import opened Faults
  import opened Resolution
  import Names
  import Cycles
  import Layout

  class Compilation {
    const file: File
    const reg: Registries
    var ids: seq<string>
    var index: map<string, nat>
    var inputs: seq<string>
    var inputTypes: seq<TypeID>
    var nodes: seq<Option<RuntimeNode>>
    var deps: seq<seq<nat>>
    var trigger: Option<TriggerBinding>
    var problems: seq<Problem>

    constructor (f: File, r: Registries)
      requires f.Validated()
      ensures file == f && reg == r && problems == [] && trigger.None?
      ensures Indexed() && Lists(f, inputs, ids)
    {
      file, reg := f, r;
      inputTypes, nodes, deps, problems, trigger := [], [], [], [], None;
      var ins, all := ListNames(f);
      var at := IndexNames(all);
      ListsFind(f, ins, all, at);
      inputs, ids, index := ins, all, at;
    }

    ghost predicate Indexed()
      reads this
    {
      Finds(file, inputs, ids, index)
    }

    /** Report a problem; what is in `added` so far grows by it. */
    method Fail(p: Problem, ghost start: seq<Problem>, ghost added: seq<Problem>) returns (ghost more: seq<Problem>)
      requires problems == start + added
      modifies this`problems
      ensures more == added + [p] && problems == start + more
    {
      more := added + [p];
      problems := problems + [p];
    }

    // ------------------------------------------------------------------ types and nodes

    /** Each declared type must be registered; of any other nothing is known. */
    method ResolveInputs() returns (ghost added: seq<Problem>)
      requires Indexed()
      modifies this`inputTypes, this`problems
      ensures problems == old(problems) + added && FaultsAre(file, reg, Typing, added)
      ensures |inputTypes| == |inputs|
      ensures forall i :: 0 <= i < |inputs| ==> inputTypes[i] == KnownType(file, reg, inputs[i])
    {
      InputsFirst(file, inputs, ids, index);
      inputTypes, added := [], [];
      for i := 0 to |inputs|
        invariant |inputTypes| == i && problems == old(problems) + added
        invariant forall j :: 0 <= j < i ==> inputTypes[j] == KnownType(file, reg, inputs[j])
        invariant FaultsBefore(file, reg, Typing, index, i, added)
      {
        ghost var more := ResolveInput(i);
        OneMoreName(file, reg, Typing, ids, index, i, added, more);
        Joined(old(problems), added, more);
        added := added + more;
      }
      EveryName(file, reg, Typing, inputs, ids, index, |inputs|, added);
    }

    method ResolveInput(i: nat) returns (ghost added: seq<Problem>)
      requires i < |inputs| && inputs[i] in file.inputs
      modifies this`inputTypes, this`problems
      ensures inputTypes == old(inputTypes) + [KnownType(file, reg, inputs[i])]
      ensures problems == old(problems) + added && FaultsOf(file, reg, Typing, inputs[i], added)
    {
      added := [];
      var declared := file.inputs[inputs[i]];
      if declared !in reg.types {
        added := Fail(UnknownType(inputs[i]), problems, added);
        inputTypes := inputTypes + [""];
      } else {
        inputTypes := inputTypes + [declared];
      }
    }

    /** Look every step's node up and build it with its configuration. */
    method Resolve() returns (ghost added: seq<Problem>)
      requires Indexed()
      modifies this`nodes, this`problems
      ensures problems == old(problems) + added && FaultsAre(file, reg, Building, added)
      ensures |nodes| == |ids| && NodesAre(file, reg, ids, nodes)
    {
      nodes, added := [], [];
      for i := 0 to |ids|
        invariant |nodes| == i && problems == old(problems) + added
        invariant NodesAre(file, reg, ids, nodes)
        invariant FaultsBefore(file, reg, Building, index, i, added)
      {
        OneMoreNode(file, reg, ids, nodes);
        ghost var more := ResolveOne(i);
        OneMoreName(file, reg, Building, ids, index, i, added, more);
        Joined(old(problems), added, more);
        added := added + more;
      }
      EveryName(file, reg, Building, inputs, ids, index, |ids|, added);
    }

    /** Only a step has a node; the position of an input stays empty. */
    method ResolveOne(i: nat) returns (ghost added: seq<Problem>)
      requires i < |ids| && |inputs| <= |ids| && (i < |inputs| <==> ids[i] !in file.steps)
      modifies this`nodes, this`problems
      ensures nodes == old(nodes) + [NodeOf(file, reg, ids[i])]
      ensures problems == old(problems) + added && FaultsOf(file, reg, Building, ids[i], added)
    {
      added := [];
      if i < |inputs| {
        nodes := nodes + [None];
        return;
      }
      var built := BuildNode(reg, file.steps[ids[i]]);
      if built.Built? {
        nodes := nodes + [Some(built.value)];
      } else {
        added := Fail(NodeProblem(ids[i]), problems, added);
        nodes := nodes + [None];
      }
    }

    // --------------------------------------------------------- dependencies, cycles

    method CheckDependencies() returns (ghost added: seq<Problem>)
      requires Indexed()
      modifies this`problems
      ensures problems == old(problems) + added && FaultsAre(file, reg, Needing, added)
    {
      added := [];
      for i := 0 to |ids|
        invariant problems == old(problems) + added
        invariant FaultsBefore(file, reg, Needing, index, i, added)
      {
        ghost var more := CheckDependenciesOf(ids[i]);
        OneMoreName(file, reg, Needing, ids, index, i, added, more);
        Joined(old(problems), added, more);
        added := added + more;
      }
      EveryName(file, reg, Needing, inputs, ids, index, |ids|, added);
    }

    method CheckDependenciesOf(id: string) returns (ghost added: seq<Problem>)
      requires Indexed()
      modifies this`problems
      ensures problems == old(problems) + added && FaultsOf(file, reg, Needing, id, added)
    {
      var needed := NeededSteps(file, id);
      added := [];
      for k := 0 to |needed|
        invariant problems == old(problems) + added
        invariant MissingAmong(file, id, needed[..k], added)
      {
        assert needed[..k + 1] == needed[..k] + [needed[k]];
        if needed[k] !in index {
          added := Fail(MissingDependency(id, needed[k]), old(problems), added);
        }
      }
      assert needed[..|needed|] == needed;
      MissingAll(file, reg, id, needed, added);
    }

    /** The resolved needs of every position. */
    method NeedsGraph() returns (g: Cycles.Graph)
      requires Indexed()
      ensures GraphOf(file, ids, g)
    {
      g := [];
      for i := 0 to |ids|
        invariant |g| == i
        invariant forall k :: 0 <= k < i ==> EdgesOf(file, ids, k, g[k])
      {
        var edges := EdgesFrom(i);
        g := g + [edges];
      }
    }

    method EdgesFrom(i: nat) returns (edges: seq<nat>)
      requires Indexed() && i < |ids|
      ensures EdgesOf(file, ids, i, edges)
    {
      var needed := NeededSteps(file, ids[i]);
      edges := [];
      for k := 0 to |needed|
        invariant forall p :: 0 <= p < |edges| ==> edges[p] < |ids| && ids[edges[p]] in needed
        invariant forall q :: 0 <= q < k && needed[q] in index ==> index[needed[q]] in edges
      {
        if needed[k] in index {
          edges := edges + [index[needed[k]]];
        }
      }
      forall j: nat | j < |ids|
        ensures j in edges <==> ids[j] in file.NeededBy(ids[i])
      {
        if ids[j] in file.NeededBy(ids[i]) {
          assert ids[j] in Elements(needed);
          var q :| 0 <= q < |needed| && needed[q] == ids[j];
        }
        if j in edges {
          assert ids[j] in Elements(needed);
        }
      }
    }

    /** The names along a cycle, or an order in which nothing comes before what it
        needs. */
    method FindCycle() returns (path: seq<string>, ghost order: seq<nat>)
      requires Indexed()
      ensures path == [] <==> NeedsAcyclic(file)
      ensures path != [] ==> NeedsCycle(file, path)
      ensures path == [] ==> Ordered(file, ids, order)
    {
      var g := NeedsGraph();
      var report;
      report, order := Cycles.CheckCycles(g);
      path := [];
      if report != [] {
        var names := ids;
        path := seq(|report|, k requires 0 <= k < |report| => names[report[k]]);
        CycleOfNames(file, ids, g, report);
        assert path == NamesAt(ids, report);
      } else {
        forall c | NeedsCycle(file, c)
          ensures false
        {
          CycleOfPositions(file, ids, index, g, c);
        }
        OrderOfNames(file, ids, g, order);
      }
    }

    /** At most one cycle is reported. */
    method CheckCycles() returns (ghost added: seq<Problem>, ghost order: seq<nat>)
      requires Indexed()
      modifies this`problems
      ensures problems == old(problems) + added && CycleShown(file, added)
      ensures NeedsAcyclic(file) ==> Ordered(file, ids, order)
    {
      var found;
      found, order := FindCycle();
      added := [];
      if found != [] {
        added := Fail(DependencyCycle(found), problems, added);
        assert added[0] == DependencyCycle(found);
      }
    }

    // -------------------------------------------------------------------- port binding

    /** Bind by port name: a name of no port and a port of no name are both faults. */
    method ResolveNamedNeeds(id: string, byPort: map<string, string>, d: Descriptor)
        returns (ds: seq<nat>, ok: bool, ghost added: seq<Problem>)
      requires Indexed() && byPort.Values <= file.Names()
      modifies this`problems
      ensures problems == old(problems) + added && NeedsFaultsAre(Named(byPort), d, id, added)
      ensures ok <==> added == []
      ensures ok ==> BindsTo(ids, Named(byPort), d, ds)
    {
      var bound;
      ds, bound, ok, added := BindPorts(id, byPort, d);
      ghost var unbound := added;
      var names := Names.Sorted(byPort.Keys);
      for k := 0 to |names|
        invariant problems == old(problems) + added && (ok <==> added == [])
        invariant forall q :: q in added <==> q in unbound || StrayAmong(d, byPort, id, names[..k], q)
      {
        assert names[..k + 1] == names[..k] + [names[k]];
        assert names[k] in Elements(names);
        if names[k] !in bound {
          ok := false;
          added := Fail(NoSuchPort(id, names[k]), old(problems), added);
        }
      }
      assert names[..|names|] == names;
      NamedFaults(d, byPort, id, names, unbound, added);
      NeedsFaultsDecide(Named(byPort), d, id, added);
    }

    method BindPorts(id: string, byPort: map<string, string>, d: Descriptor)
        returns (ds: seq<nat>, bound: set<string>, ok: bool, ghost added: seq<Problem>)
      requires Indexed() && byPort.Values <= file.Names()
      modifies this`problems
      ensures problems == old(problems) + added && (ok <==> added == [])
      ensures forall q :: q in added <==> UnboundAmong(d.inputs, byPort, id, q)
      ensures bound == d.PortNames() * byPort.Keys
      ensures PortsBound(ids, byPort, d.inputs, ds)
    {
      ds, bound, ok, added := [], {}, true, [];
      for p := 0 to |d.inputs|
        invariant problems == old(problems) + added && (ok <==> added == [])
        invariant BindsAmong(d.inputs[..p], byPort, id, bound, added)
        invariant PortsBound(ids, byPort, d.inputs[..p], ds)
      {
        var name := d.inputs[p].name;
        assert d.inputs[..p + 1] == d.inputs[..p] + [d.inputs[p]];
        OneMoreBinding(d.inputs[..p], byPort, id, bound, added, d.inputs[p]);
        if name !in byPort {
          added := Fail(UnboundPort(id, name), old(problems), added);
          ok := false;
          ds := ds + [0];
        } else {
          bound := bound + {name};
          assert byPort[name] in byPort.Values;
          ds := ds + [index[byPort[name]]];
        }
      }
      assert d.inputs[..|d.inputs|] == d.inputs;
    }

    /** Either form of needs, as positions in port order. The list form is refused
        for a node with two ports of one type, whatever the list says. */
    method ResolveNeeds(id: string, needs: Needs, d: Descriptor)
        returns (ds: seq<nat>, ok: bool, ghost added: seq<Problem>)
      requires Indexed() && needs.Names() <= file.Names()
      modifies this`problems
      ensures problems == old(problems) + added && NeedsFaultsAre(needs, d, id, added)
      ensures ok <==> added == []
      ensures ok ==> BindsTo(ids, needs, d, ds)
    {
      match needs
      case Named(byPort) =>
        ds, ok, added := ResolveNamedNeeds(id, byPort, d);
      case Positional(order) =>
        ds, ok, added := ResolveList(id, order, d);
    }

    method ResolveList(id: string, order: seq<string>, d: Descriptor)
        returns (ds: seq<nat>, ok: bool, ghost added: seq<Problem>)
      requires Indexed() && Elements(order) <= file.Names()
      modifies this`problems
      ensures problems == old(problems) + added && NeedsFaultsAre(Positional(order), d, id, added)
      ensures ok <==> added == []
      ensures ok ==> BindsTo(ids, Positional(order), d, ds)
    {
      added := [];
      var _, _, ambiguous := d.AmbiguousInputs();
      if ambiguous {
        added := Fail(AmbiguousPorts(id), problems, added);
        return [], false, added;
      }
      if |order| != d.Arity() {
        added := Fail(WrongArity(id), problems, added);
        return [], false, added;
      }
      ds, ok := [], true;
      for p := 0 to |order|
        invariant |ds| == p
        invariant forall q :: 0 <= q < p ==> ds[q] < |ids| && ids[ds[q]] == order[q]
      {
        assert order[p] in Elements(order);
        ds := ds + [index[order[p]]];
      }
    }

    // --------------------------------------------------------------------------- edges

    /** The first two phases are done. */
    ghost predicate Resolved()
      reads this
    {
      Indexed() && ResolvedTo(file, reg, inputs, ids, inputTypes, nodes)
    }

    function OutputType(i: nat): TypeID
      reads this
      requires |inputTypes| == |inputs| && |nodes| == |ids| && i < |ids|
    {
      if i < |inputs| then inputTypes[i]
      else if nodes[i].None? then ""
      else nodes[i].value.Describe().output.typ
    }

    lemma OutputTypeIsKnown(i: nat)
      requires Resolved() && i < |ids|
      ensures OutputType(i) == KnownType(file, reg, ids[i])
    {
      InputsFirst(file, inputs, ids, index);
    }

    /** Compare one edge with the port it feeds; nothing to compare if what it carries
        is not known. */
    method CheckPort(id: string, port: PortDescriptor, dep: nat, ghost start: seq<Problem>, ghost added: seq<Problem>)
        returns (ghost more: seq<Problem>)
      requires Resolved() && dep < |ids| && problems == start + added
      modifies this`problems
      ensures problems == start + more
      ensures more == if Mismatch(file, reg, ids[dep], port) then added + [EdgeMismatch(id, port.name)] else added
    {
      more := added;
      var got := OutputType(dep);
      OutputTypeIsKnown(dep);
      if got != "" && port.typ != got {
        more := Fail(EdgeMismatch(id, port.name), start, added);
      }
    }

    /** Compare each edge of one step with the port it feeds. */
    method CheckPorts(id: string, d: Descriptor, ds: seq<nat>) returns (ghost added: seq<Problem>)
      requires Resolved() && |ds| == d.Arity() && forall p :: 0 <= p < |ds| ==> ds[p] < |ids|
      modifies this`problems
      ensures problems == old(problems) + added
      ensures forall q :: q in added <==> MismatchAmong(file, reg, ids, id, d, ds, |ds|, q)
    {
      added := [];
      for p := 0 to |ds|
        invariant problems == old(problems) + added
        invariant forall q :: q in added <==> MismatchAmong(file, reg, ids, id, d, ds, p, q)
      {
        ghost var before := added;
        added := CheckPort(id, d.inputs[p], ds[p], old(problems), added);
        OneMorePort(file, reg, ids, id, d, ds, p, before, added);
      }
    }

    /** One step's edges: nothing to judge if its node or its needs did not
        resolve. */
    method CheckEdgesOf(i: nat) returns (ds: seq<nat>, ghost added: seq<Problem>)
      requires Resolved() && i < |ids|
      modifies this`problems
      ensures problems == old(problems) + added && FaultsOf(file, reg, Wiring, ids[i], added)
      ensures Kept(file, reg, ids, i, ds)
    {
      added := [];
      if i < |inputs| || nodes[i].None? {
        InputsFirst(file, inputs, ids, index);
        return [], [];
      }
      var step := file.steps[ids[i]];
      var resolves := DependenciesResolve(step);
      if !resolves {
        return [], [];
      }
      ds, added := JudgeEdgesOf(i, step.needs, nodes[i].value.Describe());
    }

    /** The edges of a step that can be judged. */
    method JudgeEdgesOf(i: nat, needs: Needs, d: Descriptor) returns (ds: seq<nat>, ghost added: seq<Problem>)
      requires Resolved() && i < |ids| && Judgeable(file, reg, ids[i])
      requires needs == file.steps[ids[i]].needs && d == NodeOf(file, reg, ids[i]).value.Describe()
      modifies this`problems
      ensures problems == old(problems) + added && FaultsOf(file, reg, Wiring, ids[i], added)
      ensures Kept(file, reg, ids, i, ds)
    {
      var ok;
      ds, ok, added := ResolveNeeds(ids[i], needs, d);
      NeedsFaultsDecide(needs, d, ids[i], added);
      if !ok {
        NeedsNotFitting(file, reg, ids[i], added);
        return [], added;
      }
      added := CheckPorts(ids[i], d, ds);
      NeedsFitting(file, reg, ids, ids[i], ds, added);
    }

    method DependenciesResolve(step: Step) returns (ok: bool)
      requires Indexed() && step in file.steps.Values
      ensures ok <==> step.needs.Names() <= file.Names()
    {
      ghost var id :| id in file.steps && file.steps[id] == step;
      match step.needs
      case Positional(order) =>
        ok := forall k :: 0 <= k < |order| ==> order[k] in index;
        assert ok <==> Elements(order) <= file.Names() by {
          assert forall k :: 0 <= k < |order| ==> order[k] in Elements(order);
        }
      case Named(byPort) =>
        ok := forall name :: name in byPort ==> byPort[name] in index;
    }

    /** Resolve every step's needs to positions and type check every edge. */
    method CheckEdges() returns (ghost added: seq<Problem>)
      requires Resolved()
      modifies this`deps, this`problems
      ensures problems == old(problems) + added && FaultsAre(file, reg, Wiring, added)
      ensures AllKept(file, reg, ids, deps) && |deps| == |ids|
    {
      deps, added := [], [];
      for i := 0 to |ids|
        invariant |deps| == i && problems == old(problems) + added
        invariant AllKept(file, reg, ids, deps)
        invariant FaultsBefore(file, reg, Wiring, index, i, added)
      {
        var ds;
        ghost var more;
        ds, more := CheckEdgesOf(i);
        OneMoreName(file, reg, Wiring, ids, index, i, added, more);
        OneMoreKept(file, reg, ids, deps, ds);
        Joined(old(problems), added, more);
        added, deps := added + more, deps + [ds];
      }
      EveryName(file, reg, Wiring, inputs, ids, index, |ids|, added);
    }

    // ------------------------------------------------------------------------- trigger

    /** Every declared input of known type must be supplied, at that type. */
    method CheckSupplied(t: Trigger) returns (ghost added: seq<Problem>)
      requires Resolved() && InputsDeclared(file)
      modifies this`problems
      ensures problems == old(problems) + added && FaultsAre(file, reg, Supplying(t), added)
    {
      added := [];
      InputsFirst(file, inputs, ids, index);
      for i := 0 to |inputs|
        invariant problems == old(problems) + added
        invariant FaultsBefore(file, reg, Supplying(t), index, i, added)
      {
        ghost var more := CheckInput(i, t);
        OneMoreName(file, reg, Supplying(t), ids, index, i, added, more);
        Joined(old(problems), added, more);
        added := added + more;
      }
      EveryName(file, reg, Supplying(t), inputs, ids, index, |inputs|, added);
    }

    method CheckInput(i: nat, t: Trigger) returns (ghost added: seq<Problem>)
      requires Resolved() && InputsDeclared(file) && i < |inputs| && inputs[i] in file.inputs
      modifies this`problems
      ensures problems == old(problems) + added && FaultsOf(file, reg, Supplying(t), inputs[i], added)
    {
      added := [];
      var declared := inputTypes[i];
      if declared != "" {
        var given := t.desc.Provided(inputs[i]);
        if given.None? {
          added := Fail(InputNotSupplied(inputs[i]), problems, added);
        } else if given.value != declared {
          added := Fail(InputSuppliedOtherwise(inputs[i]), problems, added);
        }
      }
    }

    /** Locate the step whose output answers the caller. */
    method ResolveRespondWith(spec: TriggerSpec, t: Trigger) returns (i: int, ghost added: seq<Problem>)
      requires Resolved()
      modifies this`problems
      ensures problems == old(problems) + added
      ensures forall q :: q in added <==> ReplyFault(file, reg, spec, t, q)
      ensures RepliesWith(file, reg, inputs, ids, spec, t, i)
    {
      i, added := -1, [];
      if spec.respondWith == "" {
        return;
      }
      if t.responseTypes.None? {
        added := Fail(NobodyToAnswer, problems, added);
        return;
      }
      if spec.respondWith !in index {
        added := Fail(ReplyUnknown, problems, added);
        return;
      }
      var at := index[spec.respondWith];
      if at < |inputs| {
        added := Fail(ReplyIsInput, problems, added);
        return;
      }
      i, added := ResolveReply(spec, t, at);
    }

    method ResolveReply(spec: TriggerSpec, t: Trigger, at: nat) returns (i: int, ghost added: seq<Problem>)
      requires Resolved() && |inputs| <= at < |ids| && ids[at] == spec.respondWith != ""
      requires t.responseTypes.Some?
      modifies this`problems
      ensures problems == old(problems) + added
      ensures forall q :: q in added <==> ReplyFault(file, reg, spec, t, q)
      ensures RepliesWith(file, reg, inputs, ids, spec, t, i)
    {
      i, added := -1, [];
      var got := OutputType(at);
      OutputTypeIsKnown(at);
      if got == "" {
        return;
      }
      if got !in t.responseTypes.value {
        added := Fail(ReplyUnwritable, problems, added);
        return;
      }
      i := at;
    }

    /** Build the trigger block and prove that it fits the pipeline. */
    method ResolveTrigger() returns (ghost added: seq<Problem>)
      requires Resolved() && InputsDeclared(file) && trigger.None?
      modifies this`trigger, this`problems
      ensures problems == old(problems) + added
      ensures file.trigger.None? ==> added == []
      ensures file.trigger.Some? ==> forall q :: q in added <==> TriggerFault(file, reg, file.trigger.value, q)
      ensures TriggerBound(file, reg, inputs, ids, trigger)
    {
      added := [];
      if file.trigger.None? {
        return;
      }
      var built := BuildTrigger(reg, file.trigger.value);
      if !built.Built? {
        added := Fail(TriggerUnbuilt, problems, added);
        return;
      }
      added := BindTrigger(file.trigger.value, built.value);
    }

    method BindTrigger(spec: TriggerSpec, t: Trigger) returns (ghost added: seq<Problem>)
      requires Resolved() && InputsDeclared(file) && BuildTrigger(reg, spec) == Built(t)
      modifies this`trigger, this`problems
      ensures problems == old(problems) + added
      ensures forall q :: q in added <==> TriggerFault(file, reg, spec, q)
      ensures trigger.Some? && BindsTrigger(reg, spec, trigger.value)
      ensures RepliesWith(file, reg, inputs, ids, spec, t, trigger.value.respondStep)
    {
      added := CheckSupplied(t);
      ghost var supply := added;
      if t.responseTypes.Some? && spec.timeout <= 0 {
        added := Fail(NoTimeout, old(problems), added);
      }
      ghost var middle := added;
      var overlap := if spec.onOverlap.Some? then spec.onOverlap.value else OverlapDefault(t);
      var respond;
      ghost var reply;
      respond, reply := ResolveRespondWith(spec, t);
      trigger := Some(TriggerBinding(spec.uses, t, respond, spec.timeout, overlap));
      Joined(old(problems), middle, reply);
      added := middle + reply;
      TriggerFaultsAre(file, reg, spec, t, supply, middle, reply);
    }

    // ---------------------------------------------------------------------------- plan

    /** Everything a plan is made from has been found. */
    ghost predicate Complete()
      reads this
    {
      && Resolved()
      && AllKept(file, reg, ids, deps) && |deps| == |ids|
      && TriggerBound(file, reg, inputs, ids, trigger)
    }

    /** The phases that look at names alone. */
    method CheckNames() returns (ghost found: NameProblems, ghost order: seq<nat>)
      requires Indexed() && problems == [] && file.Validated()
      modifies this`inputTypes, this`nodes, this`problems
      ensures Resolved() && problems == found.All() && NamesReported(file, reg, found)
      ensures NeedsAcyclic(file) ==> Ordered(file, ids, order)
    {
      ghost var typing := ResolveInputs();
      ghost var building := Resolve();
      ghost var needing := CheckDependencies();
      ghost var cycle;
      cycle, order := CheckCycles();
      found := NameProblems(typing, building, needing, cycle);
      assert [] + typing == typing;
    }

    /** The phases that look at types. They judge nothing that the earlier phases
        have already reported. */
    method CheckTypes() returns (ghost found: TypeProblems)
      requires Resolved() && InputsDeclared(file) && trigger.None?
      modifies this`deps, this`trigger, this`problems
      ensures Complete() && problems == old(problems) + (found.wiring + found.trigger)
      ensures TypesReported(file, reg, found)
    {
      ghost var wiring := CheckEdges();
      ghost var triggering := ResolveTrigger();
      found := TypeProblems(wiring, triggering);
      Joined(old(problems), wiring, triggering);
    }

    /** Run every phase, whatever the earlier ones found. */
    method Check() returns (ghost order: seq<nat>)
      requires Indexed() && trigger.None? && problems == [] && file.Validated()
      modifies this`inputTypes, this`nodes, this`deps, this`trigger, this`problems
      ensures Complete() && ExactlyReported(file, reg, problems)
      ensures NeedsAcyclic(file) ==> Ordered(file, ids, order)
    {
      ghost var names, types;
      names, order := CheckNames();
      types := CheckTypes();
      AllReported(file, reg, names, types);
    }

    /** One entry per position. */
    method Entries() returns (entries: seq<Layout.Entry>)
      requires Resolved() && |deps| == |ids|
      ensures EntriesOf(file, reg, |inputs|, ids, deps, entries) && |entries| == |ids|
    {
      entries := [];
      for i := 0 to |ids|
        invariant |entries| == i && EntriesOf(file, reg, |inputs|, ids, deps, entries)
      {
        var e := if i < |inputs| then Layout.Entry(ids[i], None, [], DEFAULT_RETRY)
                 else Layout.Entry(ids[i], nodes[i], deps[i], file.steps[ids[i]].RetryPolicy());
        assert EntryOf(file, reg, |inputs|, ids[i], deps[i], i, e);
        entries := entries + [e];
      }
    }

    /** Lay out what the phases found. */
    method LayOut(name: string) returns (plan: ExecutionPlan)
      requires Complete() && AllBoundTo(file, reg, ids, |inputs|, deps) && InputsTyped(file, reg)
      ensures plan.name == name && plan.trigger == trigger
      ensures Represents(file, reg, inputs, ids, plan)
      ensures plan.WindowsTile() && plan.Transposed() && plan.RootsExact() && plan.IndicesInRange()
    {
      var entries := Entries();
      DepsInRange(file, reg, inputs, ids, deps, entries);
      InputsFirst(file, inputs, ids, index);
      forall i | 0 <= i < |inputs|
        ensures entries[i].deps == [] && entries[i].id == inputs[i] && inputTypes[i] == file.inputs[inputs[i]]
      {
        assert EntryOf(file, reg, |inputs|, ids[i], deps[i], i, entries[i]);
      }
      plan := Layout.LayOut(name, entries, inputTypes, trigger);
      LayoutRepresents(file, reg, inputs, ids, deps, entries, plan);
    }

    /** The plan of a file in which nothing was found wrong. */
    method Plan(name: string, ghost order: seq<nat>) returns (plan: ExecutionPlan)
      requires Complete() && Lists(file, inputs, ids) && Ordered(file, ids, order)
      requires file.Validated() && Acceptable(file, reg)
      ensures plan.name == name && plan.WellFormed() && Compiles(file, reg, plan)
    {
      AcceptableIsBound(file, reg, inputs, ids, index, deps);
      plan := LayOut(name);
      PlanIsTyped(file, reg, inputs, ids, plan);
      PlanIsAcyclic(file, reg, inputs, ids, plan, order);
      PlanCompiles(file, reg, inputs, ids, plan);
    }

    /** Every phase, and then the plan if nothing was found wrong. */
    method Run(name: string) returns (r: Compiled)
      requires Indexed() && Lists(file, inputs, ids) && trigger.None? && problems == []
      requires file.Validated() && reg.Valid()
      modifies this`inputTypes, this`nodes, this`deps, this`trigger, this`problems
      ensures Answers(file, reg, name, r)
    {
      ghost var order := Check();
      NothingReported(file, reg, problems);
      if problems != [] {
        return CompileError(problems);
      }
      var plan := Plan(name, order);
      return Compiled.Plan(plan);
    }
  }

  datatype Compiled = Plan(plan: ExecutionPlan) | CompileError(problems: seq<Problem>)

  /** A file has a plan exactly when it is acceptable. The plan is laid out as the
      scheduler relies on and says what the file says. A file without one gets every
      fault it has as a problem, and no other. */
  ghost predicate Answers(f: File, reg: Registries, name: string, r: Compiled) {
    && (r.Plan? <==> Acceptable(f, reg))
    && (r.Plan? ==> r.plan.name == name && r.plan.WellFormed() && Compiles(f, reg, r.plan))
    && (r.CompileError? ==> r.problems != [] && ExactlyReported(f, reg, r.problems))
  }

  method Compile(f: File, reg: Registries, name: string) returns (r: Compiled)
    requires f.Validated() && reg.Valid()
    ensures r.Plan? <==> Acceptable(f, reg)
    ensures r.Plan? ==> r.plan.name == name && r.plan.WellFormed() && Compiles(f, reg, r.plan)
    ensures r.CompileError? ==> r.problems != [] && ExactlyReported(f, reg, r.problems)
  {
    var c := new Compilation(f, reg);
    r := c.Run(name);
    assert Answers(f, reg, name, r);
  }
}
