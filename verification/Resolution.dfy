/** What each phase of the compiler decides, position by position: the bridge
    between a file's names and the indices a plan uses. */
module Resolution {
  import opened Collections
  import opened Nodes
  import opened Pipeline
  import opened Source
  import opened Faults
  import Names
  import Cycles
  import Layout

  /** ids lists the inputs and then the steps, each group sorted. */
  ghost predicate Lists(f: File, inputs: seq<string>, ids: seq<string>) {
    && Distinct(ids)
    && |inputs| <= |ids| && ids[..|inputs|] == inputs
    && Names.Ascending(inputs) && Elements(inputs) == f.inputs.Keys
    && Names.Ascending(ids[|inputs|..]) && Elements(ids[|inputs|..]) == f.steps.Keys
  }

  /** index finds every name, inputs before steps. */
  ghost predicate Finds(f: File, inputs: seq<string>, ids: seq<string>, index: map<string, nat>) {
    && |inputs| <= |ids| && ids[..|inputs|] == inputs
    && (forall i :: 0 <= i < |ids| ==> ids[i] in index && index[ids[i]] == i)
    && (forall name :: name in index ==> index[name] < |ids| && ids[index[name]] == name)
    && (forall name :: name in f.inputs <==> name in index && index[name] < |inputs|)
    && (forall name :: name in f.steps <==> name in index && |inputs| <= index[name])
  }

  lemma ListsFind(f: File, inputs: seq<string>, ids: seq<string>, index: map<string, nat>)
    requires Lists(f, inputs, ids) && f.Validated()
    requires forall i :: 0 <= i < |ids| ==> ids[i] in index && index[ids[i]] == i
    requires forall name :: name in index ==> index[name] < |ids| && ids[index[name]] == name
    ensures Finds(f, inputs, ids, index)
  {
    var steps := ids[|inputs|..];
    forall name
      ensures name in f.inputs <==> name in index && index[name] < |inputs|
      ensures name in f.steps <==> name in index && |inputs| <= index[name]
    {
      if name in f.inputs {
        assert name in Elements(inputs);
        var i :| 0 <= i < |inputs| && inputs[i] == name;
        assert ids[i] == name;
      }
      if name in f.steps {
        assert name in Elements(steps);
        var k :| 0 <= k < |steps| && steps[k] == name;
        assert ids[|inputs| + k] == name;
      }
      if name in index {
        var i := index[name];
        assert i < |inputs| ==> inputs[i] in Elements(inputs);
        assert |inputs| <= i ==> steps[i - |inputs|] in Elements(steps);
      }
    }
  }

  // -------------------------------------------------------------------------- phases

  lemma Joined(a: seq<Problem>, b: seq<Problem>, c: seq<Problem>)
    ensures a + b + c == a + (b + c)
  {
  }

  /** No declared type is empty: parsing has seen to that. */
  ghost predicate InputsDeclared(f: File) {
    forall name :: name in f.inputs ==> f.inputs[name] != ""
  }

  /** The phases that go through the names one by one. */
  datatype Phase = Typing | Building | Needing | Wiring | Supplying(trigger: Trigger)

  ghost predicate FaultIn(f: File, reg: Registries, phase: Phase, q: Problem) {
    match phase
    case Typing => InputFault(f, reg, q)
    case Building => NodeFault(f, reg, q)
    case Needing => MissingFault(f, q)
    case Wiring => EdgeFault(f, reg, q)
    case Supplying(t) => SupplyFault(f, reg, t, q)
  }

  /** `found` holds a phase's faults of one name, all of them and nothing else. */
  ghost predicate FaultsOf(f: File, reg: Registries, phase: Phase, id: string, found: seq<Problem>) {
    forall q :: q in found <==> FaultIn(f, reg, phase, q) && q.Of() == Some(id)
  }

  /** `found` holds a phase's faults of the names before position i. */
  ghost predicate FaultsBefore(f: File, reg: Registries, phase: Phase, index: map<string, nat>, i: nat,
                               found: seq<Problem>) {
    forall q :: q in found <==>
      FaultIn(f, reg, phase, q) && q.Of().Some? && q.Of().value in index && index[q.Of().value] < i
  }

  lemma OneMoreName(f: File, reg: Registries, phase: Phase, ids: seq<string>, index: map<string, nat>, i: nat,
                    found: seq<Problem>, more: seq<Problem>)
    requires i < |ids| && ids[i] in index && index[ids[i]] == i
    requires forall name :: name in index ==> index[name] < |ids| && ids[index[name]] == name
    requires FaultsBefore(f, reg, phase, index, i, found) && FaultsOf(f, reg, phase, ids[i], more)
    ensures FaultsBefore(f, reg, phase, index, i + 1, found + more)
  {
  }

  /** A phase's faults, all of them and nothing else. */
  ghost predicate FaultsAre(f: File, reg: Registries, phase: Phase, found: seq<Problem>) {
    forall q :: q in found <==> FaultIn(f, reg, phase, q)
  }

  lemma EveryName(f: File, reg: Registries, phase: Phase, inputs: seq<string>, ids: seq<string>,
                  index: map<string, nat>, i: nat, found: seq<Problem>)
    requires Finds(f, inputs, ids, index) && FaultsBefore(f, reg, phase, index, i, found)
    requires i == |ids| || (i == |inputs| && (phase.Typing? || phase.Supplying?))
    ensures FaultsAre(f, reg, phase, found)
  {
    forall q | FaultIn(f, reg, phase, q)
      ensures q.Of().Some? && q.Of().value in index && index[q.Of().value] < i
    {
    }
  }

  /** The missing ones among some of what a step needs. */
  ghost predicate MissingAmong(f: File, id: string, needed: seq<string>, found: seq<Problem>) {
    forall q :: q in found <==> q.MissingDependency? && q.step == id && q.dep in needed && q.dep !in f.Names()
  }

  lemma MissingAll(f: File, reg: Registries, id: string, needed: seq<string>, found: seq<Problem>)
    requires MissingAmong(f, id, needed, found) && Elements(needed) == f.NeededBy(id)
    ensures FaultsOf(f, reg, Needing, id, found)
  {
    forall q: Problem
      ensures q in found <==> MissingFault(f, q) && q.Of() == Some(id)
    {
      assert q.MissingDependency? ==> (q.dep in needed <==> q.dep in Elements(needed));
    }
  }

  // ------------------------------------------------------------------- port binding

  ghost predicate NeedsFaultsAre(needs: Needs, d: Descriptor, id: string, found: seq<Problem>) {
    forall q :: q in found <==> NeedsFault(needs, d, q) && q.Of() == Some(id)
  }

  ghost predicate HasPort(ports: seq<PortDescriptor>, name: string) {
    exists p :: 0 <= p < |ports| && ports[p].name == name
  }

  ghost predicate UnboundAmong(ports: seq<PortDescriptor>, byPort: map<string, string>, id: string, q: Problem) {
    q.UnboundPort? && q.step == id && q.port !in byPort && HasPort(ports, q.port)
  }

  ghost predicate BoundAmong(ports: seq<PortDescriptor>, byPort: map<string, string>, bound: set<string>) {
    forall name :: name in bound <==> name in byPort && HasPort(ports, name)
  }

  /** What binding the first ports leaves behind. */
  ghost predicate BindsAmong(ports: seq<PortDescriptor>, byPort: map<string, string>, id: string, bound: set<string>,
                             found: seq<Problem>) {
    && BoundAmong(ports, byPort, bound)
    && forall q :: q in found <==> UnboundAmong(ports, byPort, id, q)
  }

  lemma OneMoreBinding(ports: seq<PortDescriptor>, byPort: map<string, string>, id: string, bound: set<string>,
                       found: seq<Problem>, port: PortDescriptor)
    requires BindsAmong(ports, byPort, id, bound, found)
    ensures port.name in byPort ==> BindsAmong(ports + [port], byPort, id, bound + {port.name}, found)
    ensures port.name !in byPort ==>
      BindsAmong(ports + [port], byPort, id, bound, found + [UnboundPort(id, port.name)])
  {
    var more := ports + [port];
    forall name
      ensures HasPort(more, name) <==> HasPort(ports, name) || name == port.name
    {
      if p :| 0 <= p < |ports| && ports[p].name == name {
        assert more[p].name == name;
      }
      assert more[|ports|].name == port.name;
    }
  }

  /** Each port that is bound has the position of the step bound to it. */
  ghost predicate PortsBound(ids: seq<string>, byPort: map<string, string>, ports: seq<PortDescriptor>, ds: seq<nat>) {
    && |ds| == |ports|
    && forall p :: 0 <= p < |ports| && ports[p].name in byPort ==>
         ds[p] < |ids| && ids[ds[p]] == byPort[ports[p].name]
  }

  lemma NeedsFaultsDecide(needs: Needs, d: Descriptor, id: string, found: seq<Problem>)
    requires NeedsFaultsAre(needs, d, id, found)
    ensures found == [] <==> needs.Fits(d)
  {
    NeedsFit(needs, d, id);
    if found != [] {
      assert found[0] in found;
    }
  }

  ghost predicate StrayAmong(d: Descriptor, byPort: map<string, string>, id: string, names: seq<string>, q: Problem) {
    q.NoSuchPort? && q.step == id && q.port in names && q.port in byPort && q.port !in d.PortNames()
  }

  lemma NamedFaults(d: Descriptor, byPort: map<string, string>, id: string, names: seq<string>,
                    unbound: seq<Problem>, found: seq<Problem>)
    requires Elements(names) == byPort.Keys
    requires forall q :: q in unbound <==> UnboundAmong(d.inputs, byPort, id, q)
    requires forall q :: q in found <==> q in unbound || StrayAmong(d, byPort, id, names, q)
    ensures NeedsFaultsAre(Named(byPort), d, id, found)
  {
    forall q: Problem
      ensures q in found <==> NeedsFault(Named(byPort), d, q) && q.Of() == Some(id)
    {
      assert q.NoSuchPort? ==> (q.port in names <==> q.port in Elements(names));
      assert q.UnboundPort? ==> (q.port in d.PortNames() <==> HasPort(d.inputs, q.port));
    }
  }

  // ------------------------------------------------------------------------- edges

  /** A mismatch at one of the first n ports. */
  ghost predicate MismatchAmong(f: File, reg: Registries, ids: seq<string>, id: string, d: Descriptor,
                                ds: seq<nat>, n: nat, q: Problem)
    requires |ds| == d.Arity() && n <= |ds| && forall p :: 0 <= p < |ds| ==> ds[p] < |ids|
  {
    q.EdgeMismatch? && q.step == id &&
    exists p :: 0 <= p < n && d.inputs[p].name == q.port && Mismatch(f, reg, ids[ds[p]], d.inputs[p])
  }

  lemma OneMorePort(f: File, reg: Registries, ids: seq<string>, id: string, d: Descriptor, ds: seq<nat>, n: nat,
                    found: seq<Problem>, more: seq<Problem>)
    requires |ds| == d.Arity() && n < |ds| && forall p :: 0 <= p < |ds| ==> ds[p] < |ids|
    requires forall q :: q in found <==> MismatchAmong(f, reg, ids, id, d, ds, n, q)
    requires more == if Mismatch(f, reg, ids[ds[n]], d.inputs[n])
                     then found + [EdgeMismatch(id, d.inputs[n].name)] else found
    ensures forall q :: q in more <==> MismatchAmong(f, reg, ids, id, d, ds, n + 1, q)
  {
  }

  lemma NeedsNotFitting(f: File, reg: Registries, id: string, found: seq<Problem>)
    requires Judgeable(f, reg, id) && !Bindable(f, reg, id)
    requires NeedsFaultsAre(f.steps[id].needs, NodeOf(f, reg, id).value.Describe(), id, found)
    ensures FaultsOf(f, reg, Wiring, id, found)
  {
  }

  lemma NeedsFitting(f: File, reg: Registries, ids: seq<string>, id: string, ds: seq<nat>, found: seq<Problem>)
    requires Bindable(f, reg, id) && BindsTo(ids, f.steps[id].needs, NodeOf(f, reg, id).value.Describe(), ds)
    requires forall q :: q in found <==>
      MismatchAmong(f, reg, ids, id, NodeOf(f, reg, id).value.Describe(), ds, |ds|, q)
    ensures FaultsOf(f, reg, Wiring, id, found)
  {
    var needs, d := f.steps[id].needs, NodeOf(f, reg, id).value.Describe();
    NeedsFit(needs, d, id);
    forall q: Problem
      ensures q in found <==> EdgeFault(f, reg, q) && q.Of() == Some(id)
    {
      assert q.Of() == Some(id) ==> !NeedsFault(needs, d, q);
      assert forall p :: 0 <= p < d.Arity() ==> ids[ds[p]] == needs.Bound(d, p);
    }
  }

  // ------------------------------------------------------------------- the whole report

  lemma TriggerFaultsAre(f: File, reg: Registries, spec: TriggerSpec, t: Trigger, supply: seq<Problem>,
                         middle: seq<Problem>, reply: seq<Problem>)
    requires BuildTrigger(reg, spec) == Built(t)
    requires FaultsAre(f, reg, Supplying(t), supply)
    requires middle == if t.responseTypes.Some? && spec.timeout <= 0 then supply + [NoTimeout] else supply
    requires forall q :: q in reply <==> ReplyFault(f, reg, spec, t, q)
    ensures forall q :: q in middle + reply <==> TriggerFault(f, reg, spec, q)
  {
    forall q: Problem
      ensures q in middle + reply <==> TriggerFault(f, reg, spec, q)
    {
      assert q in supply <==> FaultIn(f, reg, Supplying(t), q);
    }
  }

  /** One cycle is shown if there is any, and what is shown is one. */
  ghost predicate CycleShown(f: File, found: seq<Problem>) {
    if NeedsAcyclic(f) then found == []
    else |found| == 1 && found[0].DependencyCycle? && NeedsCycle(f, found[0].path)
  }

  datatype NameProblems = NameProblems(
    typing: seq<Problem>, building: seq<Problem>, needing: seq<Problem>, cycle: seq<Problem>)
  {
    ghost function All(): seq<Problem> { typing + building + needing + cycle }
  }

  datatype TypeProblems = TypeProblems(wiring: seq<Problem>, trigger: seq<Problem>)

  ghost predicate NamesReported(f: File, reg: Registries, found: NameProblems) {
    && FaultsAre(f, reg, Typing, found.typing) && FaultsAre(f, reg, Building, found.building)
    && FaultsAre(f, reg, Needing, found.needing) && CycleShown(f, found.cycle)
  }

  ghost predicate TypesReported(f: File, reg: Registries, found: TypeProblems) {
    && FaultsAre(f, reg, Wiring, found.wiring)
    && (f.trigger.None? ==> found.trigger == [])
    && (f.trigger.Some? ==> forall q :: q in found.trigger <==> TriggerFault(f, reg, f.trigger.value, q))
  }

  /** Every problem is a fault of the file; every fault but a cycle is among the
      problems; and if there are cycles, exactly one of them is. */
  ghost predicate ExactlyReported(f: File, reg: Registries, problems: seq<Problem>) {
    && (forall q :: q in problems ==> Fault(f, reg, q))
    && (forall q :: Fault(f, reg, q) && !q.DependencyCycle? ==> q in problems)
    && (NeedsAcyclic(f) || ShowsOneCycle(f, problems))
  }

  ghost predicate ShowsOneCycle(f: File, problems: seq<Problem>) {
    exists k :: 0 <= k < |problems| && ShowsCycleAt(f, problems, k)
  }

  ghost predicate ShowsCycleAt(f: File, problems: seq<Problem>, k: nat)
    requires k < |problems|
  {
    && problems[k].DependencyCycle? && NeedsCycle(f, problems[k].path)
    && forall j :: 0 <= j < |problems| && j != k ==> !problems[j].DependencyCycle?
  }

  lemma AllReported(f: File, reg: Registries, names: NameProblems, types: TypeProblems)
    requires NamesReported(f, reg, names) && TypesReported(f, reg, types)
    ensures ExactlyReported(f, reg, names.All() + (types.wiring + types.trigger))
  {
    var first, last := names.typing + names.building + names.needing, types.wiring + types.trigger;
    var problems := names.All() + last;
    assert problems == first + names.cycle + last;
    forall q: Problem
      ensures q in first || q in last <==> Fault(f, reg, q) && !q.DependencyCycle?
    {
      PhasesCover(f, reg, names, types, q);
    }
    forall q | q in problems
      ensures Fault(f, reg, q)
    {
      assert q in first || q in names.cycle || q in last;
    }
    if !NeedsAcyclic(f) {
      var k := |first|;
      assert problems[k] == names.cycle[0];
      forall j | 0 <= j < |problems| && j != k
        ensures !problems[j].DependencyCycle?
      {
        assert j < k ==> problems[j] == first[j] && first[j] in first;
        assert j > k ==> problems[j] == last[j - k - 1] && last[j - k - 1] in last;
      }
      assert ShowsCycleAt(f, problems, k);
    }
  }

  lemma PhasesCover(f: File, reg: Registries, names: NameProblems, types: TypeProblems, q: Problem)
    requires NamesReported(f, reg, names) && TypesReported(f, reg, types)
    ensures (q in names.typing + names.building + names.needing || q in types.wiring + types.trigger) <==>
      (Fault(f, reg, q) && !q.DependencyCycle?)
  {
    assert q in names.typing <==> FaultIn(f, reg, Typing, q);
    assert q in names.building <==> FaultIn(f, reg, Building, q);
    assert q in names.needing <==> FaultIn(f, reg, Needing, q);
    assert q in types.wiring <==> FaultIn(f, reg, Wiring, q);
  }

  /** An empty report is an acceptable file. */
  lemma NothingReported(f: File, reg: Registries, problems: seq<Problem>)
    requires f.Validated() && reg.Valid() && ExactlyReported(f, reg, problems)
    ensures problems == [] <==> Acceptable(f, reg)
  {
    AcceptableIsFaultless(f, reg);
    if problems == [] {
      forall q
        ensures !Fault(f, reg, q)
      {
        assert q.DependencyCycle? ==> !NeedsCycle(f, q.path);
      }
    } else {
      assert problems[0] in problems;
    }
  }

  // ------------------------------------------------------------- cycles, by name

  ghost predicate GraphOf(f: File, ids: seq<string>, g: Cycles.Graph) {
    && |g| == |ids| && Cycles.ValidGraph(g)
    && forall i, j :: 0 <= i < |ids| && 0 <= j < |ids| ==> (j in g[i] <==> ids[j] in f.NeededBy(ids[i]))
  }

  ghost function NamesAt(ids: seq<string>, c: seq<nat>): seq<string>
    requires forall k :: 0 <= k < |c| ==> c[k] < |ids|
  {
    seq(|c|, k requires 0 <= k < |c| => ids[c[k]])
  }

  lemma CycleOfNames(f: File, ids: seq<string>, g: Cycles.Graph, c: seq<nat>)
    requires GraphOf(f, ids, g) && Cycles.IsCycle(g, c)
    requires forall i :: 0 <= i < |ids| ==> ids[i] in f.Names()
    ensures NeedsCycle(f, NamesAt(ids, c))
  {
    var names := NamesAt(ids, c);
    forall k | 0 <= k < |c| - 1
      ensures names[k + 1] in f.NeededBy(names[k])
    {
      assert c[k + 1] in g[c[k]];
    }
  }

  lemma CycleOfPositions(f: File, ids: seq<string>, index: map<string, nat>, g: Cycles.Graph, names: seq<string>)
    requires GraphOf(f, ids, g) && NeedsCycle(f, names)
    requires forall name :: name in f.Names() ==> name in index && index[name] < |ids| && ids[index[name]] == name
    ensures Cycles.HasCycle(g)
  {
    var at: seq<nat> := seq(|names|, k requires 0 <= k < |names| => index[names[k]]);
    forall k | 0 <= k < |at| - 1
      ensures at[k + 1] in g[at[k]]
    {
      assert names[k + 1] in f.NeededBy(names[k]);
    }
    assert Cycles.IsCycle(g, at);
  }

  /** The finishing order: every position follows what it needs. */
  ghost predicate Ordered(f: File, ids: seq<string>, order: seq<nat>) {
    && Distinct(order)
    && (forall i :: 0 <= i < |ids| ==> i in order)
    && (forall k, j: nat ::
          (0 <= k < |order| && order[k] < |ids| && j < |ids| && ids[j] in f.NeededBy(ids[order[k]])) ==>
            j in order[..k])
  }

  lemma OrderOfNames(f: File, ids: seq<string>, g: Cycles.Graph, order: seq<nat>)
    requires GraphOf(f, ids, g) && Cycles.Topological(g, order) && forall i :: 0 <= i < |g| ==> i in order
    ensures Ordered(f, ids, order)
  {
  }

  ghost predicate EdgesOf(f: File, ids: seq<string>, i: nat, edges: seq<nat>)
    requires i < |ids|
  {
    && (forall p :: 0 <= p < |edges| ==> edges[p] < |ids|)
    && (forall j :: 0 <= j < |ids| ==> (j in edges <==> ids[j] in f.NeededBy(ids[i])))
  }

  /** The steps referenced: as listed, or by port name in ascending order. */
  ghost predicate InOrder(needs: Needs, steps: seq<string>) {
    match needs
    case Positional(order) => steps == order
    case Named(byPort) => exists ports :: ByPort(byPort, ports, steps)
  }

  ghost predicate ByPort(byPort: map<string, string>, ports: seq<string>, steps: seq<string>) {
    && Names.Ascending(ports) && Elements(ports) == byPort.Keys && |steps| == |ports|
    && forall j :: 0 <= j < |ports| ==> ports[j] in byPort && steps[j] == byPort[ports[j]]
  }

  lemma ByPortElements(byPort: map<string, string>, ports: seq<string>, steps: seq<string>)
    requires ByPort(byPort, ports, steps)
    ensures Elements(steps) == byPort.Values
  {
    forall step
      ensures step in Elements(steps) <==> step in byPort.Values
    {
      if step in byPort.Values {
        var port :| port in byPort && byPort[port] == step;
        assert port in Elements(ports);
        var j :| 0 <= j < |ports| && ports[j] == port;
        assert steps[j] == step;
      }
    }
  }

  /** The steps a name needs, in a deterministic order. */
  method NeededSteps(f: File, name: string) returns (steps: seq<string>)
    ensures Elements(steps) == f.NeededBy(name)
    ensures name in f.steps ==> InOrder(f.steps[name].needs, steps)
  {
    if name !in f.steps {
      return [];
    }
    match f.steps[name].needs
    case Positional(order) =>
      steps := order;
    case Named(byPort) =>
      var ports := Names.Sorted(byPort.Keys);
      steps := [];
      for k := 0 to |ports|
        invariant |steps| == k
        invariant forall j :: 0 <= j < k ==> ports[j] in byPort && steps[j] == byPort[ports[j]]
      {
        assert ports[k] in Elements(ports);
        steps := steps + [byPort[ports[k]]];
      }
      assert ByPort(byPort, ports, steps);
      ByPortElements(byPort, ports, steps);
  }

  /** The dependencies of step i, in port order. */
  ghost predicate BoundTo(f: File, reg: Registries, ids: seq<string>, i: nat, ds: seq<nat>)
    requires i < |ids|
  {
    && ids[i] in f.steps && NodeOf(f, reg, ids[i]).Some?
    && BindsTo(ids, f.steps[ids[i]].needs, NodeOf(f, reg, ids[i]).value.Describe(), ds)
  }

  /** A step whose needs can be judged and fit its node. */
  ghost predicate Bindable(f: File, reg: Registries, id: string) {
    Judgeable(f, reg, id) && f.steps[id].needs.Fits(NodeOf(f, reg, id).value.Describe())
  }

  /** The dependencies of a step that can be bound; of any other nothing is kept. */
  ghost predicate Kept(f: File, reg: Registries, ids: seq<string>, i: nat, ds: seq<nat>)
    requires i < |ids|
  {
    if Bindable(f, reg, ids[i]) then BoundTo(f, reg, ids, i, ds) else ds == []
  }

  ghost predicate AllKept(f: File, reg: Registries, ids: seq<string>, deps: seq<seq<nat>>) {
    |deps| <= |ids| && forall i :: 0 <= i < |deps| ==> Kept(f, reg, ids, i, deps[i])
  }

  lemma OneMoreKept(f: File, reg: Registries, ids: seq<string>, deps: seq<seq<nat>>, ds: seq<nat>)
    requires AllKept(f, reg, ids, deps) && |deps| < |ids| && Kept(f, reg, ids, |deps|, ds)
    ensures AllKept(f, reg, ids, deps + [ds])
  {
  }

  /** In an acceptable file every step is bound. */
  lemma AcceptableIsBound(f: File, reg: Registries, inputs: seq<string>, ids: seq<string>, index: map<string, nat>,
                          deps: seq<seq<nat>>)
    requires Acceptable(f, reg) && f.Validated() && Finds(f, inputs, ids, index)
    requires AllKept(f, reg, ids, deps) && |deps| == |ids|
    ensures AllBoundTo(f, reg, ids, |inputs|, deps)
  {
    forall i | 0 <= i < |ids|
      ensures i < |inputs| ==> deps[i] == []
      ensures |inputs| <= i ==> BoundTo(f, reg, ids, i, deps[i])
    {
      assert Kept(f, reg, ids, i, deps[i]);
      if |inputs| <= i {
        assert ids[i] in f.steps && EdgesFit(f, reg, ids[i]);
      } else {
        assert ids[i] in f.inputs;
      }
    }
  }

  /** The dependencies of all steps, as a plan holds them. */
  ghost predicate AllBoundTo(f: File, reg: Registries, ids: seq<string>, lo: nat, found: seq<seq<nat>>) {
    && lo <= |found| <= |ids|
    && (forall i :: 0 <= i < lo ==> found[i] == [])
    && (forall i :: lo <= i < |found| ==> BoundTo(f, reg, ids, i, found[i]))
  }

  ghost predicate NodesAre(f: File, reg: Registries, ids: seq<string>, nodes: seq<Option<RuntimeNode>>) {
    |nodes| <= |ids| && forall i :: 0 <= i < |nodes| ==> nodes[i] == NodeOf(f, reg, ids[i])
  }

  lemma OneMoreNode(f: File, reg: Registries, ids: seq<string>, nodes: seq<Option<RuntimeNode>>)
    requires NodesAre(f, reg, ids, nodes) && |nodes| < |ids|
    ensures NodesAre(f, reg, ids, nodes + [NodeOf(f, reg, ids[|nodes|])])
  {
  }

  /** What the first two phases leave behind. */
  ghost predicate ResolvedTo(f: File, reg: Registries, inputs: seq<string>, ids: seq<string>,
                             inputTypes: seq<TypeID>, nodes: seq<Option<RuntimeNode>>) {
    && |inputTypes| == |inputs| <= |ids| && |nodes| == |ids|
    && NodesAre(f, reg, ids, nodes)
    && (forall i :: 0 <= i < |inputs| ==> inputTypes[i] == KnownType(f, reg, inputs[i]))
  }

  ghost predicate BindsTo(ids: seq<string>, needs: Needs, d: Descriptor, ds: seq<nat>) {
    && needs.Fits(d) && |ds| == d.Arity()
    && forall p :: 0 <= p < |ds| ==> ds[p] < |ids| && ids[ds[p]] == needs.Bound(d, p)
  }

  method ListNames(f: File) returns (inputs: seq<string>, ids: seq<string>)
    requires f.Validated()
    ensures Lists(f, inputs, ids)
  {
    inputs := Names.Sorted(f.inputs.Keys);
    var steps := Names.Sorted(f.steps.Keys);
    ids := inputs + steps;
    assert ids[|inputs|..] == steps;
    forall i, j | 0 <= i < j < |ids|
      ensures ids[i] != ids[j]
    {
      if i < |inputs| <= j {
        assert inputs[i] in Elements(inputs) && steps[j - |inputs|] in Elements(steps);
      }
    }
  }

  method IndexNames(ids: seq<string>) returns (index: map<string, nat>)
    requires Distinct(ids)
    ensures forall i :: 0 <= i < |ids| ==> ids[i] in index && index[ids[i]] == i
    ensures forall name :: name in index ==> index[name] < |ids| && ids[index[name]] == name
  {
    index := map[];
    for i := 0 to |ids|
      invariant forall j :: 0 <= j < i ==> ids[j] in index && index[ids[j]] == j
      invariant forall name :: name in index ==> index[name] < i && ids[index[name]] == name
    {
      index := index[ids[i] := i];
    }
  }

  // ----------------------------------------------------------------------- trigger

  /** A pipeline that names no policy gets the cron convention, unless a caller is
      waiting on its own event. */
  function OverlapDefault(t: Trigger): OverlapPolicy {
    if t.responseTypes.Some? then Allow else Drop
  }

  /** The binding of a trigger block whose trigger was built. */
  ghost predicate BindsTrigger(reg: Registries, spec: TriggerSpec, b: TriggerBinding) {
    && spec.uses in reg.triggers && reg.triggers[spec.uses](spec.config) == Built(b.trigger)
    && b.uses == spec.uses && b.timeout == spec.timeout
    && (spec.onOverlap.Some? ==> b.overlap == spec.onOverlap.value)
    && (spec.onOverlap.None? ==> (b.overlap == Allow <==> b.trigger.responseTypes.Some?))
  }

  /** A reply is named, and it is a step of a type the trigger can write. */
  ghost predicate Repliable(f: File, reg: Registries, spec: TriggerSpec, t: Trigger) {
    && spec.respondWith != "" && t.responseTypes.Some?
    && spec.respondWith in f.steps && spec.respondWith !in f.inputs
    && KnownType(f, reg, spec.respondWith) != ""
    && KnownType(f, reg, spec.respondWith) in t.responseTypes.value
  }

  /** The responding step, or -1 when there is none. */
  ghost predicate RepliesWith(f: File, reg: Registries, inputs: seq<string>, ids: seq<string>, spec: TriggerSpec,
                              t: Trigger, i: int) {
    if Repliable(f, reg, spec, t) then |inputs| <= i < |ids| && ids[i] == spec.respondWith
    else i == -1
  }

  // -------------------------------------------------------------------------- plan

  /** The plan says what the file says: the same names in the same order, each step
      with its node, its policy and its needs, each input with its type. */
  ghost predicate Represents(f: File, reg: Registries, inputs: seq<string>, ids: seq<string>, plan: ExecutionPlan) {
    && |plan.inputs| == |inputs| && |plan.steps| == |ids| && |inputs| <= |ids|
    && (forall k :: 0 <= k < |inputs| ==> inputs[k] == ids[k] && inputs[k] in f.inputs)
    && (forall k :: 0 <= k < |inputs| ==> plan.inputs[k] == PlanInput(inputs[k], f.inputs[inputs[k]], k))
    && (forall i :: 0 <= i < |ids| ==> plan.steps[i].id == ids[i])
    && (forall i :: 0 <= i < |inputs| ==>
          plan.steps[i].node.None? && plan.steps[i].deps == [] && plan.steps[i].retry == DEFAULT_RETRY)
    && (forall i :: |inputs| <= i < |ids| ==> StepRepresents(f, reg, ids, i, plan.steps[i]))
  }

  ghost predicate StepRepresents(f: File, reg: Registries, ids: seq<string>, i: nat, step: CompiledStep)
    requires i < |ids|
  {
    && BoundTo(f, reg, ids, i, step.deps)
    && step.node == NodeOf(f, reg, ids[i])
    && step.retry == f.steps[ids[i]].RetryPolicy()
  }

  lemma StepOutputType(f: File, reg: Registries, inputs: seq<string>, ids: seq<string>, plan: ExecutionPlan, i: nat)
    requires Represents(f, reg, inputs, ids, plan) && f.Validated() && i < |ids|
    ensures plan.OutputType(i) == TypeOf(f, reg, ids[i])
  {
    if i >= |inputs| {
      assert StepRepresents(f, reg, ids, i, plan.steps[i]);
    }
  }

  lemma StepIsFed(f: File, reg: Registries, inputs: seq<string>, ids: seq<string>, plan: ExecutionPlan, i: nat)
    requires Represents(f, reg, inputs, ids, plan) && f.Validated() && |inputs| <= i < |ids|
    requires NodesResolve(f, reg) && AllEdgesFit(f, reg)
    ensures plan.Fed(i)
  {
    var ds := plan.steps[i].deps;
    assert StepRepresents(f, reg, ids, i, plan.steps[i]);
    assert EdgesFit(f, reg, ids[i]);
    forall p | 0 <= p < |ds|
      ensures plan.OutputType(ds[p]) == TypeOf(f, reg, ids[ds[p]])
    {
      StepOutputType(f, reg, inputs, ids, plan, ds[p]);
    }
  }

  /** What the edges promised in names holds of the plan's positions. */
  lemma PlanIsTyped(f: File, reg: Registries, inputs: seq<string>, ids: seq<string>, plan: ExecutionPlan)
    requires Represents(f, reg, inputs, ids, plan) && f.Validated()
    requires NodesResolve(f, reg) && AllEdgesFit(f, reg)
    ensures plan.InputsLead() && plan.EdgesTyped()
  {
    forall i | |inputs| <= i < |ids|
      ensures plan.Fed(i)
    {
      StepIsFed(f, reg, inputs, ids, plan, i);
    }
  }

  ghost function PositionIn(order: seq<nat>, i: nat): (k: nat)
    requires i in order
    ensures k < |order| && order[k] == i
  {
    var k :| 0 <= k < |order| && order[k] == i;
    k
  }

  lemma NeededBefore(f: File, reg: Registries, ids: seq<string>, order: seq<nat>, i: nat, ds: seq<nat>, p: nat)
    requires Ordered(f, ids, order) && i < |ids| && BoundTo(f, reg, ids, i, ds) && p < |ds|
    ensures ds[p] < |ids| && PositionIn(order, ds[p]) < PositionIn(order, i)
  {
    var needs := f.steps[ids[i]].needs;
    var d := NodeOf(f, reg, ids[i]).value.Describe();
    assert needs.Bound(d, p) in needs.Names();
    var k := PositionIn(order, i);
    assert ids[ds[p]] in f.NeededBy(ids[order[k]]);
    assert ds[p] in order[..k];
    var j :| 0 <= j < k && order[j] == ds[p];
  }

  /** The finishing order of the walk ranks every step after what it consumes. */
  lemma PlanIsAcyclic(f: File, reg: Registries, inputs: seq<string>, ids: seq<string>, plan: ExecutionPlan,
                      order: seq<nat>)
    requires Represents(f, reg, inputs, ids, plan) && Ordered(f, ids, order)
    ensures plan.Acyclic()
  {
    var rank: seq<nat> := seq(|ids|, i requires 0 <= i < |ids| => PositionIn(order, i));
    forall i, p | 0 <= i < |ids| && 0 <= p < |plan.steps[i].deps| && plan.steps[i].deps[p] < |ids|
      ensures rank[plan.steps[i].deps[p]] < rank[i]
    {
      assert StepRepresents(f, reg, ids, i, plan.steps[i]);
      NeededBefore(f, reg, ids, order, i, plan.steps[i].deps, p);
    }
    assert plan.RankedBy(rank);
  }

  /** What the compiler hands to the layout about one position. */
  ghost predicate EntryOf(f: File, reg: Registries, lo: nat, id: string, ds: seq<nat>, i: nat, e: Layout.Entry) {
    if i < lo then e == Layout.Entry(id, None, [], DEFAULT_RETRY)
    else id in f.steps && e == Layout.Entry(id, NodeOf(f, reg, id), ds, f.steps[id].RetryPolicy())
  }

  ghost predicate EntriesOf(f: File, reg: Registries, lo: nat, ids: seq<string>, deps: seq<seq<nat>>,
                            entries: seq<Layout.Entry>) {
    && |entries| <= |ids| == |deps|
    && forall i :: 0 <= i < |entries| ==> EntryOf(f, reg, lo, ids[i], deps[i], i, entries[i])
  }

  lemma LayoutRepresents(f: File, reg: Registries, inputs: seq<string>, ids: seq<string>, deps: seq<seq<nat>>,
                         entries: seq<Layout.Entry>, plan: ExecutionPlan)
    requires EntriesOf(f, reg, |inputs|, ids, deps, entries) && |entries| == |ids|
    requires Layout.Holds(plan.steps, entries)
    requires AllBoundTo(f, reg, ids, |inputs|, deps)
    requires |plan.inputs| == |inputs|
    requires forall k :: 0 <= k < |inputs| ==> inputs[k] == ids[k] && inputs[k] in f.inputs
    requires forall k :: 0 <= k < |inputs| ==> plan.inputs[k] == PlanInput(inputs[k], f.inputs[inputs[k]], k)
    ensures Represents(f, reg, inputs, ids, plan)
  {
    forall i | |inputs| <= i < |ids|
      ensures StepRepresents(f, reg, ids, i, plan.steps[i])
    {
      assert BoundTo(f, reg, ids, i, deps[i]) && EntryOf(f, reg, |inputs|, ids[i], deps[i], i, entries[i]);
    }
  }

  lemma InputsFirst(f: File, inputs: seq<string>, ids: seq<string>, index: map<string, nat>)
    requires Finds(f, inputs, ids, index)
    ensures forall k :: 0 <= k < |inputs| ==> inputs[k] == ids[k] && inputs[k] in f.inputs
  {
    forall k | 0 <= k < |inputs|
      ensures inputs[k] == ids[k] && inputs[k] in f.inputs
    {
      assert ids[k] == inputs[k];
    }
  }

  lemma DepsInRange(f: File, reg: Registries, inputs: seq<string>, ids: seq<string>, deps: seq<seq<nat>>,
                    entries: seq<Layout.Entry>)
    requires EntriesOf(f, reg, |inputs|, ids, deps, entries) && |entries| == |ids|
    requires AllBoundTo(f, reg, ids, |inputs|, deps)
    ensures forall i, k :: 0 <= i < |entries| && 0 <= k < |entries[i].deps| ==> entries[i].deps[k] < |entries|
  {
    forall i, k | 0 <= i < |entries| && 0 <= k < |entries[i].deps|
      ensures entries[i].deps[k] < |entries|
    {
      assert EntryOf(f, reg, |inputs|, ids[i], deps[i], i, entries[i]);
      assert BoundTo(f, reg, ids, i, deps[i]);
    }
  }

  ghost function InputNames(plan: ExecutionPlan): (r: seq<string>)
    ensures |r| == |plan.inputs| && forall k :: 0 <= k < |r| ==> r[k] == plan.inputs[k].name
  {
    seq(|plan.inputs|, k requires 0 <= k < |plan.inputs| => plan.inputs[k].name)
  }

  ghost function StepNames(plan: ExecutionPlan): (r: seq<string>)
    ensures |r| == |plan.steps| && forall i :: 0 <= i < |r| ==> r[i] == plan.steps[i].id
  {
    seq(|plan.steps|, i requires 0 <= i < |plan.steps| => plan.steps[i].id)
  }

  /** The plan a file compiles to, up to the layout: its inputs and then its steps,
      each sorted, with everything the file says about each, and its trigger. */
  ghost predicate Compiles(f: File, reg: Registries, plan: ExecutionPlan) {
    var inputs, ids := InputNames(plan), StepNames(plan);
    && Lists(f, inputs, ids)
    && Represents(f, reg, inputs, ids, plan)
    && TriggerBound(f, reg, inputs, ids, plan.trigger)
  }

  ghost predicate TriggerBound(f: File, reg: Registries, inputs: seq<string>, ids: seq<string>,
                               t: Option<TriggerBinding>) {
    if f.trigger.None? || !BuildTrigger(reg, f.trigger.value).Built? then t.None?
    else
      && t.Some? && BindsTrigger(reg, f.trigger.value, t.value)
      && RepliesWith(f, reg, inputs, ids, f.trigger.value, t.value.trigger, t.value.respondStep)
  }

  lemma PlanCompiles(f: File, reg: Registries, inputs: seq<string>, ids: seq<string>, plan: ExecutionPlan)
    requires Lists(f, inputs, ids) && Represents(f, reg, inputs, ids, plan)
    requires TriggerBound(f, reg, inputs, ids, plan.trigger)
    ensures Compiles(f, reg, plan)
  {
    assert InputNames(plan) == inputs;
    assert StepNames(plan) == ids;
  }

  // ------------------------------------------------------------------- one plan per file

  /** Two plans that no run can tell apart: equal but for the order in which roots and
      dependents are listed. */
  ghost predicate SamePlan(p: ExecutionPlan, q: ExecutionPlan) {
    && |p.steps| == |q.steps| && p.inputs == q.inputs && p.totalInputs == q.totalInputs
    && (forall i :: 0 <= i < |p.steps| ==> SameStep(p.steps[i], q.steps[i]))
    && multiset(p.roots) == multiset(q.roots) && p.trigger == q.trigger
  }

  ghost predicate SameStep(a: CompiledStep, b: CompiledStep) {
    && a.id == b.id && a.node == b.node && a.deps == b.deps && a.retry == b.retry
    && a.inputOffset == b.inputOffset && multiset(a.dependents) == multiset(b.dependents)
  }

  lemma OneNaming(f: File, a: seq<string>, b: seq<string>, c: seq<string>, d: seq<string>)
    requires Lists(f, a, b) && Lists(f, c, d)
    ensures a == c && b == d
  {
    Names.SortedIsUnique(a, c);
    Names.SortedIsUnique(b[|a|..], d[|a|..]);
    assert b == a + b[|a|..] && d == c + d[|a|..];
  }

  lemma OneBinding(f: File, reg: Registries, ids: seq<string>, i: nat, a: seq<nat>, b: seq<nat>)
    requires Distinct(ids) && i < |ids| && BoundTo(f, reg, ids, i, a) && BoundTo(f, reg, ids, i, b)
    ensures a == b
  {
    forall p | 0 <= p < |a|
      ensures a[p] == b[p]
    {
      assert ids[a[p]] == ids[b[p]];
    }
  }

  /** The steps agree in everything the file says of them. */
  ghost predicate SameEntries(p: ExecutionPlan, q: ExecutionPlan) {
    && |p.steps| == |q.steps|
    && forall i :: 0 <= i < |p.steps| ==> SameEntry(p.steps[i], q.steps[i])
  }

  ghost predicate SameEntry(a: CompiledStep, b: CompiledStep) {
    a.id == b.id && a.node == b.node && a.deps == b.deps && a.retry == b.retry
  }

  lemma OneEntry(f: File, reg: Registries, inputs: seq<string>, ids: seq<string>, p: ExecutionPlan, q: ExecutionPlan,
                 i: nat)
    requires Distinct(ids) && Represents(f, reg, inputs, ids, p) && Represents(f, reg, inputs, ids, q) && i < |ids|
    ensures SameEntry(p.steps[i], q.steps[i])
  {
    if |inputs| <= i {
      assert StepRepresents(f, reg, ids, i, p.steps[i]) && StepRepresents(f, reg, ids, i, q.steps[i]);
      OneBinding(f, reg, ids, i, p.steps[i].deps, q.steps[i].deps);
    }
  }

  lemma {:induction false} OneWindow(p: ExecutionPlan, q: ExecutionPlan, i: nat)
    requires SameEntries(p, q) && p.WindowsTile() && q.WindowsTile() && i < |p.steps|
    ensures p.steps[i].inputOffset == q.steps[i].inputOffset
  {
    if i > 0 {
      OneWindow(p, q, i - 1);
      assert p.Adjoins(i) && q.Adjoins(i) && SameEntry(p.steps[i - 1], q.steps[i - 1]);
    }
  }

  lemma OneTotal(p: ExecutionPlan, q: ExecutionPlan)
    requires SameEntries(p, q) && p.WindowsTile() && q.WindowsTile()
    ensures p.totalInputs == q.totalInputs
  {
    if p.steps != [] {
      OneWindow(p, q, |p.steps| - 1);
      assert SameEntry(p.steps[|p.steps| - 1], q.steps[|p.steps| - 1]);
    }
  }

  /** An entry of the transpose that counts is a position of the plan. */
  lemma DependentCounts(p: ExecutionPlan, d: nat, u: nat)
    requires p.IndicesInRange() && d < |p.steps| && multiset(p.steps[d].dependents)[u] > 0
    ensures u < |p.steps|
  {
    assert u in p.steps[d].dependents;
  }

  lemma OneTranspose(p: ExecutionPlan, q: ExecutionPlan, d: nat)
    requires SameEntries(p, q) && p.Transposed() && q.Transposed() && p.IndicesInRange() && q.IndicesInRange()
    requires d < |p.steps|
    ensures multiset(p.steps[d].dependents) == multiset(q.steps[d].dependents)
  {
    var a, b := multiset(p.steps[d].dependents), multiset(q.steps[d].dependents);
    forall u: nat
      ensures a[u] == b[u]
    {
      if u < |p.steps| {
        assert SameEntry(p.steps[u], q.steps[u]);
        assert a[u] == multiset(p.steps[u].deps)[d] && b[u] == multiset(q.steps[u].deps)[d];
      } else {
        if a[u] > 0 {
          DependentCounts(p, d, u);
        }
        if b[u] > 0 {
          DependentCounts(q, d, u);
        }
      }
    }
  }

  lemma {:induction false} DistinctOnce(s: seq<nat>, x: nat)
    requires Distinct(s)
    ensures multiset(s)[x] == if x in s then 1 else 0
  {
    if s != [] {
      DistinctOnce(s[1..], x);
      assert s == [s[0]] + s[1..];
    }
  }

  lemma OneRooting(p: ExecutionPlan, q: ExecutionPlan)
    requires SameEntries(p, q) && |p.inputs| == |q.inputs| && p.RootsExact() && q.RootsExact()
    ensures multiset(p.roots) == multiset(q.roots)
  {
    forall i: nat
      ensures multiset(p.roots)[i] == multiset(q.roots)[i]
    {
      DistinctOnce(p.roots, i);
      DistinctOnce(q.roots, i);
      assert i < |p.steps| ==> SameEntry(p.steps[i], q.steps[i]);
    }
  }

  lemma OneInputList(f: File, reg: Registries, inputs: seq<string>, ids: seq<string>, p: ExecutionPlan,
                     q: ExecutionPlan)
    requires Represents(f, reg, inputs, ids, p) && Represents(f, reg, inputs, ids, q)
    ensures p.inputs == q.inputs
  {
  }

  lemma OneTrigger(f: File, reg: Registries, inputs: seq<string>, ids: seq<string>, a: Option<TriggerBinding>,
                   b: Option<TriggerBinding>)
    requires Distinct(ids) && TriggerBound(f, reg, inputs, ids, a) && TriggerBound(f, reg, inputs, ids, b)
    ensures a == b
  {
  }

  /** What is promised of a file's plan leaves one plan: nothing in it depends on the
      order in which a map was gone through. */
  lemma PlanIsDetermined(f: File, reg: Registries, p: ExecutionPlan, q: ExecutionPlan)
    requires Compiles(f, reg, p) && Compiles(f, reg, q) && p.WellFormed() && q.WellFormed()
    ensures SamePlan(p, q)
  {
    var inputs, ids := InputNames(p), StepNames(p);
    OneNaming(f, inputs, ids, InputNames(q), StepNames(q));
    OneInputList(f, reg, inputs, ids, p, q);
    OneTrigger(f, reg, inputs, ids, p.trigger, q.trigger);
    forall i | 0 <= i < |ids|
      ensures SameEntry(p.steps[i], q.steps[i])
    {
      OneEntry(f, reg, inputs, ids, p, q, i);
    }
    SameLayout(p, q);
  }

  lemma SameLayout(p: ExecutionPlan, q: ExecutionPlan)
    requires SameEntries(p, q) && p.inputs == q.inputs && p.trigger == q.trigger
    requires p.WindowsTile() && p.Transposed() && p.RootsExact() && p.IndicesInRange()
    requires q.WindowsTile() && q.Transposed() && q.RootsExact() && q.IndicesInRange()
    ensures SamePlan(p, q)
  {
    OneTotal(p, q);
    OneRooting(p, q);
    forall i | 0 <= i < |p.steps|
      ensures SameStep(p.steps[i], q.steps[i])
    {
      assert SameEntry(p.steps[i], q.steps[i]);
      OneWindow(p, q, i);
      OneTranspose(p, q, i);
    }
  }

  // ------------------------------------------------------------- what a plan says, in full

  /** The dependencies of a step, read off its needs as written: a list in order, a
      mapping by the names of the node's ports. */
  ghost predicate WiredAsWritten(plan: ExecutionPlan, needs: Needs, d: Descriptor, ds: seq<nat>) {
    && |ds| == d.Arity()
    && (forall p :: 0 <= p < |ds| ==> ds[p] < |plan.steps|)
    && match needs
       case Positional(order) =>
         |order| == |ds| && forall p :: 0 <= p < |ds| ==> plan.steps[ds[p]].id == order[p]
       case Named(byPort) =>
         && (forall p :: 0 <= p < |ds| ==>
               d.inputs[p].name in byPort && plan.steps[ds[p]].id == byPort[d.inputs[p].name])
         && (forall name :: name in byPort ==> exists p :: 0 <= p < |ds| && d.inputs[p].name == name)
  }

  ghost predicate StepAsWritten(f: File, reg: Registries, plan: ExecutionPlan, i: nat)
    requires i < |plan.steps|
  {
    var step := plan.steps[i];
    && step.id in f.steps && step.node.Some?
    && var written := f.steps[step.id];
    && written.uses in reg.nodes && reg.nodes[written.uses](written.config) == Built(step.node.value)
    && step.retry == (if written.retry.Some? then written.retry.value else Retry(1, 0))
    && WiredAsWritten(plan, written.needs, step.node.value.Describe(), step.deps)
  }

  ghost predicate TriggerAsWritten(f: File, reg: Registries, plan: ExecutionPlan) {
    match f.trigger
    case None => plan.trigger.None?
    case Some(spec) =>
      && plan.trigger.Some? && var b := plan.trigger.value;
      && spec.uses in reg.triggers && reg.triggers[spec.uses](spec.config) == Built(b.trigger)
      && b.uses == spec.uses && b.timeout == spec.timeout
      && (spec.onOverlap.Some? ==> b.overlap == spec.onOverlap.value)
      && (spec.onOverlap.None? ==> (b.overlap == Allow <==> b.trigger.responseTypes.Some?))
      && (spec.respondWith == "" ==> b.respondStep == -1)
      && (spec.respondWith != "" ==>
            |plan.inputs| <= b.respondStep < |plan.steps| && plan.steps[b.respondStep].id == spec.respondWith)
  }

  lemma StepIsAsWritten(f: File, reg: Registries, plan: ExecutionPlan, i: nat)
    requires Compiles(f, reg, plan) && |plan.inputs| <= i < |plan.steps|
    ensures StepAsWritten(f, reg, plan, i)
  {
    var ids, step := StepNames(plan), plan.steps[i];
    assert StepRepresents(f, reg, ids, i, step);
    var needs, d := f.steps[step.id].needs, step.node.value.Describe();
    forall p | 0 <= p < |step.deps|
      ensures step.deps[p] < |plan.steps| && plan.steps[step.deps[p]].id == needs.Bound(d, p)
    {
    }
  }

  /** The plan of an accepted file, field by field against what is written in it: nothing
      is bound, built, defaulted or swapped that the file does not say. */
  lemma PlanSaysTheFile(f: File, reg: Registries, plan: ExecutionPlan)
    requires f.Validated() && reg.Valid() && Acceptable(f, reg) && Compiles(f, reg, plan)
    ensures forall k :: 0 <= k < |plan.inputs| ==>
      plan.inputs[k].name in f.inputs && plan.inputs[k].typ == f.inputs[plan.inputs[k].name]
    ensures forall i :: |plan.inputs| <= i < |plan.steps| ==> StepAsWritten(f, reg, plan, i)
    ensures TriggerAsWritten(f, reg, plan)
  {
    forall k | 0 <= k < |plan.inputs|
      ensures plan.inputs[k].name in f.inputs && plan.inputs[k].typ == f.inputs[plan.inputs[k].name]
    {
      assert InputNames(plan)[k] in f.inputs;
    }
    forall i | |plan.inputs| <= i < |plan.steps|
      ensures StepAsWritten(f, reg, plan, i)
    {
      StepIsAsWritten(f, reg, plan, i);
    }
    if f.trigger.Some? {
      TriggerIsAsWritten(f, reg, plan);
    }
  }

  /** In an acceptable file a reply that is named can be written. */
  lemma NamedReplyIsRepliable(f: File, reg: Registries, spec: TriggerSpec, t: Trigger)
    requires f.Validated() && reg.Valid() && InputsTyped(f, reg) && NodesResolve(f, reg) && ReplyFits(f, reg, spec, t)
    ensures Repliable(f, reg, spec, t) <==> spec.respondWith != ""
    ensures spec.respondWith != "" ==> TypeOf(f, reg, spec.respondWith) in t.responseTypes.value
  {
    if spec.respondWith != "" {
      KnownTypeIsType(f, reg, spec.respondWith);
    }
  }

  lemma TriggerIsAsWritten(f: File, reg: Registries, plan: ExecutionPlan)
    requires f.Validated() && reg.Valid() && Acceptable(f, reg) && Compiles(f, reg, plan) && f.trigger.Some?
    ensures TriggerAsWritten(f, reg, plan)
  {
    var spec := f.trigger.value;
    assert TriggerFits(f, reg, spec);
    NamedReplyIsRepliable(f, reg, spec, BuildTrigger(reg, spec).value);
  }
}
