/** Plan layout: where each step reads its inputs, who depends on it, and where a
    run starts (internal/pipeline/compiler.go:510-544). */
module Layout {
  import opened Collections
  import opened Nodes
  import opened Pipeline

  /** What the earlier phases found out about one position. */
  datatype Entry = Entry(id: string, node: Option<RuntimeNode>, deps: seq<nat>, retry: Retry)

  /** The step at a position says what its entry says. */
  ghost predicate Holds(steps: seq<CompiledStep>, entries: seq<Entry>) {
    && |steps| == |entries|
    && forall i :: 0 <= i < |steps| ==>
      Entry(steps[i].id, steps[i].node, steps[i].deps, steps[i].retry) == entries[i]
  }

  /** Two versions of the steps that differ in their dependents only. */
  ghost predicate SameButDependents(a: seq<CompiledStep>, b: seq<CompiledStep>) {
    |a| == |b| && forall i :: 0 <= i < |a| ==> a[i].(dependents := b[i].dependents) == b[i]
  }

  // -------------------------------------------------------------------- transpose

  /** How often position u is recorded with d once the rows before i, and the first
      k dependencies of row i, have been gone through. */
  ghost function Entered(steps: seq<CompiledStep>, i: nat, k: nat, d: nat, u: nat): nat {
    if u >= |steps| || u > i then 0
    else if u < i then Occurs(steps[u].deps, d)
    else Occurs(if k <= |steps[u].deps| then steps[u].deps[..k] else [], d)
  }

  ghost function Occurs(s: seq<nat>, x: nat): nat {
    multiset(s)[x]
  }

  lemma OccursAppend(s: seq<nat>, y: nat, x: nat)
    ensures Occurs(s + [y], x) == Occurs(s, x) + if x == y then 1 else 0
  {
  }

  ghost predicate TransposedTo(steps: seq<CompiledStep>, i: nat, k: nat) {
    forall d: nat, u: nat :: d < |steps| ==> Occurs(steps[d].dependents, u) == Entered(steps, i, k, d, u)
  }

  function AddDependent(steps: seq<CompiledStep>, d: nat, i: nat): (r: seq<CompiledStep>)
    requires d < |steps|
    ensures SameButDependents(steps, r)
  {
    steps[d := steps[d].(dependents := steps[d].dependents + [i])]
  }

  lemma OneMoreDependent(steps: seq<CompiledStep>, i: nat, k: nat)
    requires i < |steps| && k < |steps[i].deps| && steps[i].deps[k] < |steps| && TransposedTo(steps, i, k)
    ensures TransposedTo(AddDependent(steps, steps[i].deps[k], i), i, k + 1)
  {
    var ds := steps[i].deps;
    var steps' := AddDependent(steps, ds[k], i);
    assert ds[..k + 1] == ds[..k] + [ds[k]];
    forall d: nat, u: nat | d < |steps'|
      ensures Occurs(steps'[d].dependents, u) == Entered(steps', i, k + 1, d, u)
    {
      OccursAppend(steps[d].dependents, i, u);
      OccursAppend(ds[..k], ds[k], d);
    }
  }

  lemma RowDone(steps: seq<CompiledStep>, i: nat)
    requires i < |steps| && TransposedTo(steps, i, |steps[i].deps|)
    ensures TransposedTo(steps, i + 1, 0)
  {
    assert steps[i].deps[..|steps[i].deps|] == steps[i].deps;
  }

  /** Record step i with each of its dependencies, once per port. */
  method AddRow(before: seq<CompiledStep>, i: nat) returns (steps: seq<CompiledStep>)
    requires i < |before| && TransposedTo(before, i, 0)
    requires forall k :: 0 <= k < |before[i].deps| ==> before[i].deps[k] < |before|
    ensures SameButDependents(before, steps) && TransposedTo(steps, i + 1, 0)
  {
    steps := before;
    for k := 0 to |before[i].deps|
      invariant SameButDependents(before, steps) && TransposedTo(steps, i, k)
    {
      OneMoreDependent(steps, i, k);
      steps := AddDependent(steps, steps[i].deps[k], i);
    }
    RowDone(steps, i);
  }

  method Transpose(before: seq<CompiledStep>) returns (steps: seq<CompiledStep>)
    requires forall i :: 0 <= i < |before| ==> before[i].dependents == []
    requires forall i, k :: 0 <= i < |before| && 0 <= k < |before[i].deps| ==> before[i].deps[k] < |before|
    ensures SameButDependents(before, steps) && TransposedTo(steps, |steps|, 0)
  {
    steps := before;
    for i := 0 to |before|
      invariant SameButDependents(before, steps) && TransposedTo(steps, i, 0)
    {
      steps := AddRow(steps, i);
    }
  }

  // ----------------------------------------------------------------------- windows

  /** The plan so far, over the first |p.steps| entries. */
  ghost predicate Placed(p: ExecutionPlan, entries: seq<Entry>, types: seq<TypeID>) {
    && |p.steps| <= |entries| && Holds(p.steps, entries[..|p.steps|])
    && |p.inputs| == (if |p.steps| < |types| then |p.steps| else |types|)
    && (forall k :: 0 <= k < |p.inputs| ==> p.inputs[k] == PlanInput(entries[k].id, types[k], k))
    && (forall i :: 0 <= i < |p.steps| ==> p.steps[i].dependents == [])
    && p.WindowsTile() && p.RootsExact()
  }

  /** Append one position: its window starts where the last one ended. */
  function Append(p: ExecutionPlan, e: Entry, typ: Option<TypeID>): ExecutionPlan {
    var i := |p.steps|;
    var step := CompiledStep(e.id, e.node, e.deps, [], p.totalInputs, e.retry);
    if typ.Some? then
      p.(steps := p.steps + [step], inputs := p.inputs + [PlanInput(e.id, typ.value, i)])
    else
      p.(steps := p.steps + [step], totalInputs := p.totalInputs + |e.deps|,
         roots := if |e.deps| == 0 then p.roots + [i] else p.roots)
  }

  lemma AppendHolds(p: ExecutionPlan, entries: seq<Entry>, types: seq<TypeID>, typ: Option<TypeID>)
    requires Placed(p, entries, types) && |p.steps| < |entries| && |types| <= |entries|
    requires typ == if |p.steps| < |types| then Some(types[|p.steps|]) else None
    ensures Holds(Append(p, entries[|p.steps|], typ).steps, entries[..|p.steps| + 1])
  {
    var i := |p.steps|;
    assert entries[..i + 1] == entries[..i] + [entries[i]];
  }

  lemma AppendTiles(p: ExecutionPlan, e: Entry, typ: Option<TypeID>)
    requires p.WindowsTile() && (typ.Some? ==> e.deps == [])
    ensures Append(p, e, typ).WindowsTile()
  {
    var p' := Append(p, e, typ);
    forall i | 0 < i < |p'.steps|
      ensures p'.Adjoins(i)
    {
      assert i < |p.steps| ==> p.Adjoins(i);
    }
  }

  lemma AppendRoots(p: ExecutionPlan, e: Entry, typ: Option<TypeID>)
    requires p.RootsExact() && |p.inputs| <= |p.steps| && (typ.Some? ==> |p.inputs| == |p.steps|)
    ensures Append(p, e, typ).RootsExact()
  {
    var p' := Append(p, e, typ);
    var n := |p.steps|;
    assert forall i :: 0 <= i < n ==> p'.steps[i] == p.steps[i];
    assert p'.steps[n].deps == e.deps;
    forall i: nat
      ensures i in p'.roots <==> |p'.inputs| <= i < |p'.steps| && p'.steps[i].deps == []
    {
      assert i in p.roots <==> |p.inputs| <= i < n && p.steps[i].deps == [];
      assert i in p'.roots <==> i in p.roots || (typ.None? && i == n && e.deps == []);
    }
    assert n !in p.roots;
    forall a, b | 0 <= a < b < |p'.roots|
      ensures p'.roots[a] != p'.roots[b]
    {
      assert p.roots[a] in p.roots;
    }
  }

  /** Place the windows one after another and collect the inputs and the roots. */
  method Place(name: string, entries: seq<Entry>, types: seq<TypeID>, trigger: Option<TriggerBinding>)
      returns (p: ExecutionPlan)
    requires |types| <= |entries| && forall i :: 0 <= i < |types| ==> entries[i].deps == []
    ensures p.name == name && p.trigger == trigger && |p.steps| == |entries|
    ensures Placed(p, entries, types)
  {
    p := ExecutionPlan(name, [], [], trigger, [], 0);
    for i := 0 to |entries|
      invariant p.name == name && p.trigger == trigger && |p.steps| == i
      invariant Placed(p, entries, types)
    {
      var typ := if i < |types| then Some(types[i]) else None;
      AppendHolds(p, entries, types, typ);
      AppendTiles(p, entries[i], typ);
      AppendRoots(p, entries[i], typ);
      p := Append(p, entries[i], typ);
    }
  }

  lemma DependentsInRange(steps: seq<CompiledStep>, d: nat, k: nat)
    requires TransposedTo(steps, |steps|, 0) && d < |steps| && k < |steps[d].dependents|
    ensures steps[d].dependents[k] < |steps|
  {
    var ds := steps[d].dependents;
    assert Occurs(ds, ds[k]) == Entered(steps, |steps|, 0, d, ds[k]);
    assert ds[k] in multiset(ds);
  }

  lemma TransposeComplete(p: ExecutionPlan)
    requires TransposedTo(p.steps, |p.steps|, 0)
    requires forall i, k :: 0 <= i < |p.steps| && 0 <= k < |p.steps[i].deps| ==> p.steps[i].deps[k] < |p.steps|
    ensures p.Transposed() && p.IndicesInRange()
  {
    forall i, d | 0 <= i < |p.steps| && 0 <= d < |p.steps|
      ensures multiset(p.steps[d].dependents)[i] == multiset(p.steps[i].deps)[d]
    {
      assert Occurs(p.steps[d].dependents, i) == Entered(p.steps, |p.steps|, 0, d, i);
    }
    forall d, k | 0 <= d < |p.steps| && 0 <= k < |p.steps[d].dependents|
      ensures p.steps[d].dependents[k] < |p.steps|
    {
      DependentsInRange(p.steps, d, k);
    }
  }

  /** Windows and roots do not depend on the dependents. */
  lemma LayoutKept(p: ExecutionPlan, steps: seq<CompiledStep>)
    requires SameButDependents(p.steps, steps) && p.WindowsTile() && p.RootsExact()
    ensures p.(steps := steps).WindowsTile() && p.(steps := steps).RootsExact()
  {
    assert forall i :: 0 <= i < |steps| ==> steps[i].deps == p.steps[i].deps;
    forall i | 0 < i < |steps|
      ensures p.(steps := steps).Adjoins(i)
    {
      assert p.Adjoins(i);
    }
  }

  /** Dependents is the exact multiset transpose of the dependencies, the windows
      tile the buffer, and inputs, roots and the other steps partition the plan. */
  method LayOut(name: string, entries: seq<Entry>, types: seq<TypeID>, trigger: Option<TriggerBinding>)
      returns (p: ExecutionPlan)
    requires |types| <= |entries| && forall i :: 0 <= i < |types| ==> entries[i].deps == []
    requires forall i, k :: 0 <= i < |entries| && 0 <= k < |entries[i].deps| ==> entries[i].deps[k] < |entries|
    ensures p.name == name && p.trigger == trigger
    ensures Holds(p.steps, entries)
    ensures |p.inputs| == |types|
    ensures forall k :: 0 <= k < |types| ==> p.inputs[k] == PlanInput(entries[k].id, types[k], k)
    ensures p.WindowsTile() && p.Transposed() && p.RootsExact() && p.IndicesInRange()
  {
    var placed := Place(name, entries, types, trigger);
    assert Holds(placed.steps, entries) by {
      assert entries[..|entries|] == entries;
    }
    p := Connect(placed);
    HoldsKept(placed.steps, p.steps, entries);
  }

  method Connect(placed: ExecutionPlan) returns (p: ExecutionPlan)
    requires placed.WindowsTile() && placed.RootsExact()
    requires forall i :: 0 <= i < |placed.steps| ==> placed.steps[i].dependents == []
    requires forall i, k :: 0 <= i < |placed.steps| && 0 <= k < |placed.steps[i].deps| ==>
      placed.steps[i].deps[k] < |placed.steps|
    ensures p == placed.(steps := p.steps) && SameButDependents(placed.steps, p.steps)
    ensures p.WindowsTile() && p.Transposed() && p.RootsExact() && p.IndicesInRange()
  {
    var steps := Transpose(placed.steps);
    p := placed.(steps := steps);
    LayoutKept(placed, steps);
    assert forall i :: 0 <= i < |steps| ==> steps[i].deps == placed.steps[i].deps;
    TransposeComplete(p);
  }

  lemma HoldsKept(before: seq<CompiledStep>, after: seq<CompiledStep>, entries: seq<Entry>)
    requires Holds(before, entries) && SameButDependents(before, after)
    ensures Holds(after, entries)
  {
  }
}
