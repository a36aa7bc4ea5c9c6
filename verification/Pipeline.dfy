/** Compiled plans and what one run records (internal/pipeline/plan.go,
    internal/runtime/state.go). */
module Pipeline {
  import opened Collections
  import opened Nodes

  datatype Retry = Retry(maxAttempts: int, backoff: int)

  const DEFAULT_RETRY := Retry(1, 0)

  datatype OverlapPolicy = Allow | Drop

  datatype TriggerDescriptor = TriggerDescriptor(name: string, supplies: seq<PortDescriptor>)
  {
    /** The type supplied under a name: the first port so named wins. */
    function Provided(want: string): Option<TypeID> {
      ProvidedFrom(supplies, want)
    }
  }

  function ProvidedFrom(ports: seq<PortDescriptor>, want: string): Option<TypeID> {
    if ports == [] then None
    else if ports[0].name == want then Some(ports[0].typ)
    else ProvidedFrom(ports[1..], want)
  }

  /** A built trigger. `responseTypes` is present exactly for a trigger that
      answers a caller, which is what HTTPDriven says. */
  datatype Trigger = Trigger(desc: TriggerDescriptor, responseTypes: Option<seq<TypeID>>)

  datatype TriggerBinding = TriggerBinding(
    uses: string, trigger: Trigger, respondStep: int, timeout: int, overlap: OverlapPolicy)

  datatype CompiledStep = CompiledStep(
    id: string, node: Option<RuntimeNode>, deps: seq<nat>, dependents: seq<nat>,
    inputOffset: nat, retry: Retry)

  datatype PlanInput = PlanInput(name: string, typ: TypeID, step: nat)

  datatype ExecutionPlan = ExecutionPlan(
    name: string, steps: seq<CompiledStep>, inputs: seq<PlanInput>,
    trigger: Option<TriggerBinding>, roots: seq<nat>, totalInputs: nat)
  {
    ghost predicate IsInput(i: nat) { i < |inputs| }

    /** What an edge leaving step i carries. */
    ghost function OutputType(i: nat): TypeID
      requires i < |steps|
    {
      if i < |inputs| then inputs[i].typ
      else if steps[i].node.Some? then steps[i].node.value.Describe().output.typ
      else ""
    }

    /** Inputs lead; each names its own position and has nothing to execute. */
    ghost predicate InputsLead() {
      && |inputs| <= |steps|
      && (forall k :: 0 <= k < |inputs| ==> inputs[k].step == k && inputs[k].typ != "")
      && (forall k :: 0 <= k < |inputs| ==> steps[k].node.None? && steps[k].deps == [])
      && (forall i :: |inputs| <= i < |steps| ==> steps[i].node.Some?)
    }

    ghost predicate IndicesInRange() {
      && (forall i, p :: 0 <= i < |steps| && 0 <= p < |steps[i].deps| ==> steps[i].deps[p] < |steps|)
      && (forall i, p :: 0 <= i < |steps| && 0 <= p < |steps[i].dependents| ==> steps[i].dependents[p] < |steps|)
    }

    /** The windows of the input buffer lie end to end and fill it. */
    ghost predicate WindowsTile() {
      && (|steps| == 0 ==> totalInputs == 0)
      && (|steps| > 0 ==>
            steps[0].inputOffset == 0 &&
            steps[|steps| - 1].inputOffset + |steps[|steps| - 1].deps| == totalInputs)
      && (forall i :: 0 < i < |steps| ==> Adjoins(i))
    }

    /** Window i starts where the one before it ends. */
    ghost predicate Adjoins(i: nat) {
      0 < i < |steps| && steps[i].inputOffset == steps[i - 1].inputOffset + |steps[i - 1].deps|
    }

    /** Dependents is the transpose of Deps, occurrence for occurrence. */
    ghost predicate Transposed() {
      forall i, d :: 0 <= i < |steps| && 0 <= d < |steps| ==>
        multiset(steps[d].dependents)[i] == multiset(steps[i].deps)[d]
    }

    /** Roots are the steps that compute something and wait on nothing. */
    ghost predicate RootsExact() {
      && Distinct(roots)
      && forall i :: i in roots <==> |inputs| <= i < |steps| && steps[i].deps == []
    }

    /** Every edge carries the type the consuming port declares, and every port
        has exactly one edge. */
    ghost predicate EdgesTyped() {
      forall i :: |inputs| <= i < |steps| ==> Fed(i)
    }

    ghost predicate Fed(i: nat) {
      i < |steps| && steps[i].node.Some? && FeedsPorts(i, steps[i].node.value.Describe())
    }

    ghost predicate FeedsPorts(i: nat, d: Descriptor)
      requires i < |steps|
    {
      && |steps[i].deps| == d.Arity()
      && (forall p :: 0 <= p < |steps[i].deps| ==>
            steps[i].deps[p] < |steps| && OutputType(steps[i].deps[p]) == d.inputs[p].typ)
    }

    /** A ranking in which every step comes after everything it consumes. */
    ghost predicate RankedBy(rank: seq<nat>) {
      && |rank| == |steps|
      && forall i, p :: 0 <= i < |steps| && 0 <= p < |steps[i].deps| && steps[i].deps[p] < |steps| ==>
        rank[steps[i].deps[p]] < rank[i]
    }

    ghost predicate Acyclic() {
      exists rank :: RankedBy(rank)
    }

    /** What the scheduler relies on and never rechecks. */
    ghost predicate WellFormed() {
      && InputsLead()
      && IndicesInRange()
      && WindowsTile()
      && Transposed()
      && RootsExact()
      && EdgesTyped()
      && Acyclic()
    }
  }

  lemma {:induction false} WindowsOrdered(plan: ExecutionPlan, i: nat, j: nat)
    requires plan.WindowsTile() && i < j < |plan.steps|
    ensures plan.steps[i].inputOffset + |plan.steps[i].deps| <= plan.steps[j].inputOffset
    decreases j
  {
    assert plan.Adjoins(j);
    if i < j - 1 {
      WindowsOrdered(plan, i, j - 1);
    }
  }

  ghost predicate OwnsCell(plan: ExecutionPlan, i: nat, c: nat) {
    i < |plan.steps| &&
    plan.steps[i].inputOffset <= c < plan.steps[i].inputOffset + |plan.steps[i].deps|
  }

  ghost predicate Covered(plan: ExecutionPlan, c: nat) {
    exists i :: OwnsCell(plan, i, c)
  }

  /** Each window lies inside the buffer, two steps never share a cell, and every
      cell of the buffer belongs to some step. */
  lemma WindowsPartitionBuffer(plan: ExecutionPlan)
    requires plan.WindowsTile()
    ensures forall i :: 0 <= i < |plan.steps| ==>
      plan.steps[i].inputOffset + |plan.steps[i].deps| <= plan.totalInputs
    ensures forall i, j :: 0 <= i < j < |plan.steps| ==>
      plan.steps[i].inputOffset + |plan.steps[i].deps| <= plan.steps[j].inputOffset
    ensures forall c :: 0 <= c < plan.totalInputs ==> Covered(plan, c)
  {
    var n := |plan.steps|;
    forall i, j | 0 <= i < j < n
      ensures plan.steps[i].inputOffset + |plan.steps[i].deps| <= plan.steps[j].inputOffset
    {
      WindowsOrdered(plan, i, j);
    }
    forall i | 0 <= i < n
      ensures plan.steps[i].inputOffset + |plan.steps[i].deps| <= plan.totalInputs
    {
      if i < n - 1 {
        WindowsOrdered(plan, i, n - 1);
      }
    }
    forall c | 0 <= c < plan.totalInputs
      ensures Covered(plan, c)
    {
      var i := CellOwner(plan, c, n - 1);
    }
  }

  lemma {:induction false} CellOwner(plan: ExecutionPlan, c: nat, last: nat) returns (i: nat)
    requires plan.WindowsTile() && last < |plan.steps|
    requires c < plan.steps[last].inputOffset + |plan.steps[last].deps|
    ensures OwnsCell(plan, i, c)
  {
    if plan.steps[last].inputOffset <= c {
      i := last;
    } else {
      assert last > 0 ==> plan.Adjoins(last);
      i := CellOwner(plan, c, last - 1);
    }
  }
}
