/** The readiness part of the coordinator's invariant: what `unmet` counts, what
    `ready` holds, and that recording a completion keeps both. */
module RunReadiness {
  import opened Collections
  import opened Pipeline
  import opened RunModel

  ghost predicate AllDone(deps: seq<nat>, steps: seq<StepResult>) {
    forall p :: 0 <= p < |deps| ==> deps[p] < |steps| && steps[deps[p]].state.Succeeded?
  }

  /** How many positions of `deps` name a step that has not succeeded. */
  ghost function Outstanding(deps: seq<nat>, steps: seq<StepResult>): nat {
    if deps == [] then 0
    else
      var last := deps[|deps| - 1];
      Outstanding(deps[..|deps| - 1], steps)
      + if last < |steps| && steps[last].state.Succeeded? then 0 else 1
  }

  lemma {:induction false} OutstandingZero(deps: seq<nat>, steps: seq<StepResult>)
    ensures Outstanding(deps, steps) == 0 <==> AllDone(deps, steps)
  {
    if deps != [] {
      var init := deps[..|deps| - 1];
      OutstandingZero(init, steps);
      assert AllDone(deps, steps) ==> AllDone(init, steps);
      assert AllDone(init, steps) && Outstanding(deps, steps) == 0 ==> AllDone(deps, steps);
    }
  }

  lemma {:induction false} OutstandingAll(deps: seq<nat>, steps: seq<StepResult>)
    requires forall i :: 0 <= i < |steps| ==> !steps[i].state.Succeeded?
    ensures Outstanding(deps, steps) == |deps|
  {
    if deps != [] {
      OutstandingAll(deps[..|deps| - 1], steps);
    }
  }

  ghost predicate SameSuccesses(before: seq<StepResult>, after: seq<StepResult>) {
    |before| == |after| &&
    forall i :: 0 <= i < |before| ==> (before[i].state.Succeeded? <==> after[i].state.Succeeded?)
  }

  lemma {:induction false} OutstandingSame(deps: seq<nat>, before: seq<StepResult>, after: seq<StepResult>)
    requires SameSuccesses(before, after)
    ensures Outstanding(deps, before) == Outstanding(deps, after)
  {
    if deps != [] {
      OutstandingSame(deps[..|deps| - 1], before, after);
    }
  }

  ghost predicate OneMoreSuccess(before: seq<StepResult>, after: seq<StepResult>, c: nat) {
    && |before| == |after| && c < |before|
    && !before[c].state.Succeeded? && after[c].state.Succeeded?
    && forall i :: 0 <= i < |before| && i != c ==> after[i] == before[i]
  }

  /** One more success settles exactly the positions that name it. */
  lemma {:induction false} OutstandingDrops(deps: seq<nat>, before: seq<StepResult>, after: seq<StepResult>, c: nat)
    requires OneMoreSuccess(before, after, c)
    ensures Outstanding(deps, after) + multiset(deps)[c] == Outstanding(deps, before)
  {
    if deps != [] {
      var init, last := deps[..|deps| - 1], deps[|deps| - 1];
      OutstandingDrops(init, before, after, c);
      assert deps == init + [last];
      assert multiset(deps) == multiset(init) + multiset{last};
    }
  }

  /** Every count drops by its multiplicity. */
  lemma {:induction false} ReleaseCounts(unmet: seq<int>, ready: seq<nat>, ds: seq<nat>)
    requires forall k :: 0 <= k < |ds| ==> ds[k] < |unmet|
    ensures var r := Release(unmet, ready, ds);
      forall j :: 0 <= j < |unmet| ==> r.0[j] == unmet[j] - multiset(ds)[j]
    decreases |ds|
  {
    if ds != [] {
      var d, rest := ds[0], ds[1..];
      assert ds == [d] + rest;
      assert multiset(ds) == multiset{d} + multiset(rest);
      var unmet' := unmet[d := unmet[d] - 1];
      ReleaseCounts(unmet', if unmet'[d] == 0 then ready + [d] else ready, rest);
    }
  }

  /** Exactly the dependents that reach zero are queued. */
  lemma {:induction false} ReleaseQueues(unmet: seq<int>, ready: seq<nat>, ds: seq<nat>, j: nat)
    requires forall k :: 0 <= k < |ds| ==> ds[k] < |unmet|
    requires j < |unmet| ==> unmet[j] >= multiset(ds)[j]
    ensures var r := Release(unmet, ready, ds);
      j in r.1 <==> j in ready || (j in ds && r.0[j] == 0)
    decreases |ds|
  {
    if ds != [] {
      var d, rest: seq<nat> := ds[0], ds[1..];
      assert ds == [d] + rest;
      assert multiset(ds) == multiset{d} + multiset(rest);
      assert j in ds <==> j == d || j in rest;
      assert j in rest <==> multiset(rest)[j] > 0;
      var unmet' := unmet[d := unmet[d] - 1];
      var ready' := if unmet'[d] == 0 then ready + [d] else ready;
      ReleaseQueues(unmet', ready', rest, j);
      ReleaseCounts(unmet', ready', rest);
    }
  }

  /** What Release does: every count drops by its multiplicity, and exactly the
      dependents that reach zero are queued, once each. */
  lemma {:induction false} ReleaseEffect(unmet: seq<int>, ready: seq<nat>, ds: seq<nat>)
    requires forall k :: 0 <= k < |ds| ==> ds[k] < |unmet|
    requires forall j :: 0 <= j < |unmet| ==> unmet[j] >= multiset(ds)[j]
    ensures var r := Release(unmet, ready, ds);
      && |r.0| == |unmet|
      && (forall j :: 0 <= j < |unmet| ==> r.0[j] == unmet[j] - multiset(ds)[j])
      && ready <= r.1
      && (forall j :: j in r.1 <==> j in ready || (j in ds && r.0[j] == 0))
      && (Distinct(ready) && (forall j :: j in ready ==> j !in ds) ==> Distinct(r.1))
  {
    var r := Release(unmet, ready, ds);
    ReleaseCounts(unmet, ready, ds);
    forall j: nat
      ensures j in r.1 <==> j in ready || (j in ds && r.0[j] == 0)
    {
      ReleaseQueues(unmet, ready, ds, j);
    }
    ReleaseExtends(unmet, ready, ds);
    if Distinct(ready) && forall j :: j in ready ==> j !in ds {
      ReleaseDistinct(unmet, ready, ds);
    }
  }

  /** The queue grows at its end. */
  lemma {:induction false} ReleaseExtends(unmet: seq<int>, ready: seq<nat>, ds: seq<nat>)
    requires forall k :: 0 <= k < |ds| ==> ds[k] < |unmet|
    ensures ready <= Release(unmet, ready, ds).1
    decreases |ds|
  {
    if ds != [] {
      var unmet' := unmet[ds[0] := unmet[ds[0]] - 1];
      ReleaseExtends(unmet', if unmet'[ds[0]] == 0 then ready + [ds[0]] else ready, ds[1..]);
    }
  }

  /** It grows by no step twice. */
  lemma {:induction false} ReleaseDistinct(unmet: seq<int>, ready: seq<nat>, ds: seq<nat>)
    requires forall k :: 0 <= k < |ds| ==> ds[k] < |unmet|
    requires forall j :: 0 <= j < |unmet| ==> unmet[j] >= multiset(ds)[j]
    requires Distinct(ready) && forall j :: j in ready ==> j !in ds
    ensures Distinct(Release(unmet, ready, ds).1)
    decreases |ds|
  {
    if ds != [] {
      var d, rest := ds[0], ds[1..];
      assert ds == [d] + rest;
      assert multiset(ds) == multiset{d} + multiset(rest);
      var unmet' := unmet[d := unmet[d] - 1];
      assert d in ds && forall j :: j in rest ==> j in ds;
      assert unmet'[d] == 0 ==> multiset(rest)[d] == 0 && d !in rest;
      ReleaseDistinct(unmet', if unmet'[d] == 0 then ready + [d] else ready, rest);
    }
  }

  /** While the run is not stopped, `unmet` counts the unsatisfied positions and
      `ready` holds exactly the steps whose dependencies have all succeeded
      (steps with none are added only once the inputs are in, `roots`). In any
      case `ready` is duplicate-free and holds no step with a dependency that has
      not succeeded. */
  ghost predicate Readiness(plan: ExecutionPlan, steps: seq<StepResult>, unmet: seq<int>,
                            ready: seq<nat>, stopped: bool, roots: bool)
    requires |steps| == |plan.steps| == |unmet|
  {
    && (!stopped ==> forall i :: 0 <= i < |plan.steps| ==> unmet[i] == Outstanding(plan.steps[i].deps, steps))
    && Distinct(ready)
    && (forall i :: i in ready ==> |plan.inputs| <= i < |plan.steps| && AllDone(plan.steps[i].deps, steps))
    && (!stopped ==> forall i ::
          (|plan.inputs| <= i < |plan.steps| && AllDone(plan.steps[i].deps, steps) &&
           (roots || plan.steps[i].deps != [])) ==> i in ready)
    && (!roots ==> forall i :: i in ready && i < |plan.steps| ==> plan.steps[i].deps != [])
  }

  /** Recording a completion keeps it, whatever the result and whether or not the
      run had stopped; the queue only grows at its end. */
  lemma HandleKeepsReadiness(plan: ExecutionPlan, s: RunState, c: Completion, roots: bool)
    requires plan.IndicesInRange() && plan.Transposed() && plan.InputsLead()
    requires c.index < |s.steps| == |plan.steps| == |s.unmet|
    requires !s.steps[c.index].state.Succeeded?
    requires Readiness(plan, s.steps, s.unmet, s.ready, s.stopped, roots)
    ensures var s' := Handle(plan, s, c);
      |s'.steps| == |s'.unmet| == |s.steps| && s.ready <= s'.ready &&
      Readiness(plan, s'.steps, s'.unmet, s'.ready, s'.stopped, roots)
  {
    var s' := Handle(plan, s, c);
    forall deps | AllDone(deps, s.steps)
      ensures AllDone(deps, s'.steps)
    {
    }
    if !s'.stopped {
      assert OneMoreSuccess(s.steps, s'.steps, c.index);
      SuccessKeepsReadiness(plan, s.steps, s'.steps, s.unmet, s.ready, c.index, roots);
    }
  }

  /** What one more success means for one step's counters. */
  lemma SuccessSeenBy(plan: ExecutionPlan, before: seq<StepResult>, after: seq<StepResult>, c: nat, j: nat)
    requires plan.Transposed() && |before| == |plan.steps| && j < |plan.steps|
    requires OneMoreSuccess(before, after, c)
    ensures Outstanding(plan.steps[j].deps, before)
         == Outstanding(plan.steps[j].deps, after) + multiset(plan.steps[c].dependents)[j]
    ensures j in plan.steps[c].dependents <==> c in plan.steps[j].deps
    ensures Outstanding(plan.steps[j].deps, after) == 0 <==> AllDone(plan.steps[j].deps, after)
    ensures AllDone(plan.steps[j].deps, before) <==>
      AllDone(plan.steps[j].deps, after) && j !in plan.steps[c].dependents
  {
    var deps: seq<nat> := plan.steps[j].deps;
    var ds: seq<nat> := plan.steps[c].dependents;
    OutstandingDrops(deps, before, after, c);
    OutstandingZero(deps, after);
    OutstandingZero(deps, before);
    assert j in ds <==> multiset(ds)[j] > 0;
    assert c in deps <==> multiset(deps)[c] > 0;
  }

  lemma SuccessKeepsReadiness(plan: ExecutionPlan, before: seq<StepResult>, after: seq<StepResult>,
                              unmet: seq<int>, ready: seq<nat>, c: nat, roots: bool)
    requires plan.IndicesInRange() && plan.Transposed() && plan.InputsLead()
    requires |before| == |plan.steps| == |unmet|
    requires OneMoreSuccess(before, after, c)
    requires Readiness(plan, before, unmet, ready, false, roots)
    ensures var r := Release(unmet, ready, plan.steps[c].dependents);
      ready <= r.1 && Readiness(plan, after, r.0, r.1, false, roots)
  {
    var ds: seq<nat> := plan.steps[c].dependents;
    forall j: nat | j < |plan.steps|
      ensures unmet[j] == Outstanding(plan.steps[j].deps, after) + multiset(ds)[j]
      ensures Outstanding(plan.steps[j].deps, after) == 0 <==> AllDone(plan.steps[j].deps, after)
      ensures AllDone(plan.steps[j].deps, before) <==> AllDone(plan.steps[j].deps, after) && j !in ds
      ensures j in ds ==> plan.steps[j].deps != []
    {
      SuccessSeenBy(plan, before, after, c, j);
    }
    ReleaseEffect(unmet, ready, ds);
    var r := Release(unmet, ready, ds);
    assert forall i :: i in ready ==> i !in ds;
    assert forall i :: i in r.1 ==> |plan.inputs| <= i < |plan.steps| && AllDone(plan.steps[i].deps, after);
  }
}
