/** Why the list form of needs is refused for ports that share a type: there, and
    only there, a swapped list still type checks (internal/pipeline/compiler.go:413-506,
    internal/node/descriptor.go:51-64). */
module Binding {
  import opened Collections
  import opened Nodes
  import opened Source

  /** A list of names that type checks against d's ports. */
  ghost predicate Matches(types: string -> TypeID, d: Descriptor, order: seq<string>) {
    |order| == d.Arity() && forall p :: 0 <= p < |order| ==> types(order[p]) == d.inputs[p].typ
  }

  ghost predicate Reordered(a: seq<string>, b: seq<string>) {
    multiset(a) == multiset(b)
  }

  /** No list that type checks has another arrangement that does too. */
  ghost predicate SwapProof(d: Descriptor) {
    forall types: string -> TypeID, a: seq<string>, b: seq<string> ::
      Matches(types, d, a) && Matches(types, d, b) && Reordered(a, b) ==> a == b
  }

  lemma OneArrangement(types: string -> TypeID, d: Descriptor, a: seq<string>, b: seq<string>)
    requires d.TypeDistinct() && Matches(types, d, a) && Matches(types, d, b) && Reordered(a, b)
    ensures a == b
  {
    forall p | 0 <= p < |a|
      ensures a[p] == b[p]
    {
      assert a[p] in multiset(b);
      var q :| 0 <= q < |b| && b[q] == a[p];
      assert d.inputs[p].typ == d.inputs[q].typ;
    }
  }

  function Swapped(a: seq<string>, p: nat, q: nat): seq<string>
    requires p < q < |a|
  {
    a[p := a[q]][q := a[p]]
  }

  /** Two ports of one type: swapping what they are bound to is not noticed. */
  lemma SwapUnnoticed(types: string -> TypeID, d: Descriptor, a: seq<string>, p: nat, q: nat)
    requires Matches(types, d, a) && p < q < |a| && d.inputs[p].typ == d.inputs[q].typ
    ensures Matches(types, d, Swapped(a, p, q)) && Reordered(a, Swapped(a, p, q))
  {
  }

  /** A different name for each port. */
  function Label(p: nat): (s: string)
    ensures |s| == p + 1
  {
    seq(p + 1, _ => 'a')
  }

  /** A list with a different name for each port, and types under which it checks. */
  lemma SomeListMatches(d: Descriptor) returns (types: string -> TypeID, a: seq<string>)
    ensures Matches(types, d, a) && Distinct(a)
  {
    types := (name: string) => if 1 <= |name| <= d.Arity() then d.inputs[|name| - 1].typ else "";
    a := seq(d.Arity(), k requires 0 <= k < d.Arity() => Label(k));
    forall k | 0 <= k < |a|
      ensures |a[k]| == k + 1 && types(a[k]) == d.inputs[k].typ
    {
      assert a[k] == Label(k);
    }
  }

  /** Pairwise distinct port types are exactly what makes the list form safe. */
  lemma TypeDistinctIsSwapProof(d: Descriptor)
    ensures d.TypeDistinct() <==> SwapProof(d)
  {
    if d.TypeDistinct() {
      forall types: string -> TypeID, a, b | Matches(types, d, a) && Matches(types, d, b) && Reordered(a, b)
        ensures a == b
      {
        OneArrangement(types, d, a, b);
      }
    } else {
      var p, q :| 0 <= p < q < |d.inputs| && d.inputs[p].typ == d.inputs[q].typ;
      var types, a := SomeListMatches(d);
      SwapUnnoticed(types, d, a, p, q);
      assert Swapped(a, p, q)[p] == a[q] != a[p];
    }
  }

  /** The same file, with the needs of one step written differently. */
  ghost function Rewired(f: File, id: string, needs: Needs): File
    requires id in f.steps
  {
    f.(steps := f.steps[id := f.steps[id].(needs := needs)])
  }

  lemma RewiringKeepsTypes(f: File, reg: Registries, id: string, needs: Needs, name: string)
    requires id in f.steps
    ensures NodeOf(Rewired(f, id, needs), reg, name) == NodeOf(f, reg, name)
    ensures TypeOf(Rewired(f, id, needs), reg, name) == TypeOf(f, reg, name)
  {
  }

  /** If a list and a rearrangement of it both compile, they are the same list. */
  lemma NoSilentSwap(f: File, reg: Registries, id: string, order: seq<string>, swapped: seq<string>)
    requires Acceptable(f, reg) && id in f.steps && f.steps[id].needs == Positional(order)
    requires Acceptable(Rewired(f, id, Positional(swapped)), reg) && Reordered(order, swapped)
    ensures order == swapped
  {
    var f' := Rewired(f, id, Positional(swapped));
    var d := NodeOf(f, reg, id).value.Describe();
    var types := (name: string) => TypeOf(f, reg, name);
    RewiringKeepsTypes(f, reg, id, Positional(swapped), id);
    assert EdgesFit(f, reg, id) && EdgesFit(f', reg, id);
    forall p | 0 <= p < |order|
      ensures types(order[p]) == d.inputs[p].typ && types(swapped[p]) == d.inputs[p].typ
    {
      assert f.steps[id].needs.Bound(d, p) == order[p] && f'.steps[id].needs.Bound(d, p) == swapped[p];
      RewiringKeepsTypes(f, reg, id, Positional(swapped), swapped[p]);
    }
    OneArrangement(types, d, order, swapped);
  }

  /** In a file that compiles, a node with two ports of one type is bound by name,
      and a mapping binds every port of its node and nothing else. */
  lemma AmbiguousNodesBindByName(f: File, reg: Registries, id: string)
    requires Acceptable(f, reg) && id in f.steps
    ensures !NodeOf(f, reg, id).value.Describe().TypeDistinct() ==> f.steps[id].needs.Named?
    ensures f.steps[id].needs.Named? ==>
      f.steps[id].needs.byPort.Keys == NodeOf(f, reg, id).value.Describe().PortNames()
  {
    assert EdgesFit(f, reg, id);
  }
}
