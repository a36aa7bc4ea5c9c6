/** The node package: values on edges, descriptors, and the adapters that turn a
    typed body into something the plan can hold (internal/node). */
module Nodes {
  import opened Collections


  /** The identity of a Go type. Registered names and canonical names never
      collide, so one TypeID stands for exactly one Go type. */
  type TypeID = string

  const BYTES: TypeID := "Bytes"
  const TEXT: TypeID := "Text"
  const TIME: TypeID := "Time"

  /** What a reference points at, as far as the engine is concerned. */
  type Data = string

  datatype Ref = Nil | Ref(goType: TypeID, data: Data)

  /** A value carries a declared identity and a reference with its own dynamic
      type; nothing in the shape makes the two agree. */
  datatype Value = Value(typ: TypeID, ref: Ref)

  const ZERO_VALUE := Value("", Nil)

  function NewValue(t: TypeID, d: Data): Value {
    Value(t, Ref(t, d))
  }

  /** A value whose declared identity and contents are both `t`. */
  predicate Carries(v: Value, t: TypeID) {
    v.typ == t && v.ref.Ref? && v.ref.goType == t
  }

  datatype ErrorKind = Transient | Permanent | InvalidInput | KindCancelled | Internal

  datatype Error = Error(kind: ErrorKind, code: string, retryable: bool)

  function Errf(kind: ErrorKind, code: string): Error {
    Error(kind, code, kind.Transient?)
  }

  const ARITY_MISMATCH := Errf(Internal, "arity_mismatch")
  const TYPE_MISMATCH := Errf(Internal, "type_mismatch")

  datatype ResultValue = Ok(value: Value) | Err(err: Error)

  /** What one call of a node's body did: produced data, or reported a failure
      (a recovered panic is a failure too). A call that never returns has none. */
  datatype Outcome = Yields(data: Data) | Fails(err: Error)

  datatype PortDescriptor = PortDescriptor(name: string, typ: TypeID)

  datatype Descriptor = Descriptor(name: string, inputs: seq<PortDescriptor>, output: PortDescriptor)
  {
    function Arity(): nat { |inputs| }

    ghost function PortNames(): set<string> {
      set p | 0 <= p < |inputs| :: inputs[p].name
    }

    /** No two ports share a type. */
    ghost predicate TypeDistinct() {
      forall p, q :: 0 <= p < q < |inputs| ==> inputs[p].typ != inputs[q].typ
    }

    /** Two ports share a type: the one shape in which a swapped list still type
        checks. The ports are grouped by type in one pass, then scanned in order
        for the first type with more than one name. */
    method AmbiguousInputs() returns (typ: TypeID, names: seq<string>, ambiguous: bool)
      ensures ambiguous <==> !TypeDistinct()
      ensures ambiguous ==> |names| > 1 && ListsNames(inputs, typ, names)
      ensures ambiguous ==>
        exists k :: 0 <= k < |inputs| && inputs[k].typ == typ &&
          forall j :: 0 <= j < k ==> |NamesOfType(inputs, inputs[j].typ)| <= 1
    {
      var byType := GroupByType(inputs);
      for k := 0 to |inputs|
        invariant forall j :: 0 <= j < k ==> |NamesOfType(inputs, inputs[j].typ)| <= 1
      {
        var t := inputs[k].typ;
        NamesOfPresentType(inputs, k);
        if |byType[t]| > 1 {
          ghost var p, q := TwoPortsOfType(inputs, t);
          NamesOfTypeList(inputs, t);
          return t, byType[t], true;
        }
      }
      forall p, q | 0 <= p < q < |inputs|
        ensures inputs[p].typ != inputs[q].typ
      {
        TwoPortsShareType(inputs, p, q);
      }
      return "", [], false;
    }
  }

  method GroupByType(ports: seq<PortDescriptor>) returns (byType: map<TypeID, seq<string>>)
    ensures forall t :: t in byType ==> byType[t] == NamesOfType(ports, t)
    ensures forall t :: t !in byType ==> NamesOfType(ports, t) == []
  {
    byType := map[];
    for k := 0 to |ports|
      invariant forall t :: t in byType ==> byType[t] == NamesOfType(ports[..k], t)
      invariant forall t :: t !in byType ==> NamesOfType(ports[..k], t) == []
    {
      var t := ports[k].typ;
      var sofar := if t in byType then byType[t] else [];
      assert ports[..k + 1][..k] == ports[..k];
      byType := byType[t := sofar + [ports[k].name]];
    }
    assert ports[..|ports|] == ports;
  }

  /** The names of the ports of one type, in port order. */
  function NamesOfType(ports: seq<PortDescriptor>, t: TypeID): seq<string> {
    if ports == [] then []
    else
      var last := ports[|ports| - 1];
      NamesOfType(ports[..|ports| - 1], t) + if last.typ == t then [last.name] else []
  }

  /** How many ports are of type t. */
  ghost function CountOfType(ports: seq<PortDescriptor>, t: TypeID): nat {
    if ports == [] then 0
    else CountOfType(ports[..|ports| - 1], t) + if ports[|ports| - 1].typ == t then 1 else 0
  }

  /** The names of the ports of type t, all of them, in port order: the name of each is
      where the number of such ports before it says. */
  ghost predicate ListsNames(ports: seq<PortDescriptor>, t: TypeID, names: seq<string>) {
    && |names| == CountOfType(ports, t)
    && forall q :: 0 <= q < |ports| && ports[q].typ == t ==> NameIsAt(ports, t, names, q)
  }

  ghost predicate NameIsAt(ports: seq<PortDescriptor>, t: TypeID, names: seq<string>, q: nat)
    requires q < |ports|
  {
    CountOfType(ports[..q], t) < |names| && names[CountOfType(ports[..q], t)] == ports[q].name
  }

  lemma {:induction false} NamesOfTypeList(ports: seq<PortDescriptor>, t: TypeID)
    ensures ListsNames(ports, t, NamesOfType(ports, t))
  {
    if ports != [] {
      var front, last := ports[..|ports| - 1], |ports| - 1;
      NamesOfTypeList(front, t);
      forall q | 0 <= q < |ports| && ports[q].typ == t
        ensures NameIsAt(ports, t, NamesOfType(ports, t), q)
      {
        if q < last {
          assert NameIsAt(front, t, NamesOfType(front, t), q);
          assert front[..q] == ports[..q];
        }
      }
    }
  }

  lemma {:induction false} NamesOfPresentType(ports: seq<PortDescriptor>, k: nat)
    requires k < |ports|
    ensures NamesOfType(ports, ports[k].typ) != []
  {
    if k < |ports| - 1 {
      NamesOfPresentType(ports[..|ports| - 1], k);
    }
  }

  lemma {:induction false} TwoPortsShareType(ports: seq<PortDescriptor>, p: nat, q: nat)
    requires p < q < |ports|
    ensures ports[p].typ == ports[q].typ ==> |NamesOfType(ports, ports[p].typ)| > 1
  {
    if q < |ports| - 1 {
      TwoPortsShareType(ports[..|ports| - 1], p, q);
    } else {
      NamesOfPresentType(ports[..|ports| - 1], p);
    }
  }

  /** A port of type t, where some name of that type is recorded. */
  lemma {:induction false} SomePortOfType(ports: seq<PortDescriptor>, t: TypeID) returns (q: nat)
    requires |NamesOfType(ports, t)| > 0
    ensures q < |ports| && ports[q].typ == t
  {
    q := |ports| - 1;
    if ports[q].typ != t {
      q := SomePortOfType(ports[..q], t);
    }
  }

  lemma {:induction false} TwoPortsOfType(ports: seq<PortDescriptor>, t: TypeID) returns (p: nat, q: nat)
    requires |NamesOfType(ports, t)| > 1
    ensures p < q < |ports| && ports[p].typ == t && ports[q].typ == t
  {
    q := |ports| - 1;
    if ports[q].typ == t {
      p := SomePortOfType(ports[..q], t);
    } else {
      p, q := TwoPortsOfType(ports[..q], t);
    }
  }

  /** A node's body: which outcomes a call on these arguments may have. A
      relation, because a body may fail for reasons of its own. */
  type Body = (seq<Data>, Outcome) -> bool

  /** The four adapters. Each fixes its descriptor when it is built. */
  datatype RuntimeNode =
    | SourceNode(name: string, out: TypeID, body: Body, stoppable: bool)
    | TypedNode(name: string, in0: TypeID, out: TypeID, body: Body, stoppable: bool)
    | TypedNode2(name: string, in0: TypeID, in1: TypeID, out: TypeID, body: Body, stoppable: bool)
    | TypedNodeN(name: string, ports: seq<string>, each: TypeID, out: TypeID, body: Body, stoppable: bool)
  {
    function Describe(): Descriptor {
      var inputs := match this
        case SourceNode(_, _, _, _) => []
        case TypedNode(_, i, _, _, _) => [PortDescriptor("in", i)]
        case TypedNode2(_, i0, i1, _, _, _) => [PortDescriptor("in0", i0), PortDescriptor("in1", i1)]
        case TypedNodeN(_, ps, t, _, _, _) => seq(|ps|, k requires 0 <= k < |ps| => PortDescriptor(ps[k], t));
      Descriptor(name, inputs, PortDescriptor("out", out))
    }

    /** Execute, given what the body does if it is reached. */
    function Execute(inputs: seq<Value>, o: Outcome): ResultValue {
      match this
      case SourceNode(_, _, _, _) =>
        if |inputs| != 0 then Err(ARITY_MISMATCH) else Erase(o, out)
      case TypedNode(_, i, _, _, _) =>
        if |inputs| != 1 then Err(ARITY_MISMATCH)
        else if !IsA(inputs[0], i) then Err(TYPE_MISMATCH)
        else Erase(o, out)
      case TypedNode2(_, i0, i1, _, _, _) =>
        if |inputs| != 2 then Err(ARITY_MISMATCH)
        else if !IsA(inputs[0], i0) then Err(TYPE_MISMATCH)
        else if !IsA(inputs[1], i1) then Err(TYPE_MISMATCH)
        else Erase(o, out)
      case TypedNodeN(_, ps, t, _, _, _) =>
        if |inputs| != |ps| then Err(ARITY_MISMATCH)
        else if exists k :: 0 <= k < |inputs| && !IsA(inputs[k], t) then Err(TYPE_MISMATCH)
        else Erase(o, out)
    }

    /** The N-ary adapter unwraps one argument at a time and stops at the first
        that is not of the port type. `args` is what the body is called with, if it
        is called. */
    method ExecuteN(inputs: seq<Value>, o: Outcome) returns (r: ResultValue, args: Option<seq<Data>>)
      requires TypedNodeN?
      ensures r == Execute(inputs, o)
      ensures args.Some? <==> Admits(Describe(), inputs)
      ensures args.Some? ==> |args.value| == |inputs|
      ensures args.Some? ==> forall k :: 0 <= k < |inputs| ==> inputs[k].ref.Ref? && args.value[k] == inputs[k].ref.data
    {
      if |inputs| != |ports| {
        return Err(ARITY_MISMATCH), None;
      }
      var unwrapped: seq<Data> := [];
      for k := 0 to |inputs|
        invariant |unwrapped| == k
        invariant forall j :: 0 <= j < k ==> IsA(inputs[j], each) && unwrapped[j] == inputs[j].ref.data
      {
        if !IsA(inputs[k], each) {
          assert Describe().inputs[k].typ == each;
          return Err(TYPE_MISMATCH), None;
        }
        unwrapped := unwrapped + [inputs[k].ref.data];
      }
      return Erase(o, out), Some(unwrapped);
    }
  }

  /** Go's type assertion on the reference. */
  predicate IsA(v: Value, t: TypeID) {
    v.ref.Ref? && v.ref.goType == t
  }

  function Erase(o: Outcome, out: TypeID): ResultValue {
    match o
    case Fails(e) => Err(e)
    case Yields(d) => Ok(NewValue(out, d))
  }

  /** What a body is called with: the referenced data, in port order. */
  function Payloads(inputs: seq<Value>): (r: seq<Data>)
    ensures |r| == |inputs|
    ensures forall k :: 0 <= k < |inputs| && inputs[k].ref.Ref? ==> r[k] == inputs[k].ref.data
  {
    seq(|inputs|, k requires 0 <= k < |inputs| =>
      if inputs[k].ref.Ref? then inputs[k].ref.data else "")
  }

  /** The inputs are what the descriptor asks for: its arity, and each referring to
      something of its port's declared type. */
  ghost predicate Admits(d: Descriptor, inputs: seq<Value>) {
    && |inputs| == d.Arity()
    && forall p :: 0 <= p < |inputs| ==> inputs[p].ref.Ref? && inputs[p].ref.goType == d.inputs[p].typ
  }

  /** What a caller gets when the body is reached and does o. */
  ghost predicate HandsOn(o: Outcome, t: TypeID, r: ResultValue) {
    && (o.Fails? ==> r == Err(o.err))
    && (o.Yields? ==> r == Ok(Value(t, Ref(t, o.data))))
  }

  /** Every adapter reaches its body exactly on the inputs its own descriptor
      admits, and then hands a failure on as it is and data at the declared output
      type; on all others it reports one of the two internal mismatches. */
  lemma AdapterMeetsDescriptor(n: RuntimeNode, inputs: seq<Value>, o: Outcome)
    ensures Admits(n.Describe(), inputs) ==> HandsOn(o, n.Describe().output.typ, n.Execute(inputs, o))
    ensures |inputs| != n.Describe().Arity() ==>
      n.Execute(inputs, o) == Err(Error(Internal, "arity_mismatch", false))
    ensures |inputs| == n.Describe().Arity() && !Admits(n.Describe(), inputs) ==>
      n.Execute(inputs, o) == Err(Error(Internal, "type_mismatch", false))
  {
    var d := n.Describe();
    match n
    case SourceNode(_, _, _, _) =>
    case TypedNode(_, i, _, _, _) => assert d.inputs[0].typ == i;
    case TypedNode2(_, i0, i1, _, _, _) => assert d.inputs[0].typ == i0 && d.inputs[1].typ == i1;
    case TypedNodeN(_, ps, t, _, _, _) => assert forall k :: 0 <= k < |ps| ==> d.inputs[k].typ == t;
  }

  /** The descriptor of each adapter: how many ports, their names in order, and the
      types it was built for. */
  lemma DescriptorsAre(n: RuntimeNode)
    ensures n.Describe().name == n.name && n.Describe().output == PortDescriptor("out", n.out)
    ensures n.SourceNode? ==> n.Describe().Arity() == 0
    ensures n.TypedNode? ==> n.Describe().inputs == [PortDescriptor("in", n.in0)]
    ensures n.TypedNode2? ==> n.Describe().inputs == [PortDescriptor("in0", n.in0), PortDescriptor("in1", n.in1)]
    ensures n.TypedNodeN? ==>
      && n.Describe().Arity() == |n.ports|
      && forall k :: 0 <= k < |n.ports| ==> n.Describe().inputs[k] == PortDescriptor(n.ports[k], n.each)
  {
  }

  /** Calling the body itself with these arguments may end in o. */
  predicate Does(n: RuntimeNode, args: seq<Data>, o: Outcome) {
    n.body(args, o)
  }

  /** The node's body, called on these inputs, may do o. */
  predicate Allows(n: RuntimeNode, inputs: seq<Value>, o: Outcome) {
    Does(n, Payloads(inputs), o)
  }

  /** Results a call on these inputs can have. */
  ghost predicate Possible(n: RuntimeNode, inputs: seq<Value>, r: ResultValue) {
    exists o: Outcome :: Allows(n, inputs, o) && r == n.Execute(inputs, o)
  }

  /** Results a whole step can have: that of one of its attempts, or the
      cancellation that interrupted the wait before a retry. */
  ghost predicate MayReturn(n: RuntimeNode, inputs: seq<Value>, r: ResultValue) {
    Possible(n, inputs, r) || (r.Err? && r.err.kind.KindCancelled?)
  }

  /** The data the inputs refer to, port by port. */
  ghost predicate Unwraps(inputs: seq<Value>, args: seq<Data>) {
    |args| == |inputs| && forall p :: 0 <= p < |inputs| ==> inputs[p].ref.Ref? && args[p] == inputs[p].ref.data
  }

  /** On inputs its descriptor admits, whatever a node can return is what its body may do
      with the data they refer to, in port order. */
  lemma PossibleIsDone(n: RuntimeNode, inputs: seq<Value>, r: ResultValue) returns (args: seq<Data>, o: Outcome)
    requires Admits(n.Describe(), inputs) && Possible(n, inputs, r)
    ensures Unwraps(inputs, args) && Does(n, args, o) && HandsOn(o, n.Describe().output.typ, r)
  {
    o :| Allows(n, inputs, o) && r == n.Execute(inputs, o);
    args := Payloads(inputs);
    AdapterMeetsDescriptor(n, inputs, o);
  }

  /** A body that, when it succeeds, always produces the same data from the same
      arguments. It may still fail whenever it likes. */
  ghost predicate Deterministic(n: RuntimeNode) {
    forall args: seq<Data>, d1: Data, d2: Data ::
      n.body(args, Yields(d1)) && n.body(args, Yields(d2)) ==> d1 == d2
  }
}
