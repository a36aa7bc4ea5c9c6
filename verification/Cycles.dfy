/** checkCycles: a three-colour depth-first walk over the needs graph
    (internal/pipeline/compiler.go:333-387). */
module Cycles {
  import opened Collections

  /** needs[i] lists, in declaration order, the positions step i needs. Names that
      resolve to nothing are left out: another check reports them. */
  type Graph = seq<seq<nat>>

  ghost predicate ValidGraph(g: Graph) {
    forall i, p :: 0 <= i < |g| && 0 <= p < |g[i]| ==> g[i][p] < |g|
  }

  /** Each position needs the next. */
  ghost predicate IsPath(g: Graph, path: seq<nat>) {
    && (forall k :: 0 <= k < |path| ==> path[k] < |g|)
    && (forall k :: 0 <= k < |path| - 1 ==> path[k + 1] in g[path[k]])
  }

  /** A path that comes back to where it began. */
  ghost predicate IsCycle(g: Graph, c: seq<nat>) {
    |c| >= 2 && IsPath(g, c) && c[0] == c[|c| - 1]
  }

  ghost predicate HasCycle(g: Graph) {
    exists c :: IsCycle(g, c)
  }

  /** Everything a position needs comes before it. */
  ghost predicate Topological(g: Graph, order: seq<nat>) {
    && Distinct(order)
    && (forall k :: 0 <= k < |order| ==> order[k] < |g|)
    && (forall k, d :: 0 <= k < |order| && d in g[order[k]] ==> d in order[..k])
  }

  // ---------------------------------------------------- ordered means no cycle

  lemma {:induction false} PathGoesBack(g: Graph, order: seq<nat>, path: seq<nat>, at: nat)
    requires ValidGraph(g) && Topological(g, order) && IsPath(g, path) && |path| >= 2
    requires at < |order| && order[at] == path[0]
    ensures exists k :: 0 <= k < at && order[k] == path[|path| - 1]
    decreases |path|
  {
    assert path[1] in g[path[0]];
    var k :| 0 <= k < at && order[k] == path[1];
    if |path| > 2 {
      assert IsPath(g, path[1..]) by {
        forall j | 0 <= j < |path| - 2
          ensures path[1..][j + 1] in g[path[1..][j]]
        {
          assert path[j + 2] in g[path[j + 1]];
        }
      }
      PathGoesBack(g, order, path[1..], k);
    }
  }

  /** A graph whose every position appears in a topological order has no cycle. */
  lemma OrderedHasNoCycle(g: Graph, order: seq<nat>)
    requires ValidGraph(g) && Topological(g, order)
    requires forall i :: 0 <= i < |g| ==> i in order
    ensures !HasCycle(g)
  {
    forall c | IsCycle(g, c)
      ensures false
    {
      assert c[0] in order;
      var at :| 0 <= at < |order| && order[at] == c[0];
      PathGoesBack(g, order, c, at);
    }
  }

  // ---------------------------------------------------------------------- the walk

  datatype Color = White | Grey | Black

  class Walk {
    const g: Graph
    var color: seq<Color>
    /** The current path: the grey positions, outermost first. */
    var path: seq<nat>
    /** The cycle reported, empty until one is. */
    var report: seq<nat>
    /** The black positions, in the order they finished. */
    ghost var order: seq<nat>

    constructor (g: Graph)
      requires ValidGraph(g)
      ensures this.g == g && Valid() && report == [] && path == [] && order == []
      ensures forall i :: 0 <= i < |g| ==> color[i] == White
    {
      this.g := g;
      color := seq(|g|, _ => White);
      path, report, order := [], [], [];
    }

    ghost predicate Valid()
      reads this
    {
      && ValidGraph(g) && |color| == |g|
      && IsPath(g, path) && Distinct(path)
      && (forall i :: 0 <= i < |g| ==> (color[i] == Grey <==> i in path))
      && (forall i :: 0 <= i < |g| ==> (color[i] == Black <==> i in order))
      && Topological(g, order)
    }

    ghost function Whites(): set<nat>
      reads this
    {
      set i: nat | i < |color| && color[i] == White
    }

    /** Close the current path at `back`, which lies on it. */
    method ReportCycle(back: nat)
      requires Valid() && path != [] && back in path && back in g[path[|path| - 1]]
      modifies this`report
      ensures IsCycle(g, report)
    {
      var start := 0;
      for i := 0 to |path|
        invariant start == 0
        invariant back !in path[..i]
      {
        if path[i] == back {
          start := i;
          break;
        }
      }
      report := path[start..] + [back];
      assert path[start] == back;
      forall k | 0 <= k < |report| - 1
        ensures report[k + 1] in g[report[k]]
      {
        assert report[k] == path[start + k];
        if k + 1 < |path| - start {
          assert report[k + 1] == path[start + k + 1];
        }
      }
    }

    /** Walk everything position i needs. Either a cycle is found and reported, or
        i and everything below it is finished, in an order in which every position
        follows what it needs. */
    method Visit(i: nat) returns (found: bool)
      requires Valid() && i < |g| && color[i] == White
      requires path != [] ==> i in g[path[|path| - 1]]
      modifies this
      ensures found ==> IsCycle(g, report)
      ensures !found ==> Valid() && color[i] == Black && path == old(path) && report == old(report)
      ensures !found ==> Whites() < old(Whites())
      ensures !found ==> forall j :: 0 <= j < |g| && old(color[j]) != White ==> color[j] == old(color[j])
      decreases Whites()
    {
      ghost var whites := Whites();
      Enter(i);
      var p := 0;
      while p < |g[i]|
        invariant 0 <= p <= |g[i]|
        invariant Valid() && path == old(path) + [i] && report == old(report)
        invariant Whites() <= whites - {i}
        invariant forall q :: 0 <= q < p ==> color[g[i][q]] == Black
        invariant forall j :: 0 <= j < |g| && old(color[j]) != White ==> color[j] == old(color[j])
        invariant color[i] == Grey
      {
        var j := g[i][p];
        assert j in g[i];
        match color[j] {
          case Grey =>
            ReportCycle(j);
            return true;
          case White =>
            var deeper := Visit(j);
            if deeper {
              return true;
            }
          case Black =>
        }
        p := p + 1;
      }
      Leave(i);
      return false;
    }

    method Enter(i: nat)
      requires Valid() && i < |g| && color[i] == White
      requires path != [] ==> i in g[path[|path| - 1]]
      modifies this
      ensures Valid() && path == old(path) + [i] && report == old(report) && order == old(order)
      ensures color == old(color)[i := Grey]
      ensures Whites() == old(Whites()) - {i} && i in old(Whites())
    {
      color := color[i := Grey];
      path := path + [i];
      assert forall k :: 0 <= k < |path| - 1 ==> path[k] == old(path)[k];
    }

    method Leave(i: nat)
      requires Valid() && i < |g| && path != [] && path[|path| - 1] == i
      requires forall q :: 0 <= q < |g[i]| ==> color[g[i][q]] == Black
      modifies this
      ensures Valid() && path == old(path)[..|old(path)| - 1] && report == old(report)
      ensures color == old(color)[i := Black]
      ensures Whites() == old(Whites())
    {
      assert color[i] == Grey;
      path := path[..|path| - 1];
      color := color[i := Black];
      order := order + [i];
      assert forall k :: 0 <= k < |old(order)| ==> order[..k] == old(order)[..k];
      assert order[..|old(order)|] == old(order);
    }
  }

  /** A cycle is reported exactly when the graph has one; what is reported is one;
      and without a report the finishing order is a topological order of all of it. */
  method CheckCycles(g: Graph) returns (report: seq<nat>, ghost order: seq<nat>)
    requires ValidGraph(g)
    ensures report == [] <==> !HasCycle(g)
    ensures report != [] ==> IsCycle(g, report)
    ensures report == [] ==> Topological(g, order) && forall i :: 0 <= i < |g| ==> i in order
  {
    var w := new Walk(g);
    var i := 0;
    while i < |g|
      invariant 0 <= i <= |g| && w.g == g && fresh(w)
      invariant w.Valid() && w.path == [] && w.report == []
      invariant forall j :: 0 <= j < i ==> w.color[j] == Black
    {
      if w.color[i] == White {
        var found := w.Visit(i);
        if found {
          return w.report, [];
        }
      }
      i := i + 1;
    }
    OrderedHasNoCycle(g, w.order);
    return [], w.order;
  }
}
