/** Names in sorted order: decoded mappings have none of their own, and a plan has
    to be the same for the same file (internal/pipeline/parser.go:132-153). */
module Names {
  import opened Collections

  predicate Less(a: string, b: string) {
    b != [] && (a == [] || a[0] < b[0] || (a[0] == b[0] && Less(a[1..], b[1..])))
  }

  lemma {:induction false} LessTotal(a: string, b: string)
    ensures a == b || Less(a, b) || Less(b, a)
  {
    if a != [] && b != [] && a[0] == b[0] {
      LessTotal(a[1..], b[1..]);
      assert a == [a[0]] + a[1..] && b == [b[0]] + b[1..];
    }
  }

  lemma {:induction false} LessTransitive(a: string, b: string, c: string)
    requires Less(a, b) && Less(b, c)
    ensures Less(a, c)
  {
    if a != [] && a[0] == b[0] == c[0] {
      LessTransitive(a[1..], b[1..], c[1..]);
    }
  }

  lemma {:induction false} LessIrreflexive(a: string)
    ensures !Less(a, a)
  {
    if a != [] {
      LessIrreflexive(a[1..]);
    }
  }

  /** What the order is: by the first place where two names differ, or a name before every
      longer one that begins with it. */
  ghost predicate DiffersAt(a: string, b: string, k: nat) {
    && k <= |a| && k < |b| && a[..k] == b[..k]
    && (k == |a| || a[k] < b[k])
  }

  lemma DifferLater(a: string, b: string, k: nat)
    requires DiffersAt(a, b, k) && k > 0
    ensures a != [] && b != [] && a[0] == b[0]
  {
    assert a[..k][0] == b[..k][0];
  }

  lemma {:induction false} LessIsLexicographic(a: string, b: string)
    ensures Less(a, b) <==> exists k: nat :: DiffersAt(a, b, k)
  {
    if a != [] && b != [] && a[0] == b[0] {
      LessIsLexicographic(a[1..], b[1..]);
      if k: nat :| DiffersAt(a[1..], b[1..], k) {
        assert a[..k + 1] == [a[0]] + a[1..][..k] && b[..k + 1] == [b[0]] + b[1..][..k];
        assert DiffersAt(a, b, k + 1);
      }
      if k: nat :| DiffersAt(a, b, k) {
        assert k > 0 ==> a[1..][..k - 1] == a[..k][1..] && b[1..][..k - 1] == b[..k][1..];
        assert k > 0 && DiffersAt(a[1..], b[1..], k - 1);
      }
    } else if k: nat :| DiffersAt(a, b, k) {
      if k > 0 {
        DifferLater(a, b, k);
      }
    } else if Less(a, b) {
      assert DiffersAt(a, b, 0);
    }
  }

  ghost predicate Ascending(s: seq<string>) {
    forall i, j :: 0 <= i < j < |s| ==> Less(s[i], s[j])
  }

  lemma AscendingIsDistinct(s: seq<string>)
    requires Ascending(s)
    ensures Distinct(s)
  {
    forall i, j | 0 <= i < j < |s|
      ensures s[i] != s[j]
    {
      LessIrreflexive(s[i]);
    }
  }

  method Insert(x: string, s: seq<string>) returns (r: seq<string>)
    requires Ascending(s) && x !in s
    ensures Ascending(r) && Elements(r) == Elements(s) + {x}
  {
    var k := 0;
    while k < |s| && Less(s[k], x)
      invariant 0 <= k <= |s|
      invariant forall i :: 0 <= i < k ==> Less(s[i], x)
    {
      k := k + 1;
    }
    forall i | k <= i < |s|
      ensures Less(x, s[i])
    {
      LessTotal(s[k], x);
      if k < i {
        LessTransitive(x, s[k], s[i]);
      }
    }
    r := s[..k] + [x] + s[k..];
    assert forall y :: y in s <==> y in s[..k] || y in s[k..];
  }

  /** The names of a set, each once, in ascending order. */
  method Sorted(names: set<string>) returns (r: seq<string>)
    ensures Ascending(r) && Distinct(r) && Elements(r) == names
  {
    r := [];
    var rest := names;
    while rest != {}
      invariant Ascending(r) && rest <= names && Elements(r) == names - rest
      decreases rest
    {
      var x :| x in rest;
      assert x !in Elements(r);
      r := Insert(x, r);
      rest := rest - {x};
    }
    AscendingIsDistinct(r);
  }

  /** Only one list has these elements in this order, so nothing depends on the
      order in which the set was read. */
  lemma {:induction false} SortedIsUnique(a: seq<string>, b: seq<string>)
    requires Ascending(a) && Ascending(b) && Elements(a) == Elements(b)
    ensures a == b
  {
    assert a == [] <==> Elements(a) == {} by { assert a != [] ==> a[0] in Elements(a); }
    assert b == [] <==> Elements(b) == {} by { assert b != [] ==> b[0] in Elements(b); }
    if a != [] {
      FirstIsLeast(a, b);
      FirstIsLeast(b, a);
      assert a[0] == b[0] by {
        LessIrreflexive(a[0]);
        if a[0] != b[0] { LessTransitive(a[0], b[0], a[0]); }
      }
      AscendingIsDistinct(a);
      AscendingIsDistinct(b);
      assert Elements(a[1..]) == Elements(a) - {a[0]} by { assert a == [a[0]] + a[1..]; }
      assert Elements(b[1..]) == Elements(b) - {b[0]} by { assert b == [b[0]] + b[1..]; }
      SortedIsUnique(a[1..], b[1..]);
      assert a == [a[0]] + a[1..] && b == [b[0]] + b[1..];
    }
  }

  lemma FirstIsLeast(a: seq<string>, b: seq<string>)
    requires Ascending(a) && a != [] && b != [] && Elements(a) == Elements(b)
    ensures a[0] == b[0] || Less(a[0], b[0])
  {
    assert b[0] in Elements(a);
  }
}
