/** Sequence facts shared by the other modules: sums that change at one place,
    and duplicate-free sequences of indices. */
module Collections {
  datatype Option<+T> = None | Some(value: T)

  /** The total of `f` over the elements of `s`. */
  ghost function Sum<T>(s: seq<T>, f: T -> nat): nat {
    if s == [] then 0 else f(s[0]) + Sum(s[1..], f)
  }

  lemma {:induction false} SumUpdate<T>(s: seq<T>, k: nat, x: T, f: T -> nat)
    requires k < |s|
    ensures Sum(s[k := x], f) + f(s[k]) == Sum(s, f) + f(x)
  {
    if k == 0 {
      assert s[0 := x][1..] == s[1..];
    } else {
      assert s[k := x][1..] == s[1..][k - 1 := x];
      SumUpdate(s[1..], k - 1, x, f);
    }
  }

  lemma {:induction false} SumAppend<T>(s: seq<T>, x: T, f: T -> nat)
    ensures Sum(s + [x], f) == Sum(s, f) + f(x)
  {
    if s == [] {
      assert s + [x] == [x];
    } else {
      assert (s + [x])[1..] == s[1..] + [x];
      SumAppend(s[1..], x, f);
    }
  }

  lemma {:induction false} SumAtLeast<T>(s: seq<T>, k: nat, f: T -> nat)
    requires k < |s|
    ensures f(s[k]) <= Sum(s, f)
  {
    if k > 0 {
      SumAtLeast(s[1..], k - 1, f);
    }
  }

  lemma {:induction false} SumZero<T>(s: seq<T>, f: T -> nat)
    requires forall k :: 0 <= k < |s| ==> f(s[k]) == 0
    ensures Sum(s, f) == 0
  {
    if s != [] {
      SumZero(s[1..], f);
    }
  }

  lemma {:induction false} SumPositive<T>(s: seq<T>, f: T -> nat) returns (k: nat)
    requires Sum(s, f) > 0
    ensures k < |s| && f(s[k]) > 0
  {
    if f(s[0]) > 0 {
      k := 0;
    } else {
      k := SumPositive(s[1..], f);
      k := k + 1;
    }
  }

  ghost predicate Distinct<T>(s: seq<T>) {
    forall a, b :: 0 <= a < b < |s| ==> s[a] != s[b]
  }

  ghost function Elements<T>(s: seq<T>): set<T> {
    set x | x in s
  }

  /** A duplicate-free sequence is as long as its set of elements. */
  lemma {:induction false} DistinctSize<T>(s: seq<T>)
    requires Distinct(s)
    ensures |Elements(s)| == |s|
  {
    if s != [] {
      DistinctSize(s[1..]);
      assert s == [s[0]] + s[1..];
      assert Elements(s) == {s[0]} + Elements(s[1..]);
    }
  }

  /** A set of indices between lo and hi has at most hi - lo elements. */
  lemma {:induction false} IndexSetSize(s: set<nat>, lo: nat, hi: nat)
    requires lo <= hi && forall x :: x in s ==> lo <= x < hi
    ensures |s| <= hi - lo
    decreases hi
  {
    if lo < hi {
      IndexSetSize(s - {hi - 1}, lo, hi - 1);
      assert s <= (s - {hi - 1}) + {hi - 1};
    } else {
      assert s == {};
    }
  }

  /** Distinct indices between lo and hi: there are at most hi - lo of them. */
  lemma DistinctIndices(s: seq<nat>, lo: nat, hi: nat)
    requires lo <= hi && Distinct(s) && forall x :: x in s ==> lo <= x < hi
    ensures |s| <= hi - lo
  {
    DistinctSize(s);
    IndexSetSize(Elements(s), lo, hi);
  }
}
