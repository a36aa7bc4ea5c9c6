/** The retry policy around one step (internal/runtime/executor.go:189-242). */
module Retries {
  import opened Collections
  import opened Nodes
  import opened Pipeline
  import opened Source

  // -------------------------------------------------------- doubling in 64 bits

  function Pow2(n: nat): (p: nat)
    ensures p >= 1
  {
    if n == 0 then 1 else 2 * Pow2(n - 1)
  }

  const TWO_62: int := 0x4000_0000_0000_0000
  const TWO_63: int := 0x8000_0000_0000_0000
  const TWO_64: int := 0x1_0000_0000_0000_0000

  predicate IsInt64(x: int) { -TWO_63 <= x < TWO_63 }

  /** Two's complement wrap-around to 64 bits. */
  function Wrap64(x: int): (r: int)
    ensures IsInt64(r)
    ensures IsInt64(x) ==> r == x
  {
    (x + TWO_63) % TWO_64 - TWO_63
  }

  /** The delay before attempt j + 2: the policy's backoff, doubled j times. */
  function Delay(backoff: int, j: nat): int {
    if j == 0 then backoff else Wrap64(2 * Delay(backoff, j - 1))
  }

  lemma WrapCongruent(x: int)
    ensures exists q :: x == Wrap64(x) + q * TWO_64
  {
    var q := (x + TWO_63) / TWO_64;
    assert x == Wrap64(x) + q * TWO_64;
  }

  lemma WrapShifted(y: int, m: int)
    ensures Wrap64(y + m * TWO_64) == Wrap64(y)
  {
    var a := y + TWO_63;
    var q, r := a / TWO_64, a % TWO_64;
    DivisionUnique(a + m * TWO_64, q + m, r);
  }

  lemma DivisionUnique(a: int, q: int, r: int)
    requires a == q * TWO_64 + r && 0 <= r < TWO_64
    ensures a % TWO_64 == r
  {
    var q', r' := a / TWO_64, a % TWO_64;
    assert (q' - q) * TWO_64 == r - r';
    assert -1 < q' - q < 1;
  }

  lemma WrapDouble(x: int)
    ensures Wrap64(2 * Wrap64(x)) == Wrap64(2 * x)
  {
    WrapCongruent(x);
    var q :| x == Wrap64(x) + q * TWO_64;
    WrapShifted(2 * Wrap64(x), 2 * q);
    assert 2 * x == 2 * Wrap64(x) + (2 * q) * TWO_64;
  }

  lemma TwiceProduct(b: int, p: int)
    ensures 2 * (b * p) == b * (2 * p)
  {
  }

  lemma WrapDoubleOf(d: int, y: int)
    requires d == Wrap64(y)
    ensures Wrap64(2 * d) == Wrap64(2 * y)
  {
    WrapDouble(y);
  }

  lemma Pow2Step(j: nat)
    requires j > 0
    ensures Pow2(j) == 2 * Pow2(j - 1)
  {
  }

  lemma DelayStep(backoff: int, j: nat)
    requires j > 0
    ensures Delay(backoff, j) == Wrap64(2 * Delay(backoff, j - 1))
  {
  }

  /** Doubling step by step is doubling once, with one wrap at the end. */
  lemma {:induction false} DelayClosed(backoff: int, j: nat)
    requires IsInt64(backoff)
    ensures Delay(backoff, j) == Wrap64(backoff * Pow2(j))
  {
    if j > 0 {
      DelayClosed(backoff, j - 1);
      DelayStep(backoff, j);
      WrapDoubleOf(Delay(backoff, j - 1), backoff * Pow2(j - 1));
      TwiceProduct(backoff, Pow2(j - 1));
      Pow2Step(j);
    }
  }

  /** The delay is what the policy says exactly as long as that fits 64 bits. */
  lemma DelayExact(backoff: int, j: nat)
    requires 0 <= backoff < TWO_63
    ensures Delay(backoff, j) == backoff * Pow2(j) <==> backoff * Pow2(j) < TWO_63
  {
    DelayClosed(backoff, j);
    assert backoff * Pow2(j) >= 0;
  }

  lemma ShortDoubles(d: int)
    requires 0 <= d < TWO_62
    ensures Wrap64(2 * d) == 2 * d
  {
  }

  /** While every delay so far was shorter than 2^62 nanoseconds, the next one is
      still exact: to wrap, a step must already have waited that long. */
  lemma {:induction false} WrapsOnlyAfterLongWait(backoff: int, j: nat)
    requires 0 <= backoff < TWO_63
    requires forall i: nat :: i < j ==> Delay(backoff, i) < TWO_62
    ensures Delay(backoff, j) == backoff * Pow2(j) >= 0
  {
    if j > 0 {
      WrapsOnlyAfterLongWait(backoff, j - 1);
      DelayStep(backoff, j);
      ShortDoubles(Delay(backoff, j - 1));
      TwiceProduct(backoff, Pow2(j - 1));
      Pow2Step(j);
    }
  }

  /** A policy the parser accepts can get there: from 2^e nanoseconds, doubled often
      enough, the delay turns negative and then to nothing, which is no wait at all.
      From one nanosecond that is the 65th attempt, of up to a hundred. */
  lemma DelayCanWrap(e: nat)
    requires e < 63
    ensures Delay(Pow2(e), 63 - e) == -TWO_63 && Delay(Pow2(e), 64 - e) == 0
    ensures 66 - e <= MAX_RETRY_ATTEMPTS
  {
    Pow2SplitsAt63(e);
    DelayClosed(Pow2(e), 63 - e);
    DelayStep(Pow2(e), 64 - e);
  }

  lemma Pow2SplitsAt63(e: nat)
    requires e < 63
    ensures Pow2(e) * Pow2(63 - e) == TWO_63 && Pow2(e) < TWO_63
  {
    Pow2Is63();
    Pow2Adds(e, 63 - e);
    assert Pow2(63 - e) >= 2;
    assert Pow2(e) * 2 <= Pow2(e) * Pow2(63 - e);
  }

  lemma Pow2Is63()
    ensures Pow2(63) == TWO_63
  {
    Pow2Is28();
    Pow2Adds(28, 28);
    Pow2Adds(56, 7);
    assert Pow2(7) == 0x80;
  }

  lemma Pow2Is28()
    ensures Pow2(28) == 0x1000_0000
  {
    assert Pow2(7) == 0x80;
    Pow2Adds(7, 7);
    Pow2Adds(14, 14);
  }

  lemma {:induction false} Pow2Adds(a: nat, b: nat)
    ensures Pow2(a + b) == Pow2(a) * Pow2(b)
  {
    if b > 0 {
      Pow2Adds(a, b - 1);
      Pow2Step(a + b);
      Pow2Step(b);
      TwiceProduct(Pow2(a), Pow2(b - 1));
    }
  }

  // ----------------------------------------------------------------- one step's run

  /** What the world does to one step: what its body does when called for the j-th
      time, if it comes back at all, and with what code the execution is cancelled
      during the wait after that call, if it is. */
  datatype World = World(body: nat -> Option<Outcome>, cut: nat -> Option<string>)
  {
    function Body(attempt: nat): Option<Outcome> { body(attempt) }

    function Cut(attempt: nat): Option<string> { cut(attempt) }
  }

  /** How running a step ended: with a result carrying the number of the attempt it
      came from, or inside an attempt that never came back. */
  datatype StepEnd = Returns(result: ResultValue, attempt: nat) | Hangs(attempt: nat)

  function Interrupted(code: string): ResultValue {
    Err(Errf(KindCancelled, code))
  }

  predicate WorthRetrying(r: ResultValue) {
    r.Err? && r.err.retryable
  }

  function MaxAttempts(policy: Retry): nat {
    if policy.maxAttempts < 1 then 1 else policy.maxAttempts
  }

  /** There is a wait after attempt k: it came back with something to retry and was not
      the last allowed. */
  ghost predicate WaitsAfter(n: RuntimeNode, policy: Retry, inputs: seq<Value>, w: World, k: nat) {
    w.Body(k).Some? && WorthRetrying(n.Execute(inputs, w.Body(k).value)) && k < MaxAttempts(policy)
  }

  /** The j-th attempt fails in a way that is tried again, and the wait that follows is
      not cut short. */
  ghost predicate TriesOn(n: RuntimeNode, policy: Retry, inputs: seq<Value>, w: World, j: nat) {
    WaitsAfter(n, policy, inputs, w, j) && w.Cut(j).None?
  }

  /** The one way the run of a step in a given world ends: at the first attempt that is
      not tried again, with nothing if it hangs, with its own result if there is no
      wait after it, and with a cancellation if that wait is cut short. */
  ghost predicate EndsSo(n: RuntimeNode, policy: Retry, inputs: seq<Value>, w: World, end: StepEnd) {
    var k := end.attempt;
    && 1 <= k <= MaxAttempts(policy)
    && Tried(n, policy, inputs, w, k)
    && !TriesOn(n, policy, inputs, w, k)
    && match w.Body(k)
       case None => end == Hangs(k)
       case Some(o) =>
         var r := n.Execute(inputs, o);
         if WaitsAfter(n, policy, inputs, w, k)
         then w.Cut(k).Some? && end == Returns(Interrupted(w.Cut(k).value), k)
         else end == Returns(r, k)
  }

  lemma OneEnd(n: RuntimeNode, policy: Retry, inputs: seq<Value>, w: World, a: StepEnd, b: StepEnd)
    requires EndsSo(n, policy, inputs, w, a) && EndsSo(n, policy, inputs, w, b)
    ensures a == b
  {
    assert a.attempt < b.attempt ==> TriesOn(n, policy, inputs, w, a.attempt);
    assert b.attempt < a.attempt ==> TriesOn(n, policy, inputs, w, b.attempt);
  }

  /** Sleep, unless the execution is cancelled first. */
  method Wait(w: World, attempt: nat) returns (cut: Option<string>)
    ensures cut == w.Cut(attempt)
  {
    cut := w.Cut(attempt);
  }

  /** What is known when attempt k begins: all before it were tried again, each after
      the delay the policy asks for. */
  ghost predicate Tried(n: RuntimeNode, policy: Retry, inputs: seq<Value>, w: World, k: nat) {
    forall j :: 1 <= j < k ==> TriesOn(n, policy, inputs, w, j)
  }

  ghost predicate Doubling(backoff: int, delays: seq<int>) {
    forall j :: 0 <= j < |delays| ==> delays[j] == Delay(backoff, j)
  }

  lemma OneMoreTry(n: RuntimeNode, policy: Retry, inputs: seq<Value>, w: World, k: nat)
    requires Tried(n, policy, inputs, w, k) && TriesOn(n, policy, inputs, w, k)
    ensures Tried(n, policy, inputs, w, k + 1)
  {
  }

  lemma OneMoreDelay(backoff: int, delays: seq<int>)
    requires Doubling(backoff, delays)
    ensures Doubling(backoff, delays + [Delay(backoff, |delays|)])
    ensures Delay(backoff, |delays| + 1) == Wrap64(2 * Delay(backoff, |delays|))
  {
  }

  /** The j-th call came back with a failure marked as retryable, and the wait after it
      was not cut short. */
  ghost predicate FailsAt(n: RuntimeNode, inputs: seq<Value>, w: World, j: nat) {
    && w.Body(j).Some? && w.Cut(j).None?
    && n.Execute(inputs, w.Body(j).value).Err? && n.Execute(inputs, w.Body(j).value).err.retryable
  }

  /** Nothing is tried after a success, after a failure not marked as retryable, or after
      the last attempt allowed; at least one is. */
  ghost predicate Settles(policy: Retry, r: ResultValue, attempt: nat) {
    r.Ok? || !r.err.retryable || attempt >= policy.maxAttempts
  }

  /** What an end in the given world comes to, attempt by attempt: every call before the
      last failed retryably; the last settles the step with its own result, or never came
      back, or was to be followed by a wait that was cut short. */
  ghost predicate Explained(n: RuntimeNode, policy: Retry, inputs: seq<Value>, w: World, end: StepEnd, delays: nat) {
    var k := end.attempt;
    && 1 <= k && (k > 1 ==> k <= policy.maxAttempts)
    && (forall j :: 1 <= j < k ==> FailsAt(n, inputs, w, j))
    && match w.Body(k)
       case None => end == Hangs(k) && delays == k - 1
       case Some(o) =>
         if Settles(policy, n.Execute(inputs, o), k) then end == Returns(n.Execute(inputs, o), k) && delays == k - 1
         else
           && w.Cut(k).Some? && delays == k
           && end == Returns(Err(Error(KindCancelled, w.Cut(k).value, false)), k)
  }

  lemma TriedFails(n: RuntimeNode, policy: Retry, inputs: seq<Value>, w: World, k: nat)
    requires Tried(n, policy, inputs, w, k)
    ensures forall j :: 1 <= j < k ==> FailsAt(n, inputs, w, j)
  {
    forall j | 1 <= j < k
      ensures FailsAt(n, inputs, w, j)
    {
      assert TriesOn(n, policy, inputs, w, j);
    }
  }

  lemma EndIsExplained(n: RuntimeNode, policy: Retry, inputs: seq<Value>, w: World, end: StepEnd, delays: nat)
    requires EndsSo(n, policy, inputs, w, end)
    requires delays == if WaitsAfter(n, policy, inputs, w, end.attempt) then end.attempt else end.attempt - 1
    ensures Explained(n, policy, inputs, w, end, delays)
  {
    TriedFails(n, policy, inputs, w, end.attempt);
  }

  /** Apply the retry policy to one step. The delays asked for are the backoff, doubled
      each time; there is one after every attempt that is tried again, and one more if
      the last was cut short. */
  method RunStep(n: RuntimeNode, policy: Retry, inputs: seq<Value>, w: World)
      returns (end: StepEnd, delays: seq<int>)
    ensures Explained(n, policy, inputs, w, end, |delays|)
    ensures EndsSo(n, policy, inputs, w, end)
    ensures |delays| == if WaitsAfter(n, policy, inputs, w, end.attempt) then end.attempt else end.attempt - 1
    ensures Doubling(policy.backoff, delays)
  {
    end, delays := RunAttempts(n, policy, inputs, w);
    EndIsExplained(n, policy, inputs, w, end, |delays|);
  }

  method RunAttempts(n: RuntimeNode, policy: Retry, inputs: seq<Value>, w: World)
      returns (end: StepEnd, delays: seq<int>)
    ensures EndsSo(n, policy, inputs, w, end)
    ensures |delays| == if WaitsAfter(n, policy, inputs, w, end.attempt) then end.attempt else end.attempt - 1
    ensures Doubling(policy.backoff, delays)
  {
    delays := [];
    var backoff := policy.backoff;
    var attempt := 1;
    while true
      invariant 1 <= attempt <= MaxAttempts(policy) && |delays| == attempt - 1
      invariant backoff == Delay(policy.backoff, attempt - 1)
      invariant Tried(n, policy, inputs, w, attempt)
      invariant Doubling(policy.backoff, delays)
      decreases MaxAttempts(policy) - attempt
    {
      var o := w.Body(attempt);
      if o.None? {
        return Hangs(attempt), delays;
      }
      var result := n.Execute(inputs, o.value);
      if !WorthRetrying(result) || attempt >= policy.maxAttempts {
        return Returns(result, attempt), delays;
      }
      OneMoreDelay(policy.backoff, delays);
      delays := delays + [backoff];
      var cut := Wait(w, attempt);
      if cut.Some? {
        return Returns(Interrupted(cut.value), attempt), delays;
      }
      OneMoreTry(n, policy, inputs, w, attempt);
      backoff := Wrap64(2 * backoff);
      attempt := attempt + 1;
    }
  }

  /** Every call fails in a way worth retrying, and no wait is cut short. */
  ghost predicate FailsThroughout(n: RuntimeNode, inputs: seq<Value>, w: World) {
    forall j :: FailsAt(n, inputs, w, j)
  }

  /** Then all attempts allowed are made. */
  lemma FailsToTheEnd(n: RuntimeNode, policy: Retry, inputs: seq<Value>, w: World, end: StepEnd)
    requires EndsSo(n, policy, inputs, w, end) && FailsThroughout(n, inputs, w)
    ensures end.attempt == MaxAttempts(policy)
  {
    assert FailsAt(n, inputs, w, end.attempt);
  }

  /** The wrap on a run itself: a step that starts at 2^e nanoseconds and fails throughout
      asks for a negative delay and then for none, if it may try often enough; a hundred
      attempts are enough for any e. */
  method RunIntoWrap(n: RuntimeNode, policy: Retry, inputs: seq<Value>, w: World, e: nat)
      returns (end: StepEnd, delays: seq<int>)
    requires e < 63 && policy.backoff == Pow2(e) && 66 - e <= policy.maxAttempts
    requires FailsThroughout(n, inputs, w)
    ensures |delays| == policy.maxAttempts - 1 && end.attempt == policy.maxAttempts
    ensures delays[63 - e] == -TWO_63 && delays[64 - e] == 0
  {
    end, delays := RunStep(n, policy, inputs, w);
    FailsToTheEnd(n, policy, inputs, w, end);
    DelayCanWrap(e);
    assert delays[63 - e] == Delay(policy.backoff, 63 - e) && delays[64 - e] == Delay(policy.backoff, 64 - e);
  }

  /** A world in which the node's body does only what it may. */
  ghost predicate Lawful(n: RuntimeNode, inputs: seq<Value>, w: World) {
    forall j :: w.Body(j).Some? ==> Allows(n, inputs, w.Body(j).value)
  }

  /** So what a step returns is what one of its attempts may, or a cancellation. */
  lemma StepMayReturn(n: RuntimeNode, policy: Retry, inputs: seq<Value>, w: World, end: StepEnd)
    requires EndsSo(n, policy, inputs, w, end) && Lawful(n, inputs, w) && end.Returns?
    ensures MayReturn(n, inputs, end.result)
  {
    var k := end.attempt;
    assert Allows(n, inputs, w.Body(k).value);
    assert Possible(n, inputs, n.Execute(inputs, w.Body(k).value));
  }

  /** Whatever goes on outside, within what the body may do. */
  method Outside(n: RuntimeNode, inputs: seq<Value>) returns (w: World)
    ensures Lawful(n, inputs, w)
  {
    w := World(_ => None, _ => None);
  }
}
