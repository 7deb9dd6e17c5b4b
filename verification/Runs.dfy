/** Runs of a step that can fail, over a list of inputs. */
module Runs {
  import opened Prelude

  /** Induction over the numbers up to `n`. */
  lemma {:induction false} Induct(n: nat, inv: nat -> bool)
    requires inv(0) && forall i: nat | i < n && inv(i) :: inv(i + 1)
    ensures inv(n)
  {
    if n > 0 { Induct(n - 1, inv); }
  }

  /** The state after the first `n` inputs of a step that cannot fail. */
  function Fold<S, X>(step: (S, X) -> S, start: S, xs: seq<X>, n: nat): S
    requires n <= |xs|
  {
    if n == 0 then start else step(Fold(step, start, xs, n - 1), xs[n - 1])
  }

  lemma {:induction false} FoldKeeps<S, X>(step: (S, X) -> S, start: S, xs: seq<X>, n: nat, inv: S -> bool)
    requires n <= |xs| && inv(start) && forall at, x | inv(at) :: inv(step(at, x))
    ensures inv(Fold(step, start, xs, n))
  {
    if n > 0 { FoldKeeps(step, start, xs, n - 1, inv); }
  }

  /** The state after the first `n` inputs, or the first failure. */
  function Run<S, X, E>(step: (S, X) -> Result<S, E>, start: S, xs: seq<X>, n: nat): Result<S, E>
    requires n <= |xs|
  {
    if n == 0 then Ok(start) else
    var at :- Run(step, start, xs, n - 1);
    step(at, xs[n - 1])
  }

  /** Step `i` of the run keeps `inv`. */
  ghost predicate StepKeeps<S, X, E>(step: (S, X) -> Result<S, E>, start: S, xs: seq<X>, inv: (nat, S) -> bool, i: nat)
    requires i < |xs|
  {
    Run(step, start, xs, i).Ok? ==>
      var at := Run(step, start, xs, i).value;
      inv(i, at) && step(at, xs[i]).Ok? ==> inv(i + 1, step(at, xs[i]).value)
  }

  /** What every step keeps, the run keeps. */
  lemma {:induction false} RunKeeps<S, X, E>(step: (S, X) -> Result<S, E>, start: S, xs: seq<X>, n: nat,
                                             inv: (nat, S) -> bool)
    requires n <= |xs| && inv(0, start)
    requires forall i | 0 <= i < n :: StepKeeps(step, start, xs, inv, i)
    ensures Run(step, start, xs, n).Ok? ==> inv(n, Run(step, start, xs, n).value)
  {
    if n > 0 {
      RunKeeps(step, start, xs, n - 1, inv);
      assert StepKeeps(step, start, xs, inv, n - 1);
    }
  }

  /** A run that gets to `n` gets to every earlier input. */
  lemma {:induction false} RunReaches<S, X, E>(step: (S, X) -> Result<S, E>, start: S, xs: seq<X>, i: nat, n: nat)
    requires i <= n <= |xs| && Run(step, start, xs, n).Ok?
    ensures Run(step, start, xs, i).Ok?
  {
    if i < n { RunReaches(step, start, xs, i, n - 1); }
  }

  lemma RunThrough<S, X, E>(step: (S, X) -> Result<S, E>, start: S, xs: seq<X>, i: nat)
    requires i < |xs| && Run(step, start, xs, |xs|).Ok?
    ensures Run(step, start, xs, i).Ok? && Run(step, start, xs, i + 1).Ok?
    ensures var r := step(Run(step, start, xs, i).value, xs[i]);
      r.Ok? && r.value == Run(step, start, xs, i + 1).value
  {
    RunReaches(step, start, xs, i + 1, |xs|);
  }

  /** What holds at some input and every step keeps, holds from there on. */
  lemma {:induction false} RunStays<S(!new), X(!new), E>(step: (S, X) -> Result<S, E>, start: S, xs: seq<X>, i: nat,
                                                         n: nat, inv: S -> bool)
    requires i <= n <= |xs| && Run(step, start, xs, n).Ok?
    requires Run(step, start, xs, i).Ok? && inv(Run(step, start, xs, i).value)
    requires forall at, x | inv(at) && step(at, x).Ok? :: inv(step(at, x).value)
    ensures inv(Run(step, start, xs, n).value)
  {
    if i < n { RunStays(step, start, xs, i, n - 1, inv); }
  }

  lemma {:induction false} RunPrefix<S, X, E>(step: (S, X) -> Result<S, E>, start: S, a: seq<X>, b: seq<X>, n: nat)
    requires n <= |a|
    ensures Run(step, start, a + b, n) == Run(step, start, a, n)
  {
    if n > 0 { RunPrefix(step, start, a, b, n - 1); }
  }

  /** A run over two lists is a run over the first and then over the second. */
  lemma {:induction false} RunAppend<S, X, E>(step: (S, X) -> Result<S, E>, start: S, a: seq<X>, b: seq<X>, n: nat)
    requires n <= |b| && Run(step, start, a, |a|).Ok?
    ensures Run(step, start, a + b, |a| + n) == Run(step, Run(step, start, a, |a|).value, b, n)
  {
    if n == 0 {
      RunPrefix(step, start, a, b, |a|);
    } else {
      RunAppend(step, start, a, b, n - 1);
    }
  }

  /** The whole list takes `start` to `end`. */
  ghost predicate RunsTo<S, X, E>(step: (S, X) -> Result<S, E>, start: S, xs: seq<X>, end: S) {
    Run(step, start, xs, |xs|).Ok? && Run(step, start, xs, |xs|).value == end
  }

  lemma RunsOne<S, X, E>(step: (S, X) -> Result<S, E>, start: S, x: X)
    requires step(start, x).Ok?
    ensures RunsTo(step, start, [x], step(start, x).value)
  {
    assert Run(step, start, [x], 0).Ok? && Run(step, start, [x], 0).value == start;
  }

  lemma RunsThen<S, X, E>(step: (S, X) -> Result<S, E>, start: S, a: seq<X>, mid: S, b: seq<X>, end: S)
    requires RunsTo(step, start, a, mid) && RunsTo(step, mid, b, end)
    ensures RunsTo(step, start, a + b, end)
  {
    RunAppend(step, start, a, b, |b|);
  }

  function SumBelow(gain: nat -> int, n: nat): int {
    if n == 0 then 0 else SumBelow(gain, n - 1) + gain(n - 1)
  }

  /** Step `i` of the run adds `gain(i)` to `measure`. */
  ghost predicate StepAdds<S, X, E>(step: (S, X) -> Result<S, E>, start: S, xs: seq<X>, measure: S -> int,
                                    gain: nat -> int, i: nat)
    requires i < |xs|
  {
    Run(step, start, xs, i).Ok? ==>
      var at := Run(step, start, xs, i).value;
      step(at, xs[i]).Ok? ==> measure(step(at, xs[i]).value) == measure(at) + gain(i)
  }

  /** The run adds the sum of what its steps add. */
  lemma {:induction false} RunAdds<S, X, E>(step: (S, X) -> Result<S, E>, start: S, xs: seq<X>, n: nat,
                                            measure: S -> int, gain: nat -> int)
    requires n <= |xs|
    requires forall i | 0 <= i < n :: StepAdds(step, start, xs, measure, gain, i)
    ensures Run(step, start, xs, n).Ok? ==> measure(Run(step, start, xs, n).value) == measure(start) + SumBelow(gain, n)
  {
    if n > 0 {
      RunAdds(step, start, xs, n - 1, measure, gain);
      assert StepAdds(step, start, xs, measure, gain, n - 1);
    }
  }

  // ----- Sums over lists

  /** A step adds at most what its input costs. */
  ghost predicate CostsAtMost<S(!new), X(!new), E>(step: (S, X) -> Result<S, E>, measure: S -> nat, cost: X -> nat) {
    forall at, x | step(at, x).Ok? :: measure(step(at, x).value) <= measure(at) + cost(x)
  }

  lemma {:induction false} RunCosts<S(!new), X(!new),
      E>(step: (S, X) -> Result<S, E>, start: S, xs: seq<X>, n: nat, measure: S -> nat, cost: X -> nat)
    requires n <= |xs| && CostsAtMost(step, measure, cost)
    ensures Run(step, start, xs, n).Ok? ==>
        measure(Run(step, start, xs, n).value) <= measure(start) + SumSeq(cost, xs[..n])
  {
    if n > 0 {
      RunCosts(step, start, xs, n - 1, measure, cost);
      assert xs[..n] == xs[..n - 1] + [xs[n - 1]];
      SumSeqOne(cost, xs[..n - 1], xs[n - 1]);
    }
  }

  function SumSeq<T>(f: T -> nat, xs: seq<T>): nat {
    if xs == [] then 0 else SumSeq(f, xs[..|xs| - 1]) + f(xs[|xs| - 1])
  }

  lemma SumSeqOne<T>(f: T -> nat, xs: seq<T>, x: T)
    ensures SumSeq(f, xs + [x]) == SumSeq(f, xs) + f(x)
  {
    assert (xs + [x])[..|xs|] == xs;
  }

  lemma {:induction false} SumSeqAppend<T>(f: T -> nat, a: seq<T>, b: seq<T>)
    ensures SumSeq(f, a + b) == SumSeq(f, a) + SumSeq(f, b)
  {
    if b == [] {
      assert a + b == a;
    } else {
      var n := |b| - 1;
      assert (a + b)[..|a + b| - 1] == a + b[..n];
      SumSeqAppend(f, a, b[..n]);
    }
  }

  /** Item by item at most, but for an allowance for the first. */
  lemma {:induction false} SumSeqAtMost<T, U>(f: T -> nat, xs: seq<T>, g: U -> nat, ys: seq<U>, extra: nat)
    requires |xs| == |ys| && forall i | 0 <= i < |xs| :: f(xs[i]) <= g(ys[i]) + if i == 0 then extra else 0
    ensures SumSeq(f, xs) <= SumSeq(g, ys) + if xs == [] then 0 else extra
  {
    if xs != [] {
      var n := |xs| - 1;
      assert forall i | 0 <= i < n :: xs[..n][i] == xs[i] && ys[..n][i] == ys[i];
      SumSeqAtMost(f, xs[..n], g, ys[..n], extra);
    }
  }

  lemma {:induction false} SumSeqSame<T, U>(f: T -> nat, xs: seq<T>, g: U -> nat, ys: seq<U>)
    requires |xs| == |ys| && forall i | 0 <= i < |xs| :: f(xs[i]) == g(ys[i])
    ensures SumSeq(f, xs) == SumSeq(g, ys)
  {
    if xs != [] {
      var n := |xs| - 1;
      assert forall i | 0 <= i < n :: xs[..n][i] == xs[i] && ys[..n][i] == ys[i];
      SumSeqSame(f, xs[..n], g, ys[..n]);
    }
  }
}
