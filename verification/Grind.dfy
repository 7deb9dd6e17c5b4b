/** Proof-of-work grinding on several threads: a step of one thread at a time, in
    every interleaving, with loads of the shared flag that may be stale. */
module Grind {
  import opened Prelude
  import opened Encoding

  // ----- Meeting the target

  /** Reads 32 bytes as a little-endian number. */
  predicate IsHash(h: Bytes) {
    |h| == 32
  }

  /** The full comparison. */
  predicate MeetsTarget(target: Bytes, hash: Bytes) {
    LittleEndianValue(hash) <= LittleEndianValue(target)
  }

  lemma {:induction false} TopByte(s: Bytes)
    requires s != []
    ensures var n := |s| - 1;
      LittleEndianValue(s) == LittleEndianValue(s[..n]) + Pow256(n) * s[n]
  {
    var n := |s| - 1;
    if n == 0 {
      assert s == [s[0]] && s[1..] == [] && s[..0] == [];
    } else {
      TopByte(s[1..]);
      assert s[1..][..n - 1] == s[..n][1..];
      assert LittleEndianValue(s[..n]) == s[0] + 256 * LittleEndianValue(s[..n][1..]);
      PowStep(n - 1, s[n]);
    }
  }

  lemma PowStep(n: nat, b: int)
    ensures 256 * (Pow256(n) * b) == Pow256(n + 1) * b
  {
  }

  /** The cheap reject on the most significant byte never discards a hash that
      meets the target. */
  lemma CheapRejectSound(target: Bytes, hash: Bytes)
    requires IsHash(target) && IsHash(hash) && MeetsTarget(target, hash)
    ensures hash[31] <= target[31]
  {
    TopByte(target);
    TopByte(hash);
    LittleEndianBound(target[..31]);
    LittleEndianBound(hash[..31]);
    if hash[31] > target[31] {
      TopByteDecides(Pow256(31), LittleEndianValue(hash[..31]), hash[31], LittleEndianValue(target[..31]), target[31]);
      assert false;
    }
  }

  lemma TopByteDecides(p: nat, lowA: nat, a: int, lowB: nat, b: int)
    requires lowB < p && a > b
    ensures lowA + p * a > lowB + p * b
  {
    assert p * a >= p * (b + 1) == p * b + p;
  }

  // ----- What is hashed

  /** A serialized header: everything up to the nonce, then the nonce. */
  function SerializeHeader(fixed: Bytes, nonce: nat): Bytes
    requires |fixed| == 76
  {
    fixed + LittleEndian(nonce, 4)
  }

  /** What is hashed for a candidate: the first 64 bytes of the given header, which
      are absorbed once, and the rest with the candidate written over its last
      four bytes. */
  function CandidateBytes(fixed: Bytes, nonce: nat, candidate: nat): Bytes
    requires |fixed| == 76
  {
    var serialized := SerializeHeader(fixed, nonce);
    serialized[..64] + (serialized[64..][..12] + LittleEndian(candidate, 4))
  }

  /** That is the header with the candidate as its nonce. */
  lemma MidstateHashesHeader(fixed: Bytes, nonce: nat, candidate: nat)
    requires |fixed| == 76
    ensures CandidateBytes(fixed, nonce, candidate) == SerializeHeader(fixed, candidate)
  {
    var serialized := SerializeHeader(fixed, nonce);
    assert serialized[..64] == fixed[..64] && serialized[64..][..12] == fixed[64..];
    assert fixed[..64] + fixed[64..] == fixed;
  }

  /** Whether each nonce solves the header. */
  type Solves = nat -> bool

  ghost predicate HashFn(hash: Bytes -> Bytes) {
    forall bytes :: IsHash(hash(bytes))
  }

  /** The test that a thread runs on a candidate. */
  predicate Accepts(hash: Bytes -> Bytes, target: Bytes, fixed: Bytes, nonce: nat, candidate: nat)
    requires |fixed| == 76 && IsHash(target)
  {
    var h := hash(CandidateBytes(fixed, nonce, candidate));
    IsHash(h) && h[31] <= target[31] && MeetsTarget(target, h)
  }

  /** A nonce that the header's target demands. */
  predicate Solution(hash: Bytes -> Bytes, target: Bytes, fixed: Bytes, n: nat)
    requires |fixed| == 76
  {
    MeetsTarget(target, hash(SerializeHeader(fixed, n)))
  }

  /** The test accepts exactly the nonces that meet the target. */
  lemma AcceptsExactly(hash: Bytes -> Bytes, target: Bytes, fixed: Bytes, nonce: nat, candidate: nat)
    requires |fixed| == 76 && IsHash(target) && HashFn(hash)
    ensures Accepts(hash, target, fixed, nonce, candidate) <==> Solution(hash, target, fixed, candidate)
  {
    MidstateHashesHeader(fixed, nonce, candidate);
    var h := hash(SerializeHeader(fixed, candidate));
    assert IsHash(h);
    if MeetsTarget(target, h) { CheapRejectSound(target, h); }
  }

  // ----- The threads

  const BATCH: nat := 4096

  /** Where a thread is: about to load `found`, about to try its candidate as the
      `k`-th of a batch, about to swap `found`, about to store its nonce, or
      returned: because there are no more candidates, or because of `found`. */
  datatype Phase = Load | Try(k: nat) | Swap | Store | Exhausted | Stopped

  datatype Thread = Thread(candidate: nat, phase: Phase)

  datatype State = State(found: bool, nonce: nat, threads: seq<Thread>)

  function Start(threads: nat): State {
    State(false, U64_MAX, seq(threads, i requires 0 <= i < threads => Thread(i, Load)))
  }

  predicate Returned(th: Thread) {
    th.phase == Exhausted || th.phase == Stopped
  }

  /** A thread that tried its candidate in vain goes on with the next one of its
      stride, if that is still a nonce. */
  function Advance(th: Thread, k: nat, stride: nat): Thread {
    if th.candidate + stride > U32_MAX then th.(phase := Exhausted)
    else Thread(th.candidate + stride, if k + 1 >= BATCH then Load else Try(k + 1))
  }

  /** One step of thread `t`. A load may see a stale `false`; a swap may not. */
  function Step(solves: Solves, s: State, t: nat, stale: bool): State
    requires t < |s.threads|
  {
    var th := s.threads[t];
    match th.phase
    case Load => s.(threads := s.threads[t := th.(phase := if s.found && !stale then Stopped else Try(0))])
    case Try(k) =>
      s.(threads := s.threads[t := if solves(th.candidate) then th.(phase := Swap) else Advance(th, k, |s.threads|)])
    case Swap => State(true, s.nonce, s.threads[t := th.(phase := if s.found then Stopped else Store)])
    case Store => State(s.found, th.candidate, s.threads[t := th.(phase := Stopped)])
    case _ => s
  }

  /** A schedule names the thread of each step, and whether its load is stale. */
  type Schedule = seq<(nat, bool)>

  function RunSchedule(solves: Solves, threads: nat, schedule: Schedule): (s: State)
    requires forall i | 0 <= i < |schedule| :: schedule[i].0 < threads
    ensures |s.threads| == threads
  {
    if schedule == [] then Start(threads) else
    var n := |schedule| - 1;
    assert forall i | 0 <= i < n :: schedule[..n][i] == schedule[i];
    Step(solves, RunSchedule(solves, threads, schedule[..n]), schedule[n].0, schedule[n].1)
  }

  // ----- What every step keeps

  /** The thread whose stride a nonce is on: the remainder by the number of
      threads. */
  function Owner(n: nat, threads: nat): (t: nat)
    requires threads > 0
    ensures t < threads
  {
    if n < threads then n else Owner(n - threads, threads)
  }

  /** The stride of thread `t`: all smaller candidates of it failed. */
  ghost predicate Searched(solves: Solves, threads: nat, t: nat, bound: nat)
    requires threads > 0
  {
    forall n: nat | n < bound && Owner(n, threads) == t :: !solves(n)
  }

  ghost predicate ThreadOk(solves: Solves, s: State, t: nat)
    requires t < |s.threads|
  {
    var th := s.threads[t];
    && th.candidate <= U32_MAX && Owner(th.candidate, |s.threads|) == t
    && Searched(solves, |s.threads|, t, th.candidate)
    && (th.phase == Swap || th.phase == Store ==> solves(th.candidate))
    && (th.phase == Exhausted ==> Searched(solves, |s.threads|, t, U32_MAX + 1))
    && (th.phase == Stopped || th.phase == Store ==> s.found)
  }

  /** Thread `t` has won the swap and not stored yet. */
  predicate Winner(s: State, t: nat) {
    t < |s.threads| && s.threads[t].phase == Store
  }

  ghost predicate Inv(solves: Solves, s: State) {
    && (forall t | 0 <= t < |s.threads| :: ThreadOk(solves, s, t))
    && (forall t, u | Winner(s, t) && Winner(s, u) :: t == u)
    && (forall t | Winner(s, t) :: s.nonce == U64_MAX)
    && (s.nonce != U64_MAX ==> s.found && s.nonce <= U32_MAX && solves(s.nonce))
    && (s.found && s.nonce == U64_MAX ==> exists t :: Winner(s, t))
  }

  /** Two nonces of one stride are at least a stride apart. */
  lemma {:induction false} StrideGap(a: nat, n: nat, threads: nat)
    requires a < n < a + threads
    ensures Owner(n, threads) != Owner(a, threads)
  {
    if a >= threads { StrideGap(a - threads, n - threads, threads); }
  }

  lemma SearchedMore(solves: Solves, threads: nat, t: nat, a: nat)
    requires threads > 0 && Owner(a, threads) == t && Searched(solves, threads, t, a) && !solves(a)
    ensures Searched(solves, threads, t, a + threads)
  {
    forall n: nat | n < a + threads && Owner(n, threads) == t ensures !solves(n) {
      if n > a { StrideGap(a, n, threads); }
    }
  }

  lemma ThreadAdvances(solves: Solves, s: State, t: nat, stale: bool)
    requires t < |s.threads| && ThreadOk(solves, s, t)
    requires s.threads[t].phase == Swap ==> s.found || !Winner(s, t)
    ensures ThreadOk(solves, Step(solves, s, t, stale), t)
  {
    var th := s.threads[t];
    if th.phase.Try? && !solves(th.candidate) {
      SearchedMore(solves, |s.threads|, t, th.candidate);
    }
  }

  lemma OthersKept(solves: Solves, s: State, t: nat, stale: bool, u: nat)
    requires t < |s.threads| && u < |s.threads| && u != t && ThreadOk(solves, s, u)
    ensures ThreadOk(solves, Step(solves, s, t, stale), u)
  {
  }

  lemma StepKeeps(solves: Solves, s: State, t: nat, stale: bool)
    requires t < |s.threads| && Inv(solves, s)
    ensures Inv(solves, Step(solves, s, t, stale))
  {
    var s' := Step(solves, s, t, stale);
    assert ThreadOk(solves, s, t);
    ThreadAdvances(solves, s, t, stale);
    forall u | 0 <= u < |s'.threads| ensures ThreadOk(solves, s', u) {
      if u != t { OthersKept(solves, s, t, stale, u); }
    }
    forall u: nat | u != t ensures Winner(s', u) <==> Winner(s, u) {}
    if s.threads[t].phase == Swap && !s.found {
      assert Winner(s', t);
      forall u: nat ensures !Winner(s, u) {
        assert u < |s.threads| ==> ThreadOk(solves, s, u);
      }
    } else if s.threads[t].phase == Store {
      assert Winner(s, t);
    } else {
      assert !Winner(s', t) && !Winner(s, t);
    }
    if s'.found && s'.nonce == U64_MAX && !(s.threads[t].phase == Swap && !s.found) {
      assert s.found && s.nonce == U64_MAX;
      var u: nat :| Winner(s, u);
      assert Winner(s', u);
    }
  }

  lemma StartInv(solves: Solves, threads: nat)
    requires threads <= U32_MAX
    ensures Inv(solves, Start(threads))
  {
    var s := Start(threads);
    forall t | 0 <= t < threads ensures ThreadOk(solves, s, t) {
      assert forall n: nat | n < t :: Owner(n, threads) == n;
    }
  }

  /** Every interleaving keeps the invariant. */
  lemma {:induction false} RunInv(solves: Solves, threads: nat, schedule: Schedule)
    requires threads <= U32_MAX && forall i | 0 <= i < |schedule| :: schedule[i].0 < threads
    ensures Inv(solves, RunSchedule(solves, threads, schedule))
  {
    if schedule == [] {
      StartInv(solves, threads);
    } else {
      var n := |schedule| - 1;
      assert forall i | 0 <= i < n :: schedule[..n][i] == schedule[i];
      RunInv(solves, threads, schedule[..n]);
      StepKeeps(solves, RunSchedule(solves, threads, schedule[..n]), schedule[n].0, schedule[n].1);
    }
  }

  // ----- The result

  predicate AllReturned(s: State) {
    forall t | 0 <= t < |s.threads| :: Returned(s.threads[t])
  }

  /** What is returned once all threads have been joined. */
  function Answer(s: State): Option<nat> {
    if s.nonce == U64_MAX then None else Some(s.nonce)
  }

  /** In every interleaving, once all threads have returned: an answer solves the
      header, and there is no answer exactly when no nonce does. */
  lemma GrindCorrect(solves: Solves, threads: nat, schedule: Schedule)
    requires 0 < threads <= U32_MAX && forall i | 0 <= i < |schedule| :: schedule[i].0 < threads
    requires AllReturned(RunSchedule(solves, threads, schedule))
    ensures match Answer(RunSchedule(solves, threads, schedule))
      case Some(nonce) => nonce <= U32_MAX && solves(nonce)
      case None => forall n: nat | n <= U32_MAX :: !solves(n)
  {
    var s := RunSchedule(solves, threads, schedule);
    RunInv(solves, threads, schedule);
    if s.nonce == U64_MAX {
      forall t: nat ensures !Winner(s, t) {
        assert t < |s.threads| ==> Returned(s.threads[t]);
      }
      forall n: nat | n <= U32_MAX ensures !solves(n) {
        var t := Owner(n, threads);
        assert ThreadOk(solves, s, t) && Returned(s.threads[t]);
      }
    }
  }

  function TestOf(hash: Bytes -> Bytes, target: Bytes, fixed: Bytes, nonce: nat): Solves
    requires |fixed| == 76 && IsHash(target)
  {
    (n: nat) => Accepts(hash, target, fixed, nonce, n)
  }

  /** In every interleaving, the header that grinding returns meets the target,
      and it returns none exactly when no nonce of 32 bits would. */
  lemma GrindMeetsTarget(hash: Bytes -> Bytes, target: Bytes, fixed: Bytes, nonce: nat, threads: nat,
                         schedule: Schedule)
    requires |fixed| == 76 && IsHash(target) && HashFn(hash)
    requires 0 < threads <= U32_MAX && forall i | 0 <= i < |schedule| :: schedule[i].0 < threads
    requires AllReturned(RunSchedule(TestOf(hash, target, fixed, nonce), threads, schedule))
    ensures match Answer(RunSchedule(TestOf(hash, target, fixed, nonce), threads, schedule))
      case Some(n) => n <= U32_MAX && Solution(hash, target, fixed, n)
      case None => forall n: nat | n <= U32_MAX :: !Solution(hash, target, fixed, n)
  {
    GrindCorrect(TestOf(hash, target, fixed, nonce), threads, schedule);
    forall n: nat
      ensures TestOf(hash, target, fixed, nonce)(n) <==> Solution(hash, target, fixed, n)
    {
      AcceptsExactly(hash, target, fixed, nonce, n);
    }
  }

  // ----- Termination

  /** Bounds how many steps a thread has left. */
  function Left(th: Thread): nat {
    match th.phase
    case Load => 2 * SatSub(U32_MAX + 1, th.candidate) + 3
    case Try(_) => 2 * SatSub(U32_MAX + 1, th.candidate) + 2
    case Swap => 2
    case Store => 1
    case _ => 0
  }

  lemma StepProgresses(solves: Solves, s: State, t: nat, stale: bool)
    requires t < |s.threads| && s.threads[t].candidate <= U32_MAX
    ensures var s' := Step(solves, s, t, stale);
      && Left(s'.threads[t]) <= SatSub(Left(s.threads[t]), 1)
      && forall u | 0 <= u < |s.threads| && u != t :: s'.threads[u] == s.threads[u]
  {
  }

  function Count(schedule: Schedule, t: nat): nat {
    if schedule == [] then 0 else
    var n := |schedule| - 1;
    Count(schedule[..n], t) + if schedule[n].0 == t then 1 else 0
  }

  lemma {:induction false} StepsTaken(solves: Solves, threads: nat, schedule: Schedule, t: nat)
    requires t < threads <= U32_MAX && forall i | 0 <= i < |schedule| :: schedule[i].0 < threads
    ensures Left(RunSchedule(solves, threads, schedule).threads[t]) <= SatSub(Left(Thread(t, Load)), Count(schedule, t))
  {
    if schedule != [] {
      var n := |schedule| - 1;
      assert forall i | 0 <= i < n :: schedule[..n][i] == schedule[i];
      StepsTaken(solves, threads, schedule[..n], t);
      var s := RunSchedule(solves, threads, schedule[..n]);
      RunInv(solves, threads, schedule[..n]);
      assert ThreadOk(solves, s, schedule[n].0);
      StepProgresses(solves, s, schedule[n].0, schedule[n].1);
    }
  }

  /** A thread that is scheduled often enough returns, whatever the others do and
      however stale its loads are. */
  lemma EveryThreadReturns(solves: Solves, threads: nat, schedule: Schedule, t: nat)
    requires t < threads <= U32_MAX && forall i | 0 <= i < |schedule| :: schedule[i].0 < threads
    requires Count(schedule, t) >= 2 * (U32_MAX + 1) + 3
    ensures Returned(RunSchedule(solves, threads, schedule).threads[t])
  {
    StepsTaken(solves, threads, schedule, t);
  }
}
