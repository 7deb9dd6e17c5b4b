/** Exactly which bundles the policy database refuses after any run, and the runs
    in which a bundle that the chain pays out is not among them. */
module PolicyExact {
  import opened Prelude
  import opened Ledger
  import opened PolicyMarks
  import opened PolicyDb
  import opened PolicyRuns

  // ----- Runs that lose no mark

  /** The last block of the chain that settles the bundle above the height it was
      queued at pays it out. */
  predicate LastPays(k: BundleKey, q: Option<nat>, c: Chain) {
    var last := LastHit(BundleHit(k), q, c, |c|);
    last.Some? && last.value.1
  }

  /** The reconciling that a submission begins with keeps the bundle's mark. */
  ghost predicate MarkKept(t: Tables, view: View, k: BundleKey)
    requires k in t.bundles
  {
    Rebuilds(t, view) || !Lost(BundleHit(k), t.bundles[k].queuedAt, t.policyTip.value, view.chain)
  }

  lemma RefusedByMark(t: Tables, view: View, activation: nat, k: BundleKey)
    requires AllSound(t) && AllAgree(t) && WellFormed(view, activation) && view.chain != [] && k in t.bundles
    ensures Put(t, view, activation, k).Err? <==>
      MarkKept(t, view, k) && LastPays(k, t.bundles[k].queuedAt, view.chain)
  {
    var hit, q, at := BundleHit(k), t.bundles[k].queuedAt, Reconciled(t, view, activation);
    assert BundleAgrees(t, k);
    if t.policyTip == Some(view.chain) {
      GrowthKeeps(hit, q, view.chain, view.chain);
    } else {
      forall i | 0 <= i < |view.chain| && i < activation ensures hit(view.chain[i]).None? {
        SilentBelow(view, activation, i);
      }
      NewMarkAgrees(hit, q, t.policyTip, view, activation, BundleMark(t.bundles[k]));
      if !MarkKept(t, view, k) { LostIsUnmarked(hit, q, t.policyTip.value, view.chain, BundleMark(t.bundles[k])); }
    }
    assert at.bundles[k].paidOut == Some(true) <==>
      BundleMark(at.bundles[k]).Some? && BundleMark(at.bundles[k]).value.1;
  }

  lemma LostIsUnmarked(hit: Hit, q: Option<nat>, was: Chain, c: Chain, mark: Mark)
    requires Agrees(hit, q, was, mark) && Lost(hit, q, was, c)
    ensures Moved(hit, q, was, c, mark) == None
  {
    var fork := Shared(was, c);
    ThroughIs(hit, q, c, fork, |c|, Cleared(mark, was, fork));
    LastHitFinds(hit, q, was, |was|);
  }

  /** After every run that loses no mark, however often a bundle is settled, it is
      refused exactly when this node queued it, the reconciling keeps its mark, and
      the last block that settles it pays it out. */
  lemma RefusedExactly(ops: seq<Op>, view: View, activation: nat, k: BundleKey)
    requires AllWellFormed(ops, activation) && AllFine(ops, activation)
    requires WellFormed(view, activation) && view.chain != []
    ensures var t := RunOps(ops, activation);
      Put(t, view, activation, k).Err? <==>
        k in t.bundles && MarkKept(t, view, k) && LastPays(k, t.bundles[k].queuedAt, view.chain)
  {
    RunAgrees(ops, activation);
    RunSound(ops, activation);
    if k in RunOps(ops, activation).bundles { RefusedByMark(RunOps(ops, activation), view, activation, k); }
  }

  // ----- Proposals

  /** A block of the chain above the height it was queued at has the proposal. */
  ghost predicate Mined(k: ProposalId, q: Option<nat>, c: Chain) {
    exists i | 0 <= i < |c| :: (q.None? || q.value < i) && k in c[i].proposals
  }

  lemma MinedIsHit(k: ProposalId, q: Option<nat>, c: Chain)
    ensures Mined(k, q, c) <==> LastHit(ProposalHit(k), q, c, |c|).Some?
  {
    LastHitFinds(ProposalHit(k), q, c, |c|);
    if i :| 0 <= i < |c| && (q.None? || q.value < i) && k in c[i].proposals {
      assert Matches(ProposalHit(k), q, c, i);
    }
  }

  /** The reconciling that a submission begins with drops the proposal's mark. */
  ghost predicate MarkDropped(t: Tables, view: View, k: ProposalId)
    requires k in t.proposals
  {
    !Rebuilds(t, view) && Lost(ProposalHit(k), t.proposals[k].queuedAt, t.policyTip.value, view.chain)
  }

  lemma ProposalByMark(t: Tables, view: View, activation: nat, k: ProposalId)
    requires AllSound(t) && AllAgree(t) && WellFormed(view, activation) && view.chain != [] && k in t.proposals
    ensures Proposed(t, view, activation, k).Err? <==>
      MarkDropped(t, view, k) || !Mined(k, t.proposals[k].queuedAt, view.chain)
  {
    var hit, q := ProposalHit(k), t.proposals[k].queuedAt;
    assert ProposalAgrees(t, k);
    MinedIsHit(k, q, view.chain);
    if t.policyTip == Some(view.chain) {
      GrowthKeeps(hit, q, view.chain, view.chain);
    } else {
      forall i | 0 <= i < |view.chain| && i < activation ensures hit(view.chain[i]).None? {
        SilentBelow(view, activation, i);
      }
      NewMarkAgrees(hit, q, t.policyTip, view, activation, ProposalMark(t.proposals[k]));
      ProposalMarkSet(k, t.proposals[k], t.policyTip, view, activation);
      if MarkDropped(t, view, k) {
        LostIsUnmarked(hit, q, t.policyTip.value, view.chain, ProposalMark(t.proposals[k]));
      }
    }
  }

  /** After every run that loses no mark, a proposal is refused exactly when this
      node queued it and no block of the chain above its queue height has it, or
      this very submission's reconciling drops its mark. */
  lemma ProposalRefusedExactly(ops: seq<Op>, view: View, activation: nat, k: ProposalId)
    requires AllWellFormed(ops, activation) && AllFine(ops, activation)
    requires WellFormed(view, activation) && view.chain != []
    ensures var t := RunOps(ops, activation);
      Proposed(t, view, activation, k).Err? <==>
        k in t.proposals && (MarkDropped(t, view, k) || !Mined(k, t.proposals[k].queuedAt, view.chain))
  {
    RunAgrees(ops, activation);
    RunSound(ops, activation);
    if k in RunOps(ops, activation).proposals { ProposalByMark(RunOps(ops, activation), view, activation, k); }
  }

  /** What a read on the same view then lists. */
  ghost predicate Unmined(t: Tables, k: ProposalId) {
    k in t.proposals && t.proposals[k].minedIn.None?
  }

  /** Once accepted, a proposal is queued at the tip's height and read back as not
      mined, and so is a bundle as not settled; every other row is as reconciling
      leaves it. */
  lemma AcceptedThenRead(t: Tables, view: View, activation: nat, k: ProposalId, b: BundleKey)
    requires view.chain != []
    ensures Proposed(t, view, activation, k).Ok? ==>
      var after := Reconciled(Proposed(t, view, activation, k).value, view, activation);
      && Unmined(after, k) && after.proposals[k].queuedAt == Some(|view.chain| - 1)
      && (forall j | j != k :: Unmined(after, j) <==> Unmined(Reconciled(t, view, activation), j))
      && after.bundles == Reconciled(t, view, activation).bundles
    ensures Put(t, view, activation, b).Ok? ==>
      var after := Reconciled(Put(t, view, activation, b).value, view, activation);
      && b in after.bundles && after.bundles[b] == BundleRow(Some(|view.chain| - 1), None, None)
      && (forall j | j != b && j in Reconciled(t, view, activation).bundles ::
            j in after.bundles && after.bundles[j] == Reconciled(t, view, activation).bundles[j])
      && after.proposals == Reconciled(t, view, activation).proposals
  {
    assert Reconciled(t, view, activation).policyTip == Some(view.chain);
  }

  // ----- All runs

  /** The mark of a row that has forgotten the blocks below `floor`: the last
      matching block from there on. */
  function MarkFrom(hit: Hit, q: Option<nat>, c: Chain, floor: nat): Mark
    requires floor <= |c|
  {
    Through(hit, q, c, floor, |c|, None)
  }

  /** What a row forgets when the cursor moves from `was` to `c`: a reorg that
      disconnects its mark makes it forget all blocks that the chains share. */
  ghost function NextFloor(hit: Hit, q: Option<nat>, was: Chain, c: Chain, floor: nat): (next: nat)
    requires floor <= |was|
    ensures next <= |c|
  {
    var fork := Shared(was, c);
    if HitBetween(hit, q, was, Max(floor, fork), |was|) then fork else Min(floor, fork)
  }

  function Min(a: nat, b: nat): nat { if a < b then a else b }

  function Max(a: nat, b: nat): nat { if a < b then b else a }

  lemma {:induction false} ThroughPrefix(hit: Hit, q: Option<nat>, a: Chain, b: Chain, lo: nat, n: nat)
    requires lo <= n <= |a| && n <= |b| && a[..n] == b[..n]
    ensures Through(hit, q, a, lo, n, None) == Through(hit, q, b, lo, n, None)
  {
    if n > lo {
      assert a[n - 1] == a[..n][n - 1] == b[..n][n - 1] == b[n - 1];
      assert a[..n - 1] == a[..n][..n - 1] == b[..n][..n - 1] == b[..n - 1];
      ThroughPrefix(hit, q, a, b, lo, n - 1);
    }
  }

  lemma {:induction false} ThroughSplit(hit: Hit, q: Option<nat>, c: Chain, lo: nat, mid: nat, n: nat, mark: Mark)
    requires lo <= mid <= n <= |c|
    ensures Through(hit, q, c, lo, n, mark) == Through(hit, q, c, mid, n, Through(hit, q, c, lo, mid, mark))
  {
    if n > mid { ThroughSplit(hit, q, c, lo, mid, n - 1, mark); }
  }

  /** Moving the cursor keeps the row at the last match above its new floor. */
  lemma MovedFrom(hit: Hit, q: Option<nat>, was: Chain, c: Chain, floor: nat)
    requires floor <= |was|
    ensures Moved(hit, q, was, c, MarkFrom(hit, q, was, floor))
         == MarkFrom(hit, q, c, NextFloor(hit, q, was, c, floor))
  {
    var fork, mark := Shared(was, c), MarkFrom(hit, q, was, floor);
    var top := Max(floor, fork);
    var below := Through(hit, q, was, floor, top, None);
    ThroughSplit(hit, q, was, floor, top, |was|, None);
    ThroughIs(hit, q, was, top, |was|, below);
    ThroughIs(hit, q, was, floor, top, None);
    LastHitFinds(hit, q, was, |was|);
    LastHitFinds(hit, q, was, top);
    if HitBetween(hit, q, was, top, |was|) {
      assert Cleared(mark, was, fork) == None;
    } else {
      assert Cleared(mark, was, fork) == mark;
      if floor < fork {
        ThroughPrefix(hit, q, was, c, floor, fork);
        ThroughSplit(hit, q, c, floor, fork, |c|, None);
      }
    }
  }

  /** The floor of a bundle's row once it is reconciled. */
  ghost function ReconciledFloor(t: Tables, view: View, k: BundleKey, floor: nat): nat
    requires k in t.bundles && floor <= |CursorChain(t)|
  {
    if view.chain == [] || t.policyTip == Some(view.chain) then floor
    else if Rebuilds(t, view) then 0
    else NextFloor(BundleHit(k), t.bundles[k].queuedAt, t.policyTip.value, view.chain, floor)
  }

  ghost predicate MarkedFrom(t: Tables, k: BundleKey, floor: nat) {
    k in t.bundles && floor <= |CursorChain(t)|
    && BundleMark(t.bundles[k]) == MarkFrom(BundleHit(k), t.bundles[k].queuedAt, CursorChain(t), floor)
  }

  lemma ReconciledFrom(t: Tables, view: View, activation: nat, k: BundleKey, floor: nat)
    requires WellFormed(view, activation) && MarkedFrom(t, k, floor)
    ensures MarkedFrom(Reconciled(t, view, activation), k, ReconciledFloor(t, view, k, floor))
  {
    if view.chain != [] && t.policyTip != Some(view.chain) {
      var hit, q := BundleHit(k), t.bundles[k].queuedAt;
      if Rebuilds(t, view) {
        forall i | 0 <= i < |view.chain| && i < activation ensures hit(view.chain[i]).None? {
          SilentBelow(view, activation, i);
        }
        RebuildIsScan(hit, q, view, activation);
        ThroughIs(hit, q, view.chain, 0, |view.chain|, None);
        LastHitFinds(hit, q, view.chain, |view.chain|);
      } else {
        MovedFrom(hit, q, t.policyTip.value, view.chain, floor);
      }
    }
  }

  /** The floor after one operation; a row that is queued anew has forgotten the
      whole chain. */
  ghost function StepFloor(t: Tables, op: Op, activation: nat, k: BundleKey, floor: nat): nat {
    if k !in t.bundles || floor > |CursorChain(t)| then |CursorChain(Step(t, op, activation))| else
    match op
    case Start(view) => floor
    case Read(view) => ReconciledFloor(t, view, k, floor)
    case Propose(view, id) =>
      if Proposed(t, view, activation, id).Ok? then ReconciledFloor(t, view, k, floor) else floor
    case Submit(view, b) =>
      if Put(t, view, activation, b).Err? then floor
      else if b == k then |CursorChain(Step(t, op, activation))| else ReconciledFloor(t, view, k, floor)
  }

  ghost function Floor(ops: seq<Op>, activation: nat, k: BundleKey): nat {
    if ops == [] then 0 else
    var front := ops[..|ops| - 1];
    StepFloor(RunOps(front, activation), ops[|ops| - 1], activation, k, Floor(front, activation, k))
  }

  lemma StepFrom(t: Tables, op: Op, activation: nat, k: BundleKey, floor: nat)
    requires AllSound(t) && WellFormed(op.view, activation) && (k in t.bundles ==> MarkedFrom(t, k, floor))
    ensures var t' := Step(t, op, activation);
      k in t'.bundles ==> MarkedFrom(t', k, StepFloor(t, op, activation, k, floor))
  {
    if k in t.bundles {
      ReconciledFrom(t, op.view, activation, k, floor);
      if op.Start? && Started(t, op.view) != t { StartedFrom(t, op.view, k); }
    }
  }

  /** A database that starts has no marks, and queues its rows at the tip. */
  lemma StartedFrom(t: Tables, view: View, k: BundleKey)
    requires AllSound(t) && k in t.bundles && t.policyTip.None? && view.chain != []
    ensures MarkedFrom(Started(t, view), k, 0)
  {
    assert BundleSound(t, k);
    ThroughIs(BundleHit(k), Some(|view.chain| - 1), view.chain, 0, |view.chain|, None);
    NothingAboveTip(BundleHit(k), view.chain, |view.chain|);
  }

  /** With no proviso at all: after every run, each bundle's mark is the last block
      above its floor that settles it. */
  lemma {:induction false} EveryMarkExactly(ops: seq<Op>, activation: nat, k: BundleKey)
    requires AllWellFormed(ops, activation)
    ensures k in RunOps(ops, activation).bundles ==>
      MarkedFrom(RunOps(ops, activation), k, Floor(ops, activation, k))
  {
    if ops != [] {
      var front := ops[..|ops| - 1];
      EveryMarkExactly(front, activation, k);
      RunSound(front, activation);
      StepFrom(RunOps(front, activation), ops[|ops| - 1], activation, k, Floor(front, activation, k));
    }
  }

  /** The block at height `i` pays the bundle out, and none above settles it. */
  ghost predicate PaysLast(k: BundleKey, q: Option<nat>, c: Chain, i: nat) {
    i < |c| && Above(q, i) && BundleHit(k)(c[i]) == Some(true) && !HitBetween(BundleHit(k), q, c, i + 1, |c|)
  }

  ghost predicate PaidFrom(k: BundleKey, q: Option<nat>, c: Chain, floor: nat) {
    exists i: nat | floor <= i :: PaysLast(k, q, c, i)
  }

  lemma RefusedFrom(t: Tables, view: View, activation: nat, k: BundleKey, floor: nat)
    requires WellFormed(view, activation) && view.chain != [] && MarkedFrom(t, k, floor) && Coherent(t)
    ensures Put(t, view, activation, k).Err? <==>
      PaidFrom(k, t.bundles[k].queuedAt, view.chain, ReconciledFloor(t, view, k, floor))
  {
    var at := Reconciled(t, view, activation);
    ReconciledFrom(t, view, activation, k, floor);
    ReconciledCoherent(t, view, activation);
    assert CursorChain(at) == view.chain && at.bundles[k].queuedAt == t.bundles[k].queuedAt;
    MarkPays(k, t.bundles[k].queuedAt, view.chain, ReconciledFloor(t, view, k, floor));
  }

  /** So after every run a bundle is refused exactly when this node queued it and
      the last block that settles it pays it out and is not among those that the
      row has forgotten. */
  lemma RefusedAfterEveryRun(ops: seq<Op>, view: View, activation: nat, k: BundleKey)
    requires AllWellFormed(ops, activation) && WellFormed(view, activation) && view.chain != []
    ensures var t, floor := RunOps(ops, activation), Floor(ops, activation, k);
      Put(t, view, activation, k).Err? <==>
        && k in t.bundles && floor <= |CursorChain(t)|
        && PaidFrom(k, t.bundles[k].queuedAt, view.chain, ReconciledFloor(t, view, k, floor))
  {
    EveryMarkExactly(ops, activation, k);
    RunSound(ops, activation);
    if k in RunOps(ops, activation).bundles {
      RefusedFrom(RunOps(ops, activation), view, activation, k, Floor(ops, activation, k));
    }
  }

  lemma MarkPays(k: BundleKey, q: Option<nat>, c: Chain, floor: nat)
    requires floor <= |c|
    ensures var mark := MarkFrom(BundleHit(k), q, c, floor);
      mark.Some? && mark.value.1 <==> PaidFrom(k, q, c, floor)
  {
    var hit, mark := BundleHit(k), MarkFrom(BundleHit(k), q, c, floor);
    ThroughIs(hit, q, c, floor, |c|, None);
    LastHitFinds(hit, q, c, |c|);
    if mark.Some? && mark.value.1 {
      var i := |mark.value.0| - 1;
      assert i >= floor;
      assert PaysLast(k, q, c, i);
    }
    if i: nat :| floor <= i && PaysLast(k, q, c, i) {
      assert Matches(hit, q, c, i);
      assert HitBetween(hit, q, c, floor, |c|);
    }
  }

  // ----- Bundles that are paid out and accepted

  ghost predicate Silent(k: BundleKey, blocks: Chain) {
    forall i | 0 <= i < |blocks| :: BundleHit(k)(blocks[i]).None?
  }

  /** Let a bundle be paid out, and later be settled again on the same branch, by a
      second payout or by failing; a reorg that takes only the second settlement
      back makes the producer accept the bundle again, though the chain still pays
      it out. Any number of blocks may come before, and any number between, as
      proposing and voting again takes. */
  lemma PaidBundleAccepted(k: BundleKey, before: Chain, paying: BlockInfo, between: Chain, again: BlockInfo,
                           other: BlockInfo)
    returns (ops: seq<Op>, view: View)
    requires Silent(k, before) && Silent(k, between)
    requires BundleHit(k)(paying) == Some(true) && BundleHit(k)(again).Some? && BundleHit(k)(other).None?
    ensures AllWellFormed(ops, 0) && WellFormed(view, 0) && view.chain == before + [paying] + between + [other]
    ensures k in RunOps(ops, 0).bundles && RunOps(ops, 0).bundles[k].queuedAt == None
    ensures RunOps(ops, 0).policyTip == Some(before + [paying] + between + [again])
    ensures Put(RunOps(ops, 0), view, 0, k).Ok?
  {
    var hit, common := BundleHit(k), before + [paying] + between;
    var was, c := common + [again], common + [other];
    assert Matches(hit, None, common, |before|);
    LostByReorg(hit, None, common, again, other);
    view := View(c, {was, c});
    var noTip, first := View([], {}), View(was, {was});
    ops := [Submit(noTip, k), Read(first)];
    QueuedThenRead(k, noTip, first);
    var t := RunOps(ops, 0);
    assert was[|common|] != c[|common|];
    assert NewMark(hit, None, Some(was), view, 0, BundleMark(t.bundles[k])) == None;
    assert Reconciled(t, view, 0).bundles[k].paidOut == None;
  }

  /** It takes no reorg: if the bundle is paid out, proposed once more and fails,
      the later failure is its mark, and it is accepted again. */
  lemma PaidThenFailedAccepted(k: BundleKey, before: Chain, paying: BlockInfo, between: Chain, failing: BlockInfo)
    returns (ops: seq<Op>, view: View)
    requires BundleHit(k)(paying) == Some(true) && BundleHit(k)(failing) == Some(false)
    ensures AllWellFormed(ops, 0) && GrowingRun(ops, 0) && WellFormed(view, 0)
    ensures view.chain == before + [paying] + between + [failing]
    ensures RunOps(ops, 0).policyTip == Some(view.chain)
    ensures k in RunOps(ops, 0).bundles && RunOps(ops, 0).bundles[k].queuedAt == None
    ensures Put(RunOps(ops, 0), view, 0, k).Ok?
  {
    var c, noTip := before + [paying] + between + [failing], View([], {});
    view := View(c, {c});
    ops := [Submit(noTip, k), Read(view)];
    assert ops[..1] == [Submit(noTip, k)] && ops[..1][..0] == [];
    assert GrowingRun(ops[..1][..0], 0) && RunOps(ops[..1], 0).policyTip == None;
    assert GrowingRun(ops[..1], 0);
    QueuedThenRead(k, noTip, view);
    assert Matches(BundleHit(k), None, c, |c| - 1);
    assert BundleMark(RunOps(ops, 0).bundles[k]) == Some((c[..|c|], false));
  }

  /** A bundle queued before the validator has a tip, and then a first read. */
  lemma QueuedThenRead(k: BundleKey, noTip: View, first: View)
    requires noTip.chain == [] && first.chain != []
    ensures var t := RunOps([Submit(noTip, k), Read(first)], 0);
      && t.policyTip == Some(first.chain) && k in t.bundles && t.bundles[k].queuedAt == None
      && BundleMark(t.bundles[k]) == LastHit(BundleHit(k), None, first.chain, |first.chain|)
  {
    var ops := [Submit(noTip, k), Read(first)];
    assert ops[..1] == [Submit(noTip, k)] && ops[..1][..0] == [];
    assert RunOps(ops[..1][..0], 0) == NEW_TABLES;
    assert RunOps(ops[..1], 0) == Put(NEW_TABLES, noTip, 0, k).value;
    assert RunOps(ops, 0).bundles[k] == NewBundleRow(k, BundleRow(None, None, None), None, first, 0);
    RebuildIsScan(BundleHit(k), None, first, 0);
  }

  // ----- Submissions without a tip

  /** A bundle submitted while the validator has no tip, though the cursor has
      one, is queued at no height, and agrees with the scan exactly when the
      cursor's chain does not settle it. */
  lemma SubmittedWithoutTip(t: Tables, view: View, activation: nat, k: BundleKey)
    requires AllAgree(t) && view.chain == [] && Put(t, view, activation, k).Ok?
    ensures AllAgree(Put(t, view, activation, k).value) <==>
      !HitBetween(BundleHit(k), None, CursorChain(t), 0, |CursorChain(t)|)
  {
    var t' := Put(t, view, activation, k).value;
    LastHitFinds(BundleHit(k), None, CursorChain(t), |CursorChain(t)|);
    forall j | j in t'.proposals ensures ProposalAgrees(t', j) { assert ProposalAgrees(t, j); }
    forall j | j in t'.bundles && j != k ensures BundleAgrees(t', j) { assert BundleAgrees(t, j); }
    assert BundleAgrees(t', k) <==> LastHit(BundleHit(k), None, CursorChain(t), |CursorChain(t)|) == None;
  }

  /** The same goes for a proposal. */
  lemma ProposedWithoutTip(t: Tables, view: View, activation: nat, k: ProposalId)
    requires AllAgree(t) && view.chain == [] && Proposed(t, view, activation, k).Ok?
    ensures AllAgree(Proposed(t, view, activation, k).value) <==>
      !HitBetween(ProposalHit(k), None, CursorChain(t), 0, |CursorChain(t)|)
  {
    var t' := Proposed(t, view, activation, k).value;
    LastHitFinds(ProposalHit(k), None, CursorChain(t), |CursorChain(t)|);
    forall j | j in t'.bundles ensures BundleAgrees(t', j) { assert BundleAgrees(t, j); }
    forall j | j in t'.proposals && j != k ensures ProposalAgrees(t', j) { assert ProposalAgrees(t, j); }
    assert ProposalAgrees(t', k) <==> LastHit(ProposalHit(k), None, CursorChain(t), |CursorChain(t)|) == None;
  }

  /** Runs that get there: the cursor stands on a chain, and then the validator has
      no tip. A bundle that the chain settles is queued as if it were new, and so
      is a proposal that the chain has. */
  lemma QueuedWithoutTip(c: Chain, k: BundleKey, id: ProposalId) returns (bundle: seq<Op>, proposal: seq<Op>)
    requires c != []
    ensures AllWellFormed(bundle, 0) && AllWellFormed(proposal, 0)
    ensures var t := RunOps(bundle, 0);
      && t.policyTip == Some(c) && k in t.bundles && t.bundles[k] == BundleRow(None, None, None)
      && (AllAgree(t) <==> !HitBetween(BundleHit(k), None, c, 0, |c|))
    ensures var t := RunOps(proposal, 0);
      && t.policyTip == Some(c) && id in t.proposals && t.proposals[id] == ProposalRow(None, None)
      && (AllAgree(t) <==> !HitBetween(ProposalHit(id), None, c, 0, |c|))
  {
    var read, noTip := Read(View(c, {c})), View([], {});
    bundle, proposal := [read, Submit(noTip, k)], [read, Propose(noTip, id)];
    assert bundle[..1] == [read] && proposal[..1] == [read] && [read][..0] == [];
    assert RunOps([], 0) == NEW_TABLES;
    var t := RunOps([read], 0);
    assert t == Tables(map[], map[], Some(c));
    SubmittedWithoutTip(t, noTip, 0, k);
    ProposedWithoutTip(t, noTip, 0, id);
  }
}
