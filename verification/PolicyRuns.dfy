/** The policy database over whole runs: reads, submissions and reorgs in any
    order. */
module PolicyRuns {
  import opened Prelude
  import opened Ledger
  import opened PolicyMarks
  import opened PolicyDb

  datatype PolicyError = AlreadyQueued | AlreadyPaidOut

  // ----- Submissions

  /** Queues a proposal, again if it was mined already; one that is still pending
      is refused. */
  function Proposed(t: Tables, view: View, activation: nat, k: ProposalId): Result<Tables, PolicyError> {
    var at := Reconciled(t, view, activation);
    if k in at.proposals && at.proposals[k].minedIn.None? then Err(AlreadyQueued)
    else Ok(at.(proposals := at.proposals[k := ProposalRow(TipHeight(view), None)]))
  }

  /** Queues a bundle, again if it failed or is pending; one that was paid out is
      refused. */
  function Put(t: Tables, view: View, activation: nat, k: BundleKey): Result<Tables, PolicyError> {
    var at := Reconciled(t, view, activation);
    if k in at.bundles && at.bundles[k].paidOut == Some(true) then Err(AlreadyPaidOut)
    else Ok(at.(bundles := at.bundles[k := BundleRow(TipHeight(view), None, None)]))
  }

  function StartedP(row: ProposalRow, height: nat): ProposalRow {
    if row.queuedAt.None? then row.(queuedAt := Some(height)) else row
  }

  function StartedB(row: BundleRow, height: nat): BundleRow {
    if row.queuedAt.None? then row.(queuedAt := Some(height)) else row
  }

  /** Starts a database that has no cursor at the validator's tip. */
  function Started(t: Tables, view: View): Tables {
    if t.policyTip.Some? || view.chain == [] then t else
    Tables(map k | k in t.proposals :: StartedP(t.proposals[k], |view.chain| - 1),
           map k | k in t.bundles :: StartedB(t.bundles[k], |view.chain| - 1),
           Some(view.chain))
  }

  class Db {
    var tables: Tables
    const activation: nat

    ghost predicate Valid()
      reads this
    {
      Coherent(tables)
    }

    constructor (activation: nat)
      ensures Valid() && this.activation == activation && tables == NEW_TABLES
    {
      this.activation := activation;
      tables := NEW_TABLES;
    }

    /** Once there is a tip there is a cursor. A row from before it takes marks only
        from blocks above the tip it started at, so whatever the chain already holds,
        the marks are those of a scan. */
    method StartCursor(view: View)
      requires Valid()
      modifies this
      ensures Valid() && tables == Started(old(tables), view)
      ensures tables.policyTip == if old(tables).policyTip.None? && view.chain != [] then Some(view.chain)
                                  else old(tables).policyTip
      ensures old(tables).policyTip.Some? || view.chain == [] ==> tables == old(tables)
      ensures AllSound(old(tables)) ==> AllSound(tables)
      ensures AllSound(old(tables)) && old(tables).policyTip.None? && view.chain != [] ==>
        AllAgree(tables) && QueuedFrom(tables, |view.chain| - 1)
    {
      if AllSound(tables) { StartSound(tables, view); StartQueues(tables, view); }
      if tables.policyTip.Some? || view.chain == [] { return; }
      var height := |view.chain| - 1;
      tables := Tables(map k | k in tables.proposals :: StartedP(tables.proposals[k], height),
                       map k | k in tables.bundles :: StartedB(tables.bundles[k], height),
                       Some(view.chain));
    }

    /** The proposals that are not on the chain yet. */
    method OurProposals(view: View) returns (keys: set<ProposalId>)
      requires Valid()
      modifies this
      ensures Valid() && tables == Reconciled(old(tables), view, activation)
      ensures keys == set k | k in tables.proposals && tables.proposals[k].minedIn.None?
    {
      ReconciledCoherent(tables, view, activation);
      var t, _ := Reconcile(tables, view, activation);
      tables := t;
      keys := set k | k in t.proposals && t.proposals[k].minedIn.None?;
    }

    /** The bundles that are not settled yet. */
    method OurBundles(view: View) returns (keys: set<BundleKey>)
      requires Valid()
      modifies this
      ensures Valid() && tables == Reconciled(old(tables), view, activation)
      ensures keys == set k | k in tables.bundles && tables.bundles[k].settledIn.None?
    {
      ReconciledCoherent(tables, view, activation);
      var t, _ := Reconcile(tables, view, activation);
      tables := t;
      keys := set k | k in t.bundles && t.bundles[k].settledIn.None?;
    }

    /** An error rolls everything back, the reconciling included. */
    method ProposeSidechain(view: View, k: ProposalId) returns (r: Result<(), PolicyError>)
      requires Valid()
      modifies this
      ensures Valid()
      ensures match Proposed(old(tables), view, activation, k)
        case Ok(after) => r == Ok(()) && tables == after
        case Err(e) => r == Err(e) && tables == old(tables)
    {
      ReconciledCoherent(tables, view, activation);
      var t, tipHeight := Reconcile(tables, view, activation);
      if k in t.proposals && t.proposals[k].minedIn.Some? {
        t := t.(proposals := t.proposals[k := t.proposals[k].(minedIn := None, queuedAt := tipHeight)]);
      } else if k in t.proposals {
        return Err(AlreadyQueued);
      } else {
        t := t.(proposals := t.proposals[k := ProposalRow(tipHeight, None)]);
      }
      tables := t;
      r := Ok(());
    }

    method PutWithdrawalBundle(view: View, k: BundleKey) returns (r: Result<(), PolicyError>)
      requires Valid()
      modifies this
      ensures Valid()
      ensures match Put(old(tables), view, activation, k)
        case Ok(after) => r == Ok(()) && tables == after
        case Err(e) => r == Err(e) && tables == old(tables)
    {
      ReconciledCoherent(tables, view, activation);
      var t, tipHeight := Reconcile(tables, view, activation);
      if k in t.bundles && t.bundles[k].paidOut == Some(true) { return Err(AlreadyPaidOut); }
      var row := if k in t.bundles then t.bundles[k].(settledIn := None, paidOut := None, queuedAt := tipHeight)
                 else BundleRow(tipHeight, None, None);
      tables := t.(bundles := t.bundles[k := row]);
      r := Ok(());
    }
  }

  const NEW_TABLES := Tables(map[], map[], None)

  lemma ReconciledCoherent(t: Tables, view: View, activation: nat)
    requires Coherent(t)
    ensures Coherent(Reconciled(t, view, activation))
  {
  }

  // ----- What the marks mean

  /** The chain that the cursor names. */
  function CursorChain(t: Tables): Chain {
    match t.policyTip case None => [] case Some(tip) => tip
  }

  ghost predicate ProposalSound(t: Tables, k: ProposalId)
    requires k in t.proposals
  {
    Sound(ProposalHit(k), t.proposals[k].queuedAt, CursorChain(t), ProposalMark(t.proposals[k]))
  }

  ghost predicate BundleSound(t: Tables, k: BundleKey)
    requires k in t.bundles
  {
    Sound(BundleHit(k), t.bundles[k].queuedAt, CursorChain(t), BundleMark(t.bundles[k]))
  }

  /** Every mark names a block of the cursor's chain, above the height its row
      was queued at, that carries the row's event; `paid_out` goes with
      `settled_in`; and before there is a cursor no row is queued at a height. */
  ghost predicate AllSound(t: Tables) {
    && Coherent(t)
    && (forall k | k in t.proposals :: ProposalSound(t, k))
    && (forall k | k in t.bundles :: BundleSound(t, k))
    && (t.policyTip.None? ==>
          && (forall k | k in t.proposals :: t.proposals[k].queuedAt.None?)
          && (forall k | k in t.bundles :: t.bundles[k].queuedAt.None?))
  }

  ghost predicate ProposalAgrees(t: Tables, k: ProposalId)
    requires k in t.proposals
  {
    Agrees(ProposalHit(k), t.proposals[k].queuedAt, CursorChain(t), ProposalMark(t.proposals[k]))
  }

  ghost predicate BundleAgrees(t: Tables, k: BundleKey)
    requires k in t.bundles
  {
    Agrees(BundleHit(k), t.bundles[k].queuedAt, CursorChain(t), BundleMark(t.bundles[k]))
  }

  /** Every mark is what a scan of the cursor's whole chain gives. */
  ghost predicate AllAgree(t: Tables) {
    && (forall k | k in t.proposals :: ProposalAgrees(t, k))
    && (forall k | k in t.bundles :: BundleAgrees(t, k))
  }

  // ----- Rebuilding

  /** Blocks below the activation height match nothing, so a rebuild from there
      is a scan of the whole chain, whatever the marks were. */
  lemma RebuildIsScan(hit: Hit, q: Option<nat>, view: View, activation: nat)
    requires forall i | 0 <= i < |view.chain| && i < activation :: hit(view.chain[i]).None?
    ensures Through(hit, q, view.chain, |view.chain| - SatSub(|view.chain|, activation), |view.chain|, None)
         == LastHit(hit, q, view.chain, |view.chain|)
  {
    var c := view.chain;
    var lo := |c| - SatSub(|c|, activation);
    ThroughIs(hit, q, c, lo, |c|, None);
    LastHitFinds(hit, q, c, lo);
  }

  lemma SilentBelow(view: View, activation: nat, i: nat)
    requires WellFormed(view, activation) && i < |view.chain| && i < activation
    ensures forall k :: ProposalHit(k)(view.chain[i]).None?
    ensures forall k :: BundleHit(k)(view.chain[i]).None?
  {
  }

  predicate Rebuilds(t: Tables, view: View) {
    t.policyTip.None? || t.policyTip.value !in view.known
  }

  // ----- Reconciling

  lemma NewMarkSound(hit: Hit, q: Option<nat>, tip: Option<BlockId>, view: View, activation: nat, mark: Mark)
    requires Sound(hit, q, match tip case None => [] case Some(c) => c, mark)
    requires forall i | 0 <= i < |view.chain| && i < activation :: hit(view.chain[i]).None?
    ensures Sound(hit, q, view.chain, NewMark(hit, q, tip, view, activation, mark))
  {
    if tip.Some? && tip.value in view.known {
      MovedSound(hit, q, tip.value, view.chain, mark);
    } else {
      RebuildIsScan(hit, q, view, activation);
      AgreesSound(hit, q, view.chain, LastHit(hit, q, view.chain, |view.chain|));
    }
  }

  lemma NewMarkAgrees(hit: Hit, q: Option<nat>, tip: Option<BlockId>, view: View, activation: nat, mark: Mark)
    requires forall i | 0 <= i < |view.chain| && i < activation :: hit(view.chain[i]).None?
    requires tip.Some? && tip.value in view.known ==> Agrees(hit, q, tip.value, mark)
    ensures Agrees(hit, q, view.chain, NewMark(hit, q, tip, view, activation, mark))
       <==> !(tip.Some? && tip.value in view.known && Lost(hit, q, tip.value, view.chain))
  {
    if tip.Some? && tip.value in view.known {
      MovedAgrees(hit, q, tip.value, view.chain, mark);
    } else {
      RebuildIsScan(hit, q, view, activation);
    }
  }

  /** With no proviso at all, reconciling keeps the marks sound. */
  lemma ReconcileSound(t: Tables, view: View, activation: nat)
    requires AllSound(t) && WellFormed(view, activation)
    ensures AllSound(Reconciled(t, view, activation))
  {
    var t' := Reconciled(t, view, activation);
    ReconciledCoherent(t, view, activation);
    if view.chain != [] && t.policyTip != Some(view.chain) {
      forall i | 0 <= i < |view.chain| && i < activation
        ensures forall k :: ProposalHit(k)(view.chain[i]).None?
        ensures forall k :: BundleHit(k)(view.chain[i]).None?
      {
        SilentBelow(view, activation, i);
      }
      forall k | k in t'.proposals ensures ProposalSound(t', k) {
        assert ProposalSound(t, k);
        NewMarkSound(ProposalHit(k), t.proposals[k].queuedAt, t.policyTip, view, activation,
            ProposalMark(t.proposals[k]));
        ProposalMarkSet(k, t.proposals[k], t.policyTip, view, activation);
      }
      forall k | k in t'.bundles ensures BundleSound(t', k) {
        assert BundleSound(t, k);
        NewMarkSound(BundleHit(k), t.bundles[k].queuedAt, t.policyTip, view, activation, BundleMark(t.bundles[k]));
      }
    }
  }

  /** A proposal row stores the block only; nothing else is in its mark. */
  lemma ProposalMarkSet(k: ProposalId, row: ProposalRow, tip: Option<BlockId>, view: View, activation: nat)
    ensures ProposalMark(NewProposalRow(k, row, tip, view, activation))
         == NewMark(ProposalHit(k), row.queuedAt, tip, view, activation, ProposalMark(row))
  {
    var hit, c := ProposalHit(k), view.chain;
    LastHitFinds(hit, row.queuedAt, c, |c|);
    if tip.Some? && tip.value in view.known {
      var fork := Shared(tip.value, c);
      ThroughIs(hit, row.queuedAt, c, fork, |c|, Cleared(ProposalMark(row), tip.value, fork));
    } else {
      ThroughIs(hit, row.queuedAt, c, |c| - SatSub(|c|, activation), |c|, None);
    }
  }

  /** No row's mark is lost on the way to the validator's chain. */
  ghost predicate NothingLost(t: Tables, view: View) {
    view.chain != [] && !Rebuilds(t, view) ==>
      && (forall k | k in t.proposals :: !Lost(ProposalHit(k), t.proposals[k].queuedAt, t.policyTip.value, view.chain))
      && (forall k | k in t.bundles :: !Lost(BundleHit(k), t.bundles[k].queuedAt, t.policyTip.value, view.chain))
  }

  /** Reconciling keeps every row in agreement with the scan of the whole chain
      exactly when no mark is lost; a rebuild establishes agreement. */
  lemma ReconcileAgrees(t: Tables, view: View, activation: nat)
    requires WellFormed(view, activation) && view.chain != []
    requires AllAgree(t) || (Rebuilds(t, view) && t.policyTip != Some(view.chain))
    ensures AllAgree(Reconciled(t, view, activation)) <==> NothingLost(t, view)
  {
    var t' := Reconciled(t, view, activation);
    if t.policyTip != Some(view.chain) {
      forall i | 0 <= i < |view.chain| && i < activation
        ensures forall k :: ProposalHit(k)(view.chain[i]).None?
        ensures forall k :: BundleHit(k)(view.chain[i]).None?
      {
        SilentBelow(view, activation, i);
      }
      forall k | k in t.proposals
        ensures ProposalAgrees(t', k) <==>
            Rebuilds(t, view) || !Lost(ProposalHit(k), t.proposals[k].queuedAt, t.policyTip.value, view.chain)
      {
        assert AllAgree(t) ==> ProposalAgrees(t, k);
        NewMarkAgrees(ProposalHit(k), t.proposals[k].queuedAt, t.policyTip, view, activation,
            ProposalMark(t.proposals[k]));
        ProposalMarkSet(k, t.proposals[k], t.policyTip, view, activation);
      }
      forall k | k in t.bundles
        ensures BundleAgrees(t', k) <==>
            Rebuilds(t, view) || !Lost(BundleHit(k), t.bundles[k].queuedAt, t.policyTip.value, view.chain)
      {
        assert AllAgree(t) ==> BundleAgrees(t, k);
        NewMarkAgrees(BundleHit(k), t.bundles[k].queuedAt, t.policyTip, view, activation, BundleMark(t.bundles[k]));
      }
    } else {
      SameChainKeeps(t, view);
    }
  }

  lemma SameChainKeeps(t: Tables, view: View)
    requires t.policyTip == Some(view.chain)
    ensures NothingLost(t, view)
  {
    forall k | k in t.proposals ensures !Lost(ProposalHit(k), t.proposals[k].queuedAt, view.chain, view.chain) {
      GrowthKeeps(ProposalHit(k), t.proposals[k].queuedAt, view.chain, view.chain);
    }
    forall k | k in t.bundles ensures !Lost(BundleHit(k), t.bundles[k].queuedAt, view.chain, view.chain) {
      GrowthKeeps(BundleHit(k), t.bundles[k].queuedAt, view.chain, view.chain);
    }
  }

  // ----- Runs

  datatype Op =
    | Start(view: View)
    | Read(view: View)
    | Propose(view: View, proposal: ProposalId)
    | Submit(view: View, bundle: BundleKey)

  /** One operation; an error changes nothing. */
  function Step(t: Tables, op: Op, activation: nat): Tables {
    match op
    case Start(view) => Started(t, view)
    case Read(view) => Reconciled(t, view, activation)
    case Propose(view, k) => (match Proposed(t, view, activation, k) case Ok(after) => after case Err(_) => t)
    case Submit(view, k) => (match Put(t, view, activation, k) case Ok(after) => after case Err(_) => t)
  }

  function RunOps(ops: seq<Op>, activation: nat): Tables {
    if ops == [] then NEW_TABLES else Step(RunOps(ops[..|ops| - 1], activation), ops[|ops| - 1], activation)
  }

  ghost predicate AllWellFormed(ops: seq<Op>, activation: nat) {
    forall op | op in ops :: WellFormed(op.view, activation)
  }

  lemma StartSound(t: Tables, view: View)
    requires AllSound(t)
    ensures AllSound(Started(t, view))
    ensures AllAgree(t) ==> AllAgree(Started(t, view))
  {
    if t.policyTip.None? && view.chain != [] {
      var t' := Started(t, view);
      forall k | k in t.proposals ensures ProposalSound(t', k) && ProposalAgrees(t', k) {
        assert ProposalSound(t, k);
        LastHitFinds(ProposalHit(k), Some(|view.chain| - 1), view.chain, |view.chain|);
      }
      forall k | k in t.bundles ensures BundleSound(t', k) && BundleAgrees(t', k) {
        assert BundleSound(t, k);
        LastHitFinds(BundleHit(k), Some(|view.chain| - 1), view.chain, |view.chain|);
      }
    }
  }

  /** Every row is queued at this height, and unmarked. */
  ghost predicate QueuedFrom(t: Tables, height: nat) {
    && (forall k | k in t.proposals :: t.proposals[k] == ProposalRow(Some(height), None))
    && (forall k | k in t.bundles :: t.bundles[k] == BundleRow(Some(height), None, None))
  }

  lemma StartQueues(t: Tables, view: View)
    requires AllSound(t)
    ensures t.policyTip.None? && view.chain != [] ==>
      AllAgree(Started(t, view)) && QueuedFrom(Started(t, view), |view.chain| - 1)
  {
    if t.policyTip.None? && view.chain != [] {
      forall k | k in t.proposals ensures t.proposals[k].minedIn.None? { assert ProposalSound(t, k); }
      forall k | k in t.bundles ensures t.bundles[k].settledIn.None? { assert BundleSound(t, k); }
      assert AllAgree(t);
      StartSound(t, view);
    }
  }

  lemma {:induction false} NothingAboveTip(hit: Hit, c: Chain, n: nat)
    requires c != [] && n <= |c|
    ensures LastHit(hit, Some(|c| - 1), c, n) == None
  {
    if n > 0 { NothingAboveTip(hit, c, n - 1); }
  }

  lemma SubmitSound(t: Tables, view: View, activation: nat, p: ProposalId, b: BundleKey)
    requires AllSound(t) && WellFormed(view, activation)
    ensures Proposed(t, view, activation, p).Ok? ==> AllSound(Proposed(t, view, activation, p).value)
    ensures Put(t, view, activation, b).Ok? ==> AllSound(Put(t, view, activation, b).value)
  {
    ReconcileSound(t, view, activation);
    var at := Reconciled(t, view, activation);
    RowAdded(at, view, p, b);
  }

  /** Adding or requeueing a row without a mark keeps the rest. */
  lemma RowAdded(at: Tables, view: View, p: ProposalId, b: BundleKey)
    requires AllSound(at)
    requires at.policyTip == Some(view.chain) || view.chain == []
    ensures AllSound(at.(proposals := at.proposals[p := ProposalRow(TipHeight(view), None)]))
    ensures AllSound(at.(bundles := at.bundles[b := BundleRow(TipHeight(view), None, None)]))
  {
    var t1 := at.(proposals := at.proposals[p := ProposalRow(TipHeight(view), None)]);
    var t2 := at.(bundles := at.bundles[b := BundleRow(TipHeight(view), None, None)]);
    forall k | k in t1.proposals ensures ProposalSound(t1, k) { assert k != p ==> ProposalSound(at, k); }
    forall k | k in t1.bundles ensures BundleSound(t1, k) { assert BundleSound(at, k); }
    forall k | k in t2.proposals ensures ProposalSound(t2, k) { assert ProposalSound(at, k); }
    forall k | k in t2.bundles ensures BundleSound(t2, k) { assert k != b ==> BundleSound(at, k); }
  }

  /** With no proviso: in every reachable database each mark is sound. */
  lemma {:induction false} RunSound(ops: seq<Op>, activation: nat)
    requires AllWellFormed(ops, activation)
    ensures AllSound(RunOps(ops, activation))
  {
    if ops != [] {
      var front, op := ops[..|ops| - 1], ops[|ops| - 1];
      RunSound(front, activation);
      StepSound(RunOps(front, activation), op, activation);
    }
  }

  lemma StepSound(t: Tables, op: Op, activation: nat)
    requires AllSound(t) && WellFormed(op.view, activation)
    ensures AllSound(Step(t, op, activation))
  {
    match op
    case Start(view) => StartSound(t, view);
    case Read(view) => ReconcileSound(t, view, activation);
    case Propose(view, k) => SubmitSound(t, view, activation, k, BundleKey(0, []));
    case Submit(view, k) => SubmitSound(t, view, activation, ProposalId(0, []), k);
  }

  // ----- Agreement with the whole chain

  /** No mark is lost, and a submission either has a tip to queue at or finds no
      cursor either. */
  ghost predicate Fine(t: Tables, op: Op) {
    && (!op.Start? ==> NothingLost(t, op.view))
    && (op.Propose? || op.Submit? ==> op.view.chain != [] || t.policyTip.None?)
  }

  lemma RowAddedAgrees(at: Tables, view: View, p: ProposalId, b: BundleKey)
    requires AllAgree(at)
    requires if view.chain == [] then at.policyTip.None? else at.policyTip == Some(view.chain)
    ensures AllAgree(at.(proposals := at.proposals[p := ProposalRow(TipHeight(view), None)]))
    ensures AllAgree(at.(bundles := at.bundles[b := BundleRow(TipHeight(view), None, None)]))
  {
    var t1 := at.(proposals := at.proposals[p := ProposalRow(TipHeight(view), None)]);
    var t2 := at.(bundles := at.bundles[b := BundleRow(TipHeight(view), None, None)]);
    if view.chain != [] {
      NothingAboveTip(ProposalHit(p), view.chain, |view.chain|);
      NothingAboveTip(BundleHit(b), view.chain, |view.chain|);
    }
    forall k | k in t1.proposals ensures ProposalAgrees(t1, k) { assert k != p ==> ProposalAgrees(at, k); }
    forall k | k in t1.bundles ensures BundleAgrees(t1, k) { assert BundleAgrees(at, k); }
    forall k | k in t2.proposals ensures ProposalAgrees(t2, k) { assert ProposalAgrees(at, k); }
    forall k | k in t2.bundles ensures BundleAgrees(t2, k) { assert k != b ==> BundleAgrees(at, k); }
  }

  lemma StepAgrees(t: Tables, op: Op, activation: nat)
    requires AllSound(t) && AllAgree(t) && WellFormed(op.view, activation) && Fine(t, op)
    ensures AllAgree(Step(t, op, activation))
  {
    var view := op.view;
    if op.Start? {
      StartSound(t, view);
    } else {
      if view.chain != [] { ReconcileAgrees(t, view, activation); }
      if !op.Read? {
        RowAddedAgrees(Reconciled(t, view, activation), view,
                       if op.Propose? then op.proposal else ProposalId(0, []), if op.Submit? then op.bundle
                           else BundleKey(0, []));
      }
    }
  }

  /** Every step of the run is fine. */
  ghost predicate AllFine(ops: seq<Op>, activation: nat) {
    ops == [] || (AllFine(ops[..|ops| - 1], activation) && Fine(RunOps(ops[..|ops| - 1], activation), ops[|ops| - 1]))
  }

  /** After every run of fine steps, each mark is what a scan of the cursor's
      whole chain gives. */
  lemma {:induction false} RunAgrees(ops: seq<Op>, activation: nat)
    requires AllWellFormed(ops, activation) && AllFine(ops, activation)
    ensures AllAgree(RunOps(ops, activation))
  {
    if ops != [] {
      var front, op := ops[..|ops| - 1], ops[|ops| - 1];
      RunAgrees(front, activation);
      RunSound(front, activation);
      StepAgrees(RunOps(front, activation), op, activation);
    }
  }

  /** What a submission decides: which rows there are, and where each is queued. */
  ghost predicate SameRows(a: Tables, b: Tables) {
    && a.proposals.Keys == b.proposals.Keys && a.bundles.Keys == b.bundles.Keys
    && (forall k | k in a.proposals :: a.proposals[k].queuedAt == b.proposals[k].queuedAt)
    && (forall k | k in a.bundles :: a.bundles[k].queuedAt == b.bundles[k].queuedAt)
  }

  /** Hence the path does not matter: two databases with the same rows and the
      same cursor have the same marks, however they got there. */
  lemma PathIndependent(ops1: seq<Op>, ops2: seq<Op>, activation: nat)
    requires AllWellFormed(ops1, activation) && AllFine(ops1, activation)
    requires AllWellFormed(ops2, activation) && AllFine(ops2, activation)
    requires SameRows(RunOps(ops1, activation), RunOps(ops2, activation))
    requires RunOps(ops1, activation).policyTip == RunOps(ops2, activation).policyTip
    ensures RunOps(ops1, activation) == RunOps(ops2, activation)
  {
    RunAgrees(ops1, activation);
    RunAgrees(ops2, activation);
    RunSound(ops1, activation);
    RunSound(ops2, activation);
    AgreementDecides(RunOps(ops1, activation), RunOps(ops2, activation));
  }

  lemma AgreementDecides(a: Tables, b: Tables)
    requires AllAgree(a) && AllAgree(b) && Coherent(a) && Coherent(b)
    requires SameRows(a, b) && a.policyTip == b.policyTip
    ensures a == b
  {
    forall k | k in a.proposals ensures a.proposals[k] == b.proposals[k] {
      assert ProposalAgrees(a, k) && ProposalAgrees(b, k);
      assert ProposalMark(a.proposals[k]) == ProposalMark(b.proposals[k]);
    }
    forall k | k in a.bundles ensures a.bundles[k] == b.bundles[k] {
      assert BundleAgrees(a, k) && BundleAgrees(b, k);
      BundleMarkKept(a.bundles[k]);
      BundleMarkKept(b.bundles[k]);
    }
    assert a.proposals == b.proposals;
    assert a.bundles == b.bundles;
  }

  // ----- When no mark is lost

  /** Each row has at most one matching block on the cursor's branch. */
  ghost predicate OnePerBranch(t: Tables) {
    && (forall k | k in t.proposals :: AtMostOne(ProposalHit(k), t.proposals[k].queuedAt, CursorChain(t)))
    && (forall k | k in t.bundles :: AtMostOne(BundleHit(k), t.bundles[k].queuedAt, CursorChain(t)))
  }

  lemma OnePerBranchKeeps(t: Tables, view: View)
    requires OnePerBranch(t)
    ensures NothingLost(t, view)
  {
    if view.chain != [] && !Rebuilds(t, view) {
      forall k | k in t.proposals ensures !Lost(ProposalHit(k), t.proposals[k].queuedAt, t.policyTip.value,
          view.chain) {
        AtMostOneKeeps(ProposalHit(k), t.proposals[k].queuedAt, t.policyTip.value, view.chain);
      }
      forall k | k in t.bundles ensures !Lost(BundleHit(k), t.bundles[k].queuedAt, t.policyTip.value, view.chain) {
        AtMostOneKeeps(BundleHit(k), t.bundles[k].queuedAt, t.policyTip.value, view.chain);
      }
    }
  }

  /** A step that disconnects nothing loses nothing. */
  lemma DisconnectFreeKeeps(t: Tables, view: View)
    requires |CursorChain(t)| <= |view.chain| && CursorChain(t) == view.chain[..|CursorChain(t)|]
    ensures NothingLost(t, view)
  {
    forall k | k in t.proposals ensures !Lost(ProposalHit(k), t.proposals[k].queuedAt, CursorChain(t), view.chain) {
      GrowthKeeps(ProposalHit(k), t.proposals[k].queuedAt, CursorChain(t), view.chain);
    }
    forall k | k in t.bundles ensures !Lost(BundleHit(k), t.bundles[k].queuedAt, CursorChain(t), view.chain) {
      GrowthKeeps(BundleHit(k), t.bundles[k].queuedAt, CursorChain(t), view.chain);
    }
  }

  // ----- Runs that lose nothing

  ghost predicate SubmitsWithTip(t: Tables, op: Op) {
    op.Propose? || op.Submit? ==> op.view.chain != [] || t.policyTip.None?
  }

  /** Before every step, each row has at most one matching block on the cursor's
      branch; submissions have a tip. */
  ghost predicate OneMatchRun(ops: seq<Op>, activation: nat) {
    ops == [] ||
    var front, t := ops[..|ops| - 1], RunOps(ops[..|ops| - 1], activation);
    OneMatchRun(front, activation) && OnePerBranch(t) && SubmitsWithTip(t, ops[|ops| - 1])
  }

  /** No step disconnects a block; submissions have a tip. */
  ghost predicate GrowingRun(ops: seq<Op>, activation: nat) {
    ops == [] ||
    var front, t, op := ops[..|ops| - 1], RunOps(ops[..|ops| - 1], activation), ops[|ops| - 1];
    && GrowingRun(front, activation) && SubmitsWithTip(t, op)
    && (op.view.chain == [] || (|CursorChain(t)| <= |op.view.chain|
        && CursorChain(t) == op.view.chain[..|CursorChain(t)|]))
  }

  lemma {:induction false} OneMatchIsFine(ops: seq<Op>, activation: nat)
    requires OneMatchRun(ops, activation)
    ensures AllFine(ops, activation)
  {
    if ops != [] {
      OneMatchIsFine(ops[..|ops| - 1], activation);
      OnePerBranchKeeps(RunOps(ops[..|ops| - 1], activation), ops[|ops| - 1].view);
    }
  }

  lemma {:induction false} GrowingIsFine(ops: seq<Op>, activation: nat)
    requires GrowingRun(ops, activation)
    ensures AllFine(ops, activation)
  {
    if ops != [] {
      GrowingIsFine(ops[..|ops| - 1], activation);
      if ops[|ops| - 1].view.chain != [] { DisconnectFreeKeeps(RunOps(ops[..|ops| - 1], activation),
          ops[|ops| - 1].view); }
    }
  }

  /** Over every run of reorgs, rebuilds, reads and submissions in which a row has
      at most one matching block per branch, the marks are those of a rebuild from
      the whole current chain. */
  lemma OneMatchRunAgrees(ops: seq<Op>, activation: nat)
    requires AllWellFormed(ops, activation) && OneMatchRun(ops, activation)
    ensures AllAgree(RunOps(ops, activation))
  {
    OneMatchIsFine(ops, activation);
    RunAgrees(ops, activation);
  }

  /** On every run that disconnects nothing, the incremental marks are those of a
      rebuild, however often a row matches. */
  lemma GrowingRunAgrees(ops: seq<Op>, activation: nat)
    requires AllWellFormed(ops, activation) && GrowingRun(ops, activation)
    ensures AllAgree(RunOps(ops, activation))
  {
    GrowingIsFine(ops, activation);
    RunAgrees(ops, activation);
  }

  // ----- Refusing paid bundles

  lemma RefusedIfAgrees(t: Tables, view: View, activation: nat, k: BundleKey)
    requires AllSound(t) && AllAgree(t) && WellFormed(view, activation) && view.chain != [] && NothingLost(t, view)
    requires OnePerBranch(Reconciled(t, view, activation))
    ensures Put(t, view, activation, k).Err? <==>
      k in t.bundles && exists i | 0 <= i < |view.chain| ::
        Above(t.bundles[k].queuedAt, i) && BundleHit(k)(view.chain[i]) == Some(true)
  {
    var at := Reconciled(t, view, activation);
    ReconcileAgrees(t, view, activation);
    ReconcileSound(t, view, activation);
    assert at.policyTip == Some(view.chain);
    if k in t.bundles {
      assert BundleAgrees(at, k) && at.bundles[k].queuedAt == t.bundles[k].queuedAt;
      ScanDecides(BundleHit(k), t.bundles[k].queuedAt, view.chain, true);
      assert at.bundles[k].paidOut == Some(true) <==> at.bundles[k].paidOut.Some? && at.bundles[k].paidOut.value;
    }
  }

  /** After every run with one match per branch, a bundle is refused exactly when
      this node queued it and the validator's chain pays it out above the height it
      was queued at. */
  lemma RefusedExactlyWhenPaid(ops: seq<Op>, view: View, activation: nat, k: BundleKey)
    requires AllWellFormed(ops, activation) && WellFormed(view, activation) && view.chain != []
    requires OneMatchRun(ops + [Submit(view, k)], activation)
    requires OnePerBranch(Reconciled(RunOps(ops, activation), view, activation))
    ensures var t := RunOps(ops, activation);
      Put(t, view, activation, k).Err? <==>
        k in t.bundles && exists i | 0 <= i < |view.chain| ::
          Above(t.bundles[k].queuedAt, i) && BundleHit(k)(view.chain[i]) == Some(true)
  {
    assert (ops + [Submit(view, k)])[..|ops|] == ops;
    OneMatchRunAgrees(ops, activation);
    RunSound(ops, activation);
    OnePerBranchKeeps(RunOps(ops, activation), view);
    RefusedIfAgrees(RunOps(ops, activation), view, activation, k);
  }
}
