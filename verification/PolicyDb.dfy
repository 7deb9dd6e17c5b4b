/** The block producer's policy database: proposals and bundles that this node
    submitted, marked with the blocks that mined or settled them, and a cursor
    that follows the chain through reorgs. */
module PolicyDb {
  import opened Prelude
  import opened Ledger
  import opened PolicyMarks

  datatype ProposalRow = ProposalRow(queuedAt: Option<nat>, minedIn: Option<BlockId>)

  datatype BundleRow = BundleRow(queuedAt: Option<nat>, settledIn: Option<BlockId>, paidOut: Option<bool>)

  type Proposals = map<ProposalId, ProposalRow>
  type Bundles = map<BundleKey, BundleRow>

  datatype Tables = Tables(proposals: Proposals, bundles: Bundles, policyTip: Option<BlockId>)

  /** The validator as the producer sees it: its chain, empty if it has no tip,
      and the blocks whose headers it has. */
  datatype View = View(chain: Chain, known: set<BlockId>)

  /** The tip's header is known, and blocks below the activation height say
      nothing. */
  predicate WellFormed(view: View, activation: nat) {
    && (view.chain != [] ==> view.chain in view.known)
    && (forall i | 0 <= i < |view.chain| && i < activation ::
        view.chain[i].proposals == [] && view.chain[i].bundles == [])
  }

  function TipHeight(view: View): Option<nat> {
    if view.chain == [] then None else Some(|view.chain| - 1)
  }

  // ----- What a block says

  function ProposalHit(k: ProposalId): Hit {
    (b: BlockInfo) => if k in b.proposals then Some(false) else None
  }

  /** The last settlement of a bundle among the first `n` events. */
  function SettledBy(k: BundleKey, events: seq<BundleEvent>, n: nat): Option<bool>
    requires n <= |events|
  {
    if n == 0 then None
    else if events[n - 1].key == k && events[n - 1].kind != Submitted then Some(events[n - 1].kind == Succeeded)
    else SettledBy(k, events, n - 1)
  }

  function BundleHit(k: BundleKey): Hit {
    (b: BlockInfo) => SettledBy(k, b.bundles, |b.bundles|)
  }

  // ----- Marks in rows

  function ProposalMark(row: ProposalRow): Mark {
    match row.minedIn case None => None case Some(block) => Some((block, false))
  }

  function SetProposalMark(row: ProposalRow, mark: Mark): ProposalRow {
    row.(minedIn := match mark case None => None case Some((block, _)) => Some(block))
  }

  function BundleMark(row: BundleRow): Mark {
    match row.settledIn
    case None => None
    case Some(block) => Some((block, row.paidOut.Some? && row.paidOut.value))
  }

  function SetBundleMark(row: BundleRow, mark: Mark): BundleRow {
    match mark
    case None => row.(settledIn := None, paidOut := None)
    case Some((block, paid)) => row.(settledIn := Some(block), paidOut := Some(paid))
  }

  ghost predicate CoherentRows(rows: Bundles) {
    forall k | k in rows :: rows[k].settledIn.Some? <==> rows[k].paidOut.Some?
  }

  /** `paid_out` is set exactly when `settled_in` is. */
  ghost predicate Coherent(t: Tables) {
    CoherentRows(t.bundles)
  }

  // ----- The statements that reconciling executes

  function ClearProposals(rows: Proposals, block: BlockId): Proposals {
    map k | k in rows :: if rows[k].minedIn == Some(block) then rows[k].(minedIn := None) else rows[k]
  }

  function ClearBundles(rows: Bundles, block: BlockId): Bundles {
    map k | k in rows :: if rows[k].settledIn == Some(block) then rows[k].(settledIn := None, paidOut := None)
        else rows[k]
  }

  function MarkProposal(rows: Proposals, k: ProposalId, block: BlockId, height: nat): Proposals {
    if k in rows && Above(rows[k].queuedAt, height) then rows[k := rows[k].(minedIn := Some(block))] else rows
  }

  function MarkBundle(rows: Bundles, k: BundleKey, block: BlockId, height: nat, paid: bool): Bundles {
    if k in rows && Above(rows[k].queuedAt, height)
    then rows[k := rows[k].(settledIn := Some(block), paidOut := Some(paid))] else rows
  }

  // ----- What reconciling must produce, row by row

  /** The mark a row ends up with. Without a usable cursor all marks are dropped
      and rebuilt from the activation height. */
  function NewMark(hit: Hit, q: Option<nat>, tip: Option<BlockId>, view: View, activation: nat, mark: Mark): Mark {
    if tip.Some? && tip.value in view.known then Moved(hit, q, tip.value, view.chain, mark)
    else Through(hit, q, view.chain, |view.chain| - SatSub(|view.chain|, activation), |view.chain|, None)
  }

  function NewProposalRow(k: ProposalId, row: ProposalRow, tip: Option<BlockId>, view: View, activation: nat)
    : ProposalRow {
    SetProposalMark(row, NewMark(ProposalHit(k), row.queuedAt, tip, view, activation, ProposalMark(row)))
  }

  function NewBundleRow(k: BundleKey, row: BundleRow, tip: Option<BlockId>, view: View, activation: nat): BundleRow {
    SetBundleMark(row, NewMark(BundleHit(k), row.queuedAt, tip, view, activation, BundleMark(row)))
  }

  function Reconciled(t: Tables, view: View, activation: nat): Tables {
    if view.chain == [] || t.policyTip == Some(view.chain) then t else
    Tables(map k | k in t.proposals :: NewProposalRow(k, t.proposals[k], t.policyTip, view, activation),
           map k | k in t.bundles :: NewBundleRow(k, t.bundles[k], t.policyTip, view, activation),
           Some(view.chain))
  }

  // ----- Loop specifications

  function ClearedProposals(rows: Proposals, was: Chain, i: nat): Proposals
    requires i <= |was|
  {
    map k | k in rows :: SetProposalMark(rows[k], Cleared(ProposalMark(rows[k]), was, i))
  }

  function ClearedBundles(rows: Bundles, was: Chain, i: nat): Bundles
    requires i <= |was|
  {
    map k | k in rows :: SetBundleMark(rows[k], Cleared(BundleMark(rows[k]), was, i))
  }

  function ThroughProposals(rows: Proposals, c: Chain, lo: nat, n: nat): Proposals
    requires lo <= n <= |c|
  {
    map k | k in rows :: SetProposalMark(rows[k],
        Through(ProposalHit(k), rows[k].queuedAt, c, lo, n, ProposalMark(rows[k])))
  }

  function ThroughBundles(rows: Bundles, c: Chain, lo: nat, n: nat): Bundles
    requires lo <= n <= |c|
  {
    map k | k in rows :: SetBundleMark(rows[k], Through(BundleHit(k), rows[k].queuedAt, c, lo, n, BundleMark(rows[k])))
  }

  /** The first `j` proposals of one block are marked. */
  function PartlyMarkedProposals(rows: Proposals, b: BlockInfo, j: nat, block: BlockId, height: nat): Proposals
    requires j <= |b.proposals|
  {
    map k | k in rows ::
      if k in b.proposals[..j] && Above(rows[k].queuedAt, height) then rows[k].(minedIn := Some(block)) else rows[k]
  }

  function PartlyMarkedBundles(rows: Bundles, b: BlockInfo, j: nat, block: BlockId, height: nat): Bundles
    requires j <= |b.bundles|
  {
    map k | k in rows ::
      if SettledBy(k, b.bundles, j).Some? && Above(rows[k].queuedAt, height)
      then rows[k].(settledIn := Some(block), paidOut := SettledBy(k, b.bundles, j)) else rows[k]
  }

  lemma ClearedStep(p: Proposals, b: Bundles, was: Chain, i: nat)
    requires 0 < i <= |was|
    ensures ClearProposals(ClearedProposals(p, was, i), was[..i]) == ClearedProposals(p, was, i - 1)
    ensures ClearBundles(ClearedBundles(b, was, i), was[..i]) == ClearedBundles(b, was, i - 1)
  {
  }

  lemma ClearedNone(p: Proposals, b: Bundles, was: Chain)
    requires CoherentRows(b)
    ensures ClearedProposals(p, was, |was|) == p && ClearedBundles(b, was, |was|) == b
  {
    forall k | k in b ensures SetBundleMark(b[k], BundleMark(b[k])) == b[k] { BundleMarkKept(b[k]); }
  }

  lemma BundleMarkKept(row: BundleRow)
    requires row.settledIn.Some? <==> row.paidOut.Some?
    ensures SetBundleMark(row, BundleMark(row)) == row
  {
  }

  lemma ThroughNone(p: Proposals, b: Bundles, c: Chain, lo: nat)
    requires CoherentRows(b) && lo <= |c|
    ensures ThroughProposals(p, c, lo, lo) == p && ThroughBundles(b, c, lo, lo) == b
  {
    forall k | k in b ensures SetBundleMark(b[k], BundleMark(b[k])) == b[k] { BundleMarkKept(b[k]); }
  }

  lemma ProposalStep(rows: Proposals, b: BlockInfo, j: nat, block: BlockId, height: nat)
    requires j < |b.proposals|
    ensures MarkProposal(PartlyMarkedProposals(rows, b, j, block, height), b.proposals[j], block, height)
         == PartlyMarkedProposals(rows, b, j + 1, block, height)
  {
    assert b.proposals[..j + 1] == b.proposals[..j] + [b.proposals[j]];
  }

  lemma BundleStep(rows: Bundles, b: BlockInfo, j: nat, block: BlockId, height: nat)
    requires j < |b.bundles|
    ensures var e := b.bundles[j];
      var before := PartlyMarkedBundles(rows, b, j, block, height);
      (if e.kind == Submitted then before else MarkBundle(before, e.key, block, height, e.kind == Succeeded))
      == PartlyMarkedBundles(rows, b, j + 1, block, height)
  {
  }

  /** A whole block is one step through the chain. */
  lemma BlockStep(p: Proposals, b: Bundles, c: Chain, lo: nat, n: nat)
    requires lo <= n < |c|
    ensures PartlyMarkedProposals(ThroughProposals(p, c, lo, n), c[n], |c[n].proposals|, c[..n + 1], n)
        == ThroughProposals(p, c, lo, n + 1)
    ensures PartlyMarkedBundles(ThroughBundles(b, c, lo, n), c[n], |c[n].bundles|, c[..n + 1], n)
        == ThroughBundles(b, c, lo, n + 1)
  {
    assert c[n].proposals[..|c[n].proposals|] == c[n].proposals;
  }

  lemma PartlyNone(p: Proposals, b: Bundles, info: BlockInfo, block: BlockId, height: nat)
    ensures PartlyMarkedProposals(p, info, 0, block, height) == p
    ensures PartlyMarkedBundles(b, info, 0, block, height) == b
  {
  }

  function Unmarked(t: Tables): Tables {
    t.(proposals := map k | k in t.proposals :: t.proposals[k].(minedIn := None),
       bundles := map k | k in t.bundles :: t.bundles[k].(settledIn := None, paidOut := None))
  }

  /** Clearing and then connecting moves every row. */
  lemma MovedRows(t: Tables, view: View, activation: nat, was: Chain)
    requires view.chain != [] && t.policyTip == Some(was) && was != view.chain && was in view.known
    ensures var fork := Shared(was, view.chain);
      && ThroughProposals(ClearedProposals(t.proposals, was, fork), view.chain, fork, |view.chain|)
          == Reconciled(t, view, activation).proposals
      && ThroughBundles(ClearedBundles(t.bundles, was, fork), view.chain, fork, |view.chain|)
          == Reconciled(t, view, activation).bundles
  {
    var c, fork := view.chain, Shared(was, view.chain);
    forall k | k in t.proposals
      ensures var row := SetProposalMark(t.proposals[k], Cleared(ProposalMark(t.proposals[k]), was, fork));
        SetProposalMark(row, Through(ProposalHit(k), row.queuedAt, c, fork, |c|, ProposalMark(row)))
        == NewProposalRow(k, t.proposals[k], Some(was), view, activation)
    {
    }
    forall k | k in t.bundles
      ensures var row := SetBundleMark(t.bundles[k], Cleared(BundleMark(t.bundles[k]), was, fork));
        SetBundleMark(row, Through(BundleHit(k), row.queuedAt, c, fork, |c|, BundleMark(row)))
        == NewBundleRow(k, t.bundles[k], Some(was), view, activation)
    {
    }
  }

  /** Dropping all marks and connecting from the activation height rebuilds
      every row. */
  lemma RebuiltRows(t: Tables, view: View, activation: nat)
    requires view.chain != [] && t.policyTip != Some(view.chain)
    requires t.policyTip.None? || t.policyTip.value !in view.known
    ensures var lo := |view.chain| - SatSub(|view.chain|, activation);
      && ThroughProposals(Unmarked(t).proposals, view.chain, lo, |view.chain|)
          == Reconciled(t, view, activation).proposals
      && ThroughBundles(Unmarked(t).bundles, view.chain, lo, |view.chain|) == Reconciled(t, view, activation).bundles
  {
  }

  /** Brings the marks in line with the validator's chain. */
  method Reconcile(t: Tables, view: View, activation: nat) returns (t': Tables, tipHeight: Option<nat>)
    requires Coherent(t)
    ensures t' == Reconciled(t, view, activation) && tipHeight == TipHeight(view)
  {
    if view.chain == [] { return t, None; }
    var c := view.chain;
    tipHeight := Some(|c| - 1);
    if t.policyTip == Some(c) { return t, tipHeight; }
    var proposals, bundles := t.proposals, t.bundles;
    var first: nat;
    if t.policyTip.Some? && t.policyTip.value in view.known {
      var was := t.policyTip.value;
      MovedRows(t, view, activation, was);
      first := LastCommonAncestor(was, c);
      proposals, bundles := DisconnectAll(proposals, bundles, was, first);
    } else {
      RebuiltRows(t, view, activation);
      first := |c| - SatSub(|c|, activation);
      proposals, bundles := Unmarked(t).proposals, Unmarked(t).bundles;
    }
    proposals, bundles := ConnectAll(proposals, bundles, c, first);
    t' := Tables(proposals, bundles, Some(c));
  }

  /** Clears the marks of the blocks of `was` down to its first `fork` ones. */
  method DisconnectAll(p: Proposals, b: Bundles, was: Chain, fork: nat) returns (proposals: Proposals, bundles: Bundles)
    requires fork <= |was| && CoherentRows(b)
    ensures proposals == ClearedProposals(p, was, fork) && bundles == ClearedBundles(b, was, fork)
  {
    proposals, bundles := p, b;
    ClearedNone(p, b, was);
    for i := |was| downto fork
      invariant proposals == ClearedProposals(p, was, i) && bundles == ClearedBundles(b, was, i)
    {
      ClearedStep(p, b, was, i + 1);
      proposals := ClearProposals(proposals, was[..i + 1]);
      bundles := ClearBundles(bundles, was[..i + 1]);
    }
  }

  /** Marks what the blocks from height `first` on say, in order. */
  method ConnectAll(p: Proposals, b: Bundles, c: Chain, first: nat) returns (proposals: Proposals, bundles: Bundles)
    requires first <= |c| && CoherentRows(b)
    ensures proposals == ThroughProposals(p, c, first, |c|) && bundles == ThroughBundles(b, c, first, |c|)
  {
    proposals, bundles := p, b;
    ThroughNone(p, b, c, first);
    for n := first to |c|
      invariant proposals == ThroughProposals(p, c, first, n) && bundles == ThroughBundles(b, c, first, n)
    {
      BlockStep(p, b, c, first, n);
      proposals, bundles := ConnectOne(proposals, bundles, c[n], c[..n + 1], n);
    }
  }

  method ConnectOne(p: Proposals, b: Bundles, info: BlockInfo, block: BlockId, height: nat)
    returns (proposals: Proposals, bundles: Bundles)
    ensures proposals == PartlyMarkedProposals(p, info, |info.proposals|, block, height)
    ensures bundles == PartlyMarkedBundles(b, info, |info.bundles|, block, height)
  {
    proposals, bundles := p, b;
    PartlyNone(p, b, info, block, height);
    for j := 0 to |info.proposals|
      invariant proposals == PartlyMarkedProposals(p, info, j, block, height)
    {
      ProposalStep(p, info, j, block, height);
      proposals := MarkProposal(proposals, info.proposals[j], block, height);
    }
    for j := 0 to |info.bundles|
      invariant bundles == PartlyMarkedBundles(b, info, j, block, height)
    {
      BundleStep(b, info, j, block, height);
      var e := info.bundles[j];
      if e.kind != Submitted {
        bundles := MarkBundle(bundles, e.key, block, height, e.kind == Succeeded);
      }
    }
  }
}
