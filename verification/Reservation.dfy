/** What a template reserves for the suffix, in the terms of the code: a suffix on
    made-up treasuries, and an allowance for every transaction of the prefix that
    has treasury outputs. It is enough for the suffix that is built on what the
    prefix leaves. */
module Reservation {
  import opened Prelude
  import opened Runs
  import opened Script
  import opened Transactions
  import opened Ledger
  import opened Validator
  import opened TreasuryTxs
  import opened Accounting
  import opened Blocks
  import opened Suffix
  import SuffixAccepted
  import opened SuffixRun
  import opened SuffixWeight

  const MAX_MONEY: nat := 2_100_000_000_000_000

  /** One treasury per slot, each as rich as a treasury can be. */
  function FakeCtips(): Ctips {
    Ctips(map s | s in SlotsBelow(SLOT_COUNT) :: Ctip(OutPoint(seq(32, _ => s), 0), MAX_MONEY), map[])
  }

  lemma FakePurse(s: Slot)
    ensures PurseOf(FakeCtips(), s).ctip.Some? && PurseOf(FakeCtips(), s).waiting == []
    ensures PurseValue(PurseOf(FakeCtips(), s)) == MAX_MONEY
  {
    OneCoin(PurseOf(FakeCtips(), s).ctip.value);
  }

  // ----- What the prefix adds to the weight

  predicate IsTreasuryOutput(op: Byte, o: TxOut) {
    ParseTreasuryScript(op, o.script).Some?
  }

  /** The treasury outputs among the first `n`, whether their slot is active or
      not. */
  function TreasuryOutputs(op: Byte, outputs: seq<TxOut>, n: nat): nat
    requires n <= |outputs|
  {
    if n == 0 then 0 else TreasuryOutputs(op, outputs, n - 1) + if IsTreasuryOutput(op, outputs[n - 1]) then 1 else 0
  }

  function TreasuryOutputCount(op: Byte): Transaction -> nat {
    (tx: Transaction) => TreasuryOutputs(op, tx.outputs, |tx.outputs|)
  }

  /** What accepting a transaction reserves for consolidating its deposits. */
  function WeightTweak(op: Byte): Transaction -> nat {
    (tx: Transaction) =>
      var n := TreasuryOutputs(op, tx.outputs, |tx.outputs|);
      if n == 0 then 0 else ConsolidationTxWeight(n)
  }

  lemma {:induction false} TweaksCover(op: Byte, txs: seq<Transaction>)
    ensures var n := SumSeq(TreasuryOutputCount(op), txs);
      SumSeq(WeightTweak(op), txs) >= 380 * n + if n > 0 then 72 else 0
  {
    if txs != [] { TweaksCover(op, txs[..|txs| - 1]); }
  }

  // ----- How many deposits the prefix leaves

  function TreasuryVouts(op: Byte, outputs: seq<TxOut>, n: nat): (vs: set<nat>)
    requires n <= |outputs|
    ensures |vs| == TreasuryOutputs(op, outputs, n)
    ensures forall v: nat :: v in vs <==> v < n && IsTreasuryOutput(op, outputs[v])
  {
    if n == 0 then {} else
    TreasuryVouts(op, outputs, n - 1) + if IsTreasuryOutput(op, outputs[n - 1]) then {n - 1} else {}
  }

  lemma {:induction false} AtMostAsMany(keys: set<OutPoint>, vs: set<nat>, txid: Txid)
    requires forall o | o in keys :: o.txid == txid && o.vout in vs
    ensures |keys| <= |vs|
  {
    if keys != {} {
      var o :| o in keys;
      forall o' | o' in keys - {o} ensures o'.vout in vs - {o.vout} {
        assert o'.vout != o.vout;
      }
      AtMostAsMany(keys - {o}, vs - {o.vout}, txid);
    }
  }

  /** A transaction makes at most one waiting deposit per treasury output. */
  lemma WaitingAtMost(p: Params, st: State, tx: Transaction, ios: map<Slot, SlotIo>)
    ensures |Waiting(p, st, tx, ios).Keys| <= TreasuryOutputs(p.op, tx.outputs, |tx.outputs|)
  {
    var vs := TreasuryVouts(p.op, tx.outputs, |tx.outputs|);
    forall o | o in Waiting(p, st, tx, ios).Keys ensures o.txid == p.txid(tx) && o.vout in vs {
      assert WaitsAt(p, st, tx, ios, o.vout).Some?;
    }
    AtMostAsMany(Waiting(p, st, tx, ios).Keys, vs, p.txid(tx));
  }

  lemma UnionAtMost(a: Unconsolidated, gone: set<OutPoint>, b: Unconsolidated)
    ensures |((a - gone) + b).Keys| <= |a.Keys| + |b.Keys|
  {
    SubsetAtMost(((a - gone) + b).Keys, a.Keys + b.Keys);
    UnionSize(a.Keys, b.Keys);
  }

  lemma UnionSize(a: set<OutPoint>, b: set<OutPoint>)
    ensures |a + b| <= |a| + |b|
  {
    assert a + b == a + (b - a);
    SubsetAtMost(b - a, b);
  }

  lemma {:induction false} SubsetAtMost(a: set<OutPoint>, b: set<OutPoint>)
    requires a <= b
    ensures |a| <= |b|
  {
    if a != {} {
      var o :| o in a;
      SubsetAtMost(a - {o}, b - {o});
    }
  }

  lemma StepAddsAtMost(p: Params, accepted: map<Slot, Bytes>, parent: Bytes, at: TxProgress, tx: Transaction)
    requires TxStep(p, accepted, parent, at, tx).Ok?
    ensures |TxStep(p, accepted, parent, at, tx).value.uncon.Keys| <= |at.uncon.Keys| + TreasuryOutputCount(p.op)(tx)
  {
    OutcomeAddsAtMost(p, at.st, at.uncon, tx);
  }

  lemma OutcomeAddsAtMost(p: Params, st: State, uncon: Unconsolidated, tx: Transaction)
    requires HandleTreasuryTx(p, st, uncon, tx).Ok?
    ensures |HandleTreasuryTx(p, st, uncon, tx).value.uncon.Keys| <= |uncon.Keys| + TreasuryOutputCount(p.op)(tx)
  {
    OutcomeExplained(p, st, uncon, tx);
    var ios := FillCtips(p, st, uncon, tx).value;
    WaitingAtMost(p, st, tx, ios);
    UnionAtMost(uncon, SpentUnconsolidated(ios), Waiting(p, st, tx, ios));
  }

  lemma RunAddsAtMost(p: Params, accepted: map<Slot, Bytes>, parent: Bytes, start: TxProgress, txs: seq<Transaction>,
                      end: TxProgress)
    requires start.uncon == map[] && RunsTo(TxStepper(p, accepted, parent), start, txs, end)
    ensures |end.uncon.Keys| <= SumSeq(TreasuryOutputCount(p.op), txs)
  {
    var step, count := TxStepper(p, accepted, parent), TreasuryOutputCount(p.op);
    var waiting := (b: TxProgress) => |b.uncon.Keys|;
    forall b, tx | step(b, tx).Ok? ensures waiting(step(b, tx).value) <= waiting(b) + count(tx) {
      StepAddsAtMost(p, accepted, parent, b, tx);
    }
    RunCosts(step, start, txs, |txs|, waiting, count);
    assert txs[..|txs|] == txs && waiting(start) == 0;
  }

  // ----- The producer sees the same deposits

  function SlotPart(uncon: Unconsolidated, n: nat): set<OutPoint> {
    set o | o in uncon && uncon[o].0 < n
  }

  lemma {:induction false} DistinctSize(waiting: seq<Ctip>)
    requires DistinctOutpoints(waiting)
    ensures |Outpoints(waiting)| == |waiting|
  {
    if waiting == [] {
      assert Outpoints(waiting) == {};
    } else {
      var n := |waiting| - 1;
      DistinctSize(waiting[..n]);
      assert waiting == waiting[..n] + [waiting[n]];
      assert Outpoints(waiting) == Outpoints(waiting[..n]) + {waiting[n].outpoint};
      assert waiting[n].outpoint !in Outpoints(waiting[..n]);
    }
  }

  lemma NextSlot(st: State, uncon: Unconsolidated, ctips: Ctips, s: Slot)
    requires Mirror(st, uncon, ctips)
    ensures |SlotPart(uncon, s)| + |PurseOf(ctips, s).waiting| <= |SlotPart(uncon, s + 1)|
  {
    var waiting := PurseOf(ctips, s).waiting;
    assert MirrorsWaiting(uncon, s, waiting);
    DistinctSize(waiting);
    assert forall o | o in Outpoints(waiting) :: o in uncon && uncon[o].0 == s;
    assert SlotPart(uncon, s) !! Outpoints(waiting);
    SubsetAtMost(SlotPart(uncon, s) + Outpoints(waiting), SlotPart(uncon, s + 1));
  }

  lemma {:induction false} DepositsBelow(uncon: Unconsolidated, count: Slot -> nat, n: nat)
    requires n <= 256 && forall s: Slot :: |SlotPart(uncon, s)| + count(s) <= |SlotPart(uncon, s + 1)|
    ensures SumBelow(Everywhere(count), n) <= |SlotPart(uncon, n)|
  {
    if n > 0 {
      DepositsBelow(uncon, count, n - 1);
      var s: Slot := n - 1;
      assert |SlotPart(uncon, s)| + count(s) <= |SlotPart(uncon, s + 1)|;
    }
  }

  lemma DepositsAtMost(st: State, uncon: Unconsolidated, ctips: Ctips)
    requires Mirror(st, uncon, ctips)
    ensures AllDeposits(ctips) <= |uncon.Keys|
  {
    var count := DepositCount(ctips);
    forall s: Slot ensures |SlotPart(uncon, s)| + count(s) <= |SlotPart(uncon, s + 1)| {
        NextSlot(st, uncon, ctips, s); }
    DepositsBelow(uncon, count, SLOT_COUNT);
    SubsetAtMost(SlotPart(uncon, SLOT_COUNT), uncon.Keys);
  }

  // ----- The reservation

  /** A bundle that is no longer pending with enough votes is not paid. */
  function StillPayable(p: Params, st: State, slot: Slot, c: Candidate): Candidate {
    if slot in st.pending &&
      exists i | 0 <= i < |st.pending[slot]| ::
        st.pending[slot][i].m6id == p.txid(c.bundle.tx) && st.pending[slot][i].votes > p.bundleThreshold
    then c else c.(votes := None)
  }

  /** The bundles that can be paid once the prefix has been applied. */
  function FilterPayable(p: Params, st: State, proposals: Proposals): Proposals {
    map s | s in proposals ::
      seq(|proposals[s]|, i requires 0 <= i < |proposals[s]| => StillPayable(p, st, s, proposals[s][i]))
  }

  /** What the filter leaves is ready to be paid. */
  lemma FilterReady(p: Params, st: State, slot: Slot, proposals: Proposals)
    requires slot in proposals && slot in st.active && slot in st.pending && DistinctIds(st.pending[slot])
    requires forall c | c in proposals[slot] :: SuffixAccepted.Recognisable(p, st, c.bundle)
    requires forall i, j | 0 <= i < j < |proposals[slot]| ::
      p.txid(proposals[slot][i].bundle.tx) != p.txid(proposals[slot][j].bundle.tx)
    ensures Ready(p, st, slot, FilterPayable(p, st, proposals)[slot], 0)
  {
    var cands := FilterPayable(p, st, proposals)[slot];
    forall i | 0 <= i < |cands| && Suffix.Approved(p, cands[i])
      ensures SuffixAccepted.Recognisable(p, st, cands[i].bundle) && HasVotes(p, st, slot, cands[i].bundle)
    {
      assert proposals[slot][i] in proposals[slot] && cands[i] == proposals[slot][i];
      var k: nat :| 0 <= k < |st.pending[slot]|
        && st.pending[slot][k].m6id == p.txid(cands[i].bundle.tx) && st.pending[slot][k].votes > p.bundleThreshold;
      assert SuffixAccepted.VotedAt(p, st, slot, cands[i].bundle, k);
    }
  }

  lemma FilterReservesOn(p: Params, st: State, proposals: Proposals, rich: Ctips)
    requires forall s | s in proposals ::
      && PurseOf(rich, s).ctip.Some? && PurseOf(rich, s).waiting == []
      && ApprovedValue(p, proposals[s], |proposals[s]|) <= PurseValue(PurseOf(rich, s))
    ensures Reserves(p, FilterPayable(p, st, proposals), proposals, rich)
  {
    forall s | s in proposals ensures Filtered(p, FilterPayable(p, st, proposals)[s], proposals[s]) {
      FilterFilters(p, st, s, proposals[s]);
    }
  }

  lemma FilterFilters(p: Params, st: State, s: Slot, cands: seq<Candidate>)
    ensures Filtered(p, seq(|cands|, i requires 0 <= i < |cands| => StillPayable(p, st, s, cands[i])), cands)
  {
  }

  lemma FilterReserves(p: Params, st: State, proposals: Proposals)
    requires forall s | s in proposals :: ApprovedValue(p, proposals[s], |proposals[s]|) <= MAX_MONEY
    ensures Reserves(p, FilterPayable(p, st, proposals), proposals, FakeCtips())
  {
    var rich := FakeCtips();
    forall s | s in proposals
      ensures PurseOf(rich, s).ctip.Some? && PurseOf(rich, s).waiting == []
      ensures ApprovedValue(p, proposals[s], |proposals[s]|) <= PurseValue(PurseOf(rich, s))
    {
      FakePurse(s);
    }
    FilterReservesOn(p, st, proposals, rich);
  }

  /** The suffix weighs no more than the suffix on the made-up treasuries and the
      tweaks of the prefix transactions together, for any prefix that the validator
      accepts, any number of deposits, treasuries and bundles, and every order of
      the sidechains, as long as no sidechain's approved bundles exceed the money
      supply. */
  lemma SuffixFits(p: Params, accepted: map<Slot, Bytes>, parent: Bytes, start: TxProgress, txs: seq<Transaction>,
                   at: TxProgress,
                   proposals: Proposals, ctips: Ctips, order: seq<Slot>, rest: seq<Slot>, order': seq<Slot>)
    requires start.uncon == map[] && RunsTo(TxStepper(p, accepted, parent), start, txs, at)
    requires Mirror(at.st, at.uncon, ctips)
    requires forall s | s in proposals :: ApprovedValue(p, proposals[s], |proposals[s]|) <= MAX_MONEY
    requires Lists(order, proposals.Keys) && Lists(order', proposals.Keys)
    requires Lists(rest, Leftover(Left(p, FilterPayable(p, at.st, proposals), ctips)))
    ensures TxsWeight(SuffixOf(p, FilterPayable(p, at.st, proposals), ctips, order, rest))
         <= TxsWeight(SuffixOf(p, proposals, FakeCtips(), order', [])) + SumSeq(WeightTweak(p.op), txs)
  {
    var actual := FilterPayable(p, at.st, proposals);
    FilterReserves(p, at.st, proposals);
    WithinDeposits(p, actual, proposals, ctips, FakeCtips(), order, rest, order');
    SuffixWeightIs(p, proposals, FakeCtips(), order', []);
    RunAddsAtMost(p, accepted, parent, start, txs, at);
    DepositsAtMost(at.st, at.uncon, ctips);
    TweaksCover(p.op, txs);
  }
}
