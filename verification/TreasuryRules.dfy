/** Exactly which transactions the treasury rules accept, said without the steps
    that check them. */
module TreasuryRules {
  import opened Prelude
  import opened Script
  import opened Transactions
  import opened Treasury
  import opened Ledger
  import opened Validator
  import opened TreasuryTxs
  import opened Accounting
  import BlindedM6

  // ----- Outputs and inputs

  /** Output `v` is a treasury output of the active slot `s`. */
  predicate TreasuryOutput(p: Params, st: State, tx: Transaction, v: nat, s: Slot) {
    s in st.active && v < |tx.outputs| && tx.outputs[v].script == TreasuryScript(p.op, s)
  }

  ghost predicate OneOutputEach(p: Params, st: State, tx: Transaction, n: nat) {
    forall v: nat, w: nat, s | v < w < n :: !(TreasuryOutput(p, st, tx, v, s) && TreasuryOutput(p, st, tx, w, s))
  }

  ghost predicate HasOutput(p: Params, st: State, tx: Transaction, n: nat, s: Slot) {
    exists v: nat | v < n :: TreasuryOutput(p, st, tx, v, s)
  }

  lemma OutputParses(p: Params, st: State, tx: Transaction, v: nat, s: Slot)
    requires v < |tx.outputs|
    ensures TreasuryOutput(p, st, tx, v, s) <==>
      s in st.active && ParseTreasuryScript(p.op, tx.outputs[v].script) == Some(s)
  {
    TreasuryScriptRoundTrip(p.op, tx.outputs[v].script, s);
  }

  ghost predicate ListedExactly(p: Params, st: State, tx: Transaction, n: nat)
    requires n <= |tx.outputs|
  {
    && (FillOutputs(p, st, tx, n).Ok? <==> OneOutputEach(p, st, tx, n))
    && (FillOutputs(p, st, tx, n).Ok? ==>
          forall s :: s in FillOutputs(p, st, tx, n).value <==> HasOutput(p, st, tx, n, s))
  }

  lemma {:induction false} OutputsExactly(p: Params, st: State, tx: Transaction, n: nat)
    requires n <= |tx.outputs|
    ensures ListedExactly(p, st, tx, n)
  {
    if n > 0 {
      OutputsExactly(p, st, tx, n - 1);
      OutputsStep(p, st, tx, n - 1);
    }
  }

  lemma OutputsStep(p: Params, st: State, tx: Transaction, n: nat)
    requires n < |tx.outputs| && ListedExactly(p, st, tx, n)
    ensures ListedExactly(p, st, tx, n + 1)
  {
    var m := n + 1;
    forall s ensures TreasuryOutput(p, st, tx, n, s) <==>
      (s in st.active && ParseTreasuryScript(p.op, tx.outputs[n].script) == Some(s))
    {
      OutputParses(p, st, tx, n, s);
    }
    forall s ensures HasOutput(p, st, tx, m, s) <==> (HasOutput(p, st, tx, n, s) || TreasuryOutput(p, st, tx, n, s)) {}
    assert OneOutputEach(p, st, tx, m) <==>
      OneOutputEach(p, st, tx, n) && forall s | TreasuryOutput(p, st, tx, n, s) :: !HasOutput(p, st, tx, n, s);
  }

  /** The slot whose treasury an outpoint holds: one that is on record, or a deposit
      of this block that waits. */
  ghost function HolderOf(st: State, uncon: Unconsolidated, o: OutPoint): Option<Slot> {
    match Find(st.treasury, o)
    case Some((slot, _)) => Some(slot)
    case None => if o in uncon then Some(uncon[o].0) else None
  }

  /** Whatever treasury an input spends, its sidechain is among `slots`. */
  ghost predicate InputsCovered(st: State, uncon: Unconsolidated, tx: Transaction, slots: set<Slot>, n: nat)
    requires n <= |tx.inputs|
  {
    forall i | 0 <= i < n :: HolderOf(st, uncon, tx.inputs[i].previous).Some? ==>
      HolderOf(st, uncon, tx.inputs[i].previous).value in slots
  }

  ghost predicate OnRecord(st: State, tx: Transaction, i: nat, s: Slot)
    requires i < |tx.inputs|
  {
    Find(st.treasury, tx.inputs[i].previous).Some? && Find(st.treasury, tx.inputs[i].previous).value.0 == s
  }

  ghost predicate OneRecordEach(st: State, tx: Transaction, n: nat)
    requires n <= |tx.inputs|
  {
    forall i, j, s | 0 <= i < j < n :: !(OnRecord(st, tx, i, s) && OnRecord(st, tx, j, s))
  }

  /** Of the first `n` inputs, one spends the slot's treasury on record. */
  ghost predicate SpendsRecord(st: State, tx: Transaction, n: nat, s: Slot)
    requires n <= |tx.inputs|
  {
    exists i | 0 <= i < n :: OnRecord(st, tx, i, s)
  }

  ghost predicate FilledExactly(st: State, uncon: Unconsolidated, tx: Transaction, ios: map<Slot, SlotIo>, n: nat)
    requires n <= |tx.inputs|
  {
    && (FillInputs(st, uncon, tx, ios, n).Ok? <==>
          InputsCovered(st, uncon, tx, ios.Keys, n) && OneRecordEach(st, tx, n))
    && (FillInputs(st, uncon, tx, ios, n).Ok? ==>
          var filled := FillInputs(st, uncon, tx, ios, n).value;
          && filled.Keys == ios.Keys
          && forall s | s in filled :: filled[s].consolidated.Some? <==> SpendsRecord(st, tx, n, s))
  }

  lemma {:induction false} InputsExactly(st: State, uncon: Unconsolidated, tx: Transaction, ios: map<Slot, SlotIo>,
                                         n: nat)
    requires n <= |tx.inputs| && forall s | s in ios :: ios[s].consolidated.None?
    ensures FilledExactly(st, uncon, tx, ios, n)
  {
    if n > 0 {
      InputsExactly(st, uncon, tx, ios, n - 1);
      InputsStep(st, uncon, tx, ios, n - 1);
    }
  }

  lemma InputsStep(st: State, uncon: Unconsolidated, tx: Transaction, ios: map<Slot, SlotIo>, n: nat)
    requires n < |tx.inputs| && FilledExactly(st, uncon, tx, ios, n)
    ensures FilledExactly(st, uncon, tx, ios, n + 1)
  {
    var m := n + 1;
    forall s ensures SpendsRecord(st, tx, m, s) <==> (SpendsRecord(st, tx, n, s) || OnRecord(st, tx, n, s)) {}
    assert OneRecordEach(st, tx, m) <==>
      OneRecordEach(st, tx, n) && forall s | OnRecord(st, tx, n, s) :: !SpendsRecord(st, tx, n, s);
  }

  /** The treasury outputs and inputs of a transaction are in order: no two outputs
      of one active slot, a new output for every treasury that is spent, and no two
      treasuries on record of one slot. */
  ghost predicate InOrder(p: Params, st: State, uncon: Unconsolidated, tx: Transaction) {
    && OneOutputEach(p, st, tx, |tx.outputs|)
    && (forall i | 0 <= i < |tx.inputs| && HolderOf(st, uncon, tx.inputs[i].previous).Some? ::
          HasOutput(p, st, tx, |tx.outputs|, HolderOf(st, uncon, tx.inputs[i].previous).value))
    && OneRecordEach(st, tx, |tx.inputs|)
  }

  lemma CtipsExactly(p: Params, st: State, uncon: Unconsolidated, tx: Transaction)
    ensures FillCtips(p, st, uncon, tx).Ok? <==> InOrder(p, st, uncon, tx)
    ensures FillCtips(p, st, uncon, tx).Ok? ==>
      forall s :: s in FillCtips(p, st, uncon, tx).value <==> HasOutput(p, st, tx, |tx.outputs|, s)
  {
    OutputsExactly(p, st, tx, |tx.outputs|);
    if FillOutputs(p, st, tx, |tx.outputs|).Ok? {
      FillOutputsSound(p, st, tx, |tx.outputs|);
      InputsExactly(st, uncon, tx, FillOutputs(p, st, tx, |tx.outputs|).value, |tx.inputs|);
    }
  }

  // ----- What is done with each sidechain

  /** The output behind a treasury output names a recipient. */
  predicate NamesRecipient(tx: Transaction, v: nat) {
    v + 1 < |tx.outputs| && ParseOpReturn(tx.outputs[v + 1].script).Some?
  }

  /** More goes in than is spent, for a recipient; or the same, and deposits are
      gathered. */
  predicate DepositFits(tx: Transaction, io: SlotIo) {
    || (io.output.value > ValueIn(io) && NamesRecipient(tx, io.output.outpoint.vout))
    || (io.output.value == ValueIn(io) && io.unconsolidated != [])
  }

  /** Less comes back: the transaction spends the treasury and only treasury, its
      first output is the new treasury, and its id is that of a pending bundle with
      more votes than the threshold. */
  ghost predicate WithdrawalFits(p: Params, st: State, tx: Transaction, s: Slot, io: SlotIo) {
    && io.output.value < ValueIn(io) && io.consolidated.Some? && io.output.outpoint.vout == 0
    && (forall i | 0 <= i < |tx.inputs| :: SpentFrom(io, tx.inputs[i].previous))
    && s in st.pending && exists j | 0 <= j < |st.pending[s]| ::
      && BlindedM6.ComputeM6id(p.txid, p.op, tx, ValueIn(io)) == Ok((st.pending[s][j].m6id, s))
      && st.pending[s][j].votes > p.bundleThreshold
  }

  ghost predicate SpentFrom(io: SlotIo, o: OutPoint) {
    || (io.consolidated.Some? && io.consolidated.value.outpoint == o)
    || exists k | 0 <= k < |io.unconsolidated| :: io.unconsolidated[k].outpoint == o
  }

  lemma SlotDeposits(p: Params, st: State, tx: Transaction, s: Slot, io: SlotIo)
    ensures CheckSlot(p, st, tx, s, io) == Ok(Deposits) <==> DepositFits(tx, io)
  {
  }

  lemma SlotWithdraws(p: Params, st: State, tx: Transaction, s: Slot, io: SlotIo)
    requires s in st.pending ==> DistinctIds(st.pending[s])
    ensures CheckSlot(p, st, tx, s, io).Ok? && CheckSlot(p, st, tx, s, io).value.Withdraws?
       <==> WithdrawalFits(p, st, tx, s, io)
  {
    forall o ensures IsTreasuryInput(io, o) <==> SpentFrom(io, o) {}
    var id := BlindedM6.ComputeM6id(p.txid, p.op, tx, ValueIn(io));
    if s in st.pending && id.Ok? { FindPendingFinds(st.pending[s], id.value.0); }
  }

  /** All sidechains that the transaction touches get deposits, or there is only
      one, and it withdraws. */
  ghost predicate ChangesFit(p: Params, st: State, tx: Transaction, ios: map<Slot, SlotIo>) {
    || (forall s | s in ios :: DepositFits(tx, ios[s]))
    || (exists s :: ios.Keys == {s} && WithdrawalFits(p, st, tx, s, ios[s]))
  }

  ghost predicate OneWithdraws(changes: Changes, s: Slot) {
    changes.Keys == {s} && changes[s].Ok? && changes[s].value.Withdraws?
  }

  lemma CombineCases(changes: Changes, newCtips: map<Slot, Ctip>)
    ensures Combine(changes, newCtips).Ok? <==>
      (forall s | s in changes :: changes[s] == Ok(Deposits)) || exists s :: OneWithdraws(changes, s)
  {
    if s: Slot :| OneWithdraws(changes, s) {
      assert changes == map[s := Ok(Withdraws(changes[s].value.diff))];
    }
    if s, d :| changes == map[s := Ok(Withdraws(d))] {
      assert changes[s] == Ok(Withdraws(d)) && OneWithdraws(changes, s);
    }
  }

  lemma CombineExactly(p: Params, st: State, tx: Transaction, ios: map<Slot, SlotIo>, newCtips: map<Slot, Ctip>)
    requires Ledger.Valid(st)
    ensures Combine(CheckSlots(p, st, tx, ios), newCtips).Ok? <==> ChangesFit(p, st, tx, ios)
  {
    var changes := CheckSlots(p, st, tx, ios);
    CombineCases(changes, newCtips);
    assert changes.Keys == ios.Keys;
    forall s | s in ios
      ensures changes[s] == Ok(Deposits) <==> DepositFits(tx, ios[s])
      ensures OneWithdraws(changes, s) <==> ios.Keys == {s} && WithdrawalFits(p, st, tx, s, ios[s])
    {
      SlotDeposits(p, st, tx, s, ios[s]);
      SlotWithdraws(p, st, tx, s, ios[s]);
    }
  }

  /** A transaction passes the treasury rules exactly when its treasury outputs and
      inputs are in order and every sidechain's change fits. */
  lemma TreasuryTxExactly(p: Params, st: State, uncon: Unconsolidated, tx: Transaction)
    requires Ledger.Valid(st)
    ensures FillCtips(p, st, uncon, tx).Ok? <==> InOrder(p, st, uncon, tx)
    ensures HandleTreasuryTx(p, st, uncon, tx).Ok? <==>
      InOrder(p, st, uncon, tx) && ChangesFit(p, st, tx, FillCtips(p, st, uncon, tx).value)
  {
    CtipsExactly(p, st, uncon, tx);
    if FillCtips(p, st, uncon, tx).Ok? {
      var ios := FillCtips(p, st, uncon, tx).value;
      CombineExactly(p, st, tx, ios, map s | s in ios && Records(st, s, ios[s]) :: ios[s].output);
    }
  }

  /** So an accepted transaction that raises what a sidechain holds names a
      recipient right behind the sidechain's treasury output. */
  lemma DepositNamesRecipient(p: Params, st: State, uncon: Unconsolidated, tx: Transaction, s: Slot) returns (v: nat)
    requires Ledger.Valid(st) && HandleTreasuryTx(p, st, uncon, tx).Ok? && FillCtips(p, st, uncon, tx).Ok?
    requires Gain(FillCtips(p, st, uncon, tx).value, s) > 0
    ensures TreasuryOutput(p, st, tx, v, s) && NamesRecipient(tx, v)
  {
    TreasuryTxExactly(p, st, uncon, tx);
    FillCtipsSound(p, st, uncon, tx);
    var ios := FillCtips(p, st, uncon, tx).value;
    v := ios[s].output.outpoint.vout;
    OutputParses(p, st, tx, v, s);
  }
}
