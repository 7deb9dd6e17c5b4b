/** The books of a treasury across a whole block: it changes by exactly what the
    block's transactions add and take, and only a voted bundle takes anything,
    to the satoshi what it was voted for. */
module Books {
  import opened Prelude
  import opened Runs
  import opened Encoding
  import opened Script
  import opened Transactions
  import opened CoinbaseList
  import opened Treasury
  import opened Ledger
  import opened Validator
  import opened TreasuryTxs
  import opened Accounting
  import opened Blocks
  import BlindedM6

  // ----- The sum of the gains

  /** Each transaction spends unspent outputs and has a new id, as the mainchain
      guarantees. */
  ghost predicate MainchainValid(p: Params, st: State, accepted: map<Slot, Bytes>, parent: Bytes, txs: seq<Transaction>)
  {
    forall i | 0 <= i < |txs| && RunTxs(p, st, accepted, parent, txs, i).Ok? ::
      && SpendsCurrent(RunTxs(p, st, accepted, parent, txs, i).value.st, txs[i])
      && FreshId(p, RunTxs(p, st, accepted, parent, txs, i).value.uncon, txs[i])
  }

  /** What one transaction adds to a sidechain. */
  ghost function StepGain(p: Params, at: TxProgress, tx: Transaction, slot: Slot): int {
    match FillCtips(p, at.st, at.uncon, tx) case Ok(ios) => Gain(ios, slot) case Err(_) => 0
  }

  /** What transaction `i` of the run adds to a sidechain. */
  ghost function GainAt(p: Params, st: State, accepted: map<Slot, Bytes>, parent: Bytes, txs: seq<Transaction>,
                        slot: Slot, i: nat): int {
    if i < |txs| && RunTxs(p, st, accepted, parent, txs, i).Ok?
    then StepGain(p, RunTxs(p, st, accepted, parent, txs, i).value, txs[i], slot) else 0
  }

  ghost function Gains(p: Params, st: State, accepted: map<Slot, Bytes>, parent: Bytes, txs: seq<Transaction>,
                       slot: Slot): nat -> int {
    (i: nat) => GainAt(p, st, accepted, parent, txs, slot, i)
  }

  ghost function HeldBy(slot: Slot): TxProgress -> int {
    (at: TxProgress) => Held(at.st, at.uncon, slot)
  }

  function StartOf(st: State): TxProgress {
    TxProgress(st, [], map[], {})
  }

  /** What all the transactions add to a sidechain. */
  ghost function Flow(p: Params, st: State, accepted: map<Slot, Bytes>, parent: Bytes, txs: seq<Transaction>,
                      slot: Slot): int {
    SumBelow(Gains(p, st, accepted, parent, txs, slot), |txs|)
  }

  lemma TxStepBooks(p: Params, at: TxProgress, accepted: map<Slot, Bytes>, parent: Bytes, tx: Transaction, slot: Slot)
    requires TxStep(p, accepted, parent, at, tx).Ok?
    requires SpendsCurrent(at.st, tx) && FreshId(p, at.uncon, tx)
    ensures var next := TxStep(p, accepted, parent, at, tx).value;
      Held(next.st, next.uncon, slot) == Held(at.st, at.uncon, slot) + StepGain(p, at, tx, slot)
  {
    TxAccounting(p, at.st, at.uncon, tx, slot);
  }

  lemma RunStepBooks(p: Params, st: State, accepted: map<Slot, Bytes>, parent: Bytes, txs: seq<Transaction>, i: nat,
                     slot: Slot)
    requires i < |txs| && MainchainValid(p, st, accepted, parent, txs)
    ensures StepAdds(TxStepper(p, accepted, parent), StartOf(st), txs, HeldBy(slot),
        Gains(p, st, accepted, parent, txs, slot), i)
  {
    if RunTxs(p, st, accepted, parent, txs, i).Ok? {
      var at := RunTxs(p, st, accepted, parent, txs, i).value;
      if TxStep(p, accepted, parent, at, txs[i]).Ok? { TxStepBooks(p, at, accepted, parent, txs[i], slot); }
    }
  }

  /** The transactions change what a sidechain holds by the sum of what each of
      them adds and takes. */
  lemma RunTxsBooks(p: Params, st: State, accepted: map<Slot, Bytes>, parent: Bytes, txs: seq<Transaction>, slot: Slot)
    requires RunTxs(p, st, accepted, parent, txs, |txs|).Ok?
    requires MainchainValid(p, st, accepted, parent, txs)
    ensures var at := RunTxs(p, st, accepted, parent, txs, |txs|).value;
      Held(at.st, at.uncon, slot) == Held(st, map[], slot) + Flow(p, st, accepted, parent, txs, slot)
  {
    forall i | 0 <= i < |txs|
      ensures StepAdds(TxStepper(p, accepted, parent), StartOf(st), txs, HeldBy(slot),
          Gains(p, st, accepted, parent, txs, slot), i)
    {
      RunStepBooks(p, st, accepted, parent, txs, i, slot);
    }
    RunAdds(TxStepper(p, accepted, parent), StartOf(st), txs, |txs|, HeldBy(slot),
        Gains(p, st, accepted, parent, txs, slot));
  }

  // ----- Who may take

  /** A transaction that takes from a sidechain pays out one of its pending
      bundles, which has the votes, and takes exactly the payouts and the fee
      that its id commits to. */
  lemma OnlyBundlesTake(p: Params, at: TxProgress, accepted: map<Slot, Bytes>, parent: Bytes, tx: Transaction,
                        slot: Slot) returns (d: TxDiff)
    requires TxStep(p, accepted, parent, at, tx).Ok?
    requires StepGain(p, at, tx, slot) < 0
    ensures d.M6? && d.slot == slot && TxStep(p, accepted, parent, at, tx).value.diffs == at.diffs + [d]
    ensures slot in at.st.pending && d.removed in at.st.pending[slot] && d.removed.votes > p.bundleThreshold
    ensures TakesBundle(p, tx, d, -StepGain(p, at, tx, slot))
  {
    d := TakesPending(p, at.st, at.uncon, tx, slot);
    StepRecords(p, at, accepted, parent, tx);
  }

  lemma TakesPending(p: Params, st: State, uncon: Unconsolidated, tx: Transaction, slot: Slot) returns (d: TxDiff)
    requires HandleTreasuryTx(p, st, uncon, tx).Ok? && FillCtips(p, st, uncon, tx).Ok?
    requires Gain(FillCtips(p, st, uncon, tx).value, slot) < 0
    ensures HandleTreasuryTx(p, st, uncon, tx).value.diff == Some(d) && d.M6? && d.slot == slot
    ensures slot in st.pending && d.removed in st.pending[slot] && d.removed.votes > p.bundleThreshold
    ensures TakesBundle(p, tx, d, -Gain(FillCtips(p, st, uncon, tx).value, slot))
  {
    OutcomeExplained(p, st, uncon, tx);
    var ios := FillCtips(p, st, uncon, tx).value;
    d := HandleTreasuryTx(p, st, uncon, tx).value.diff.value;
    FillCtipsSound(p, st, uncon, tx);
    assert SoundOutput(p, tx, slot, ios[slot].output);
    WithdrawalIsFirst(p, st, uncon, tx, slot);
    TakesSpent(p, tx, d, ValueIn(ios[slot]));
  }

  lemma StepRecords(p: Params, at: TxProgress, accepted: map<Slot, Bytes>, parent: Bytes, tx: Transaction)
    requires TxStep(p, accepted, parent, at, tx).Ok? && HandleTreasuryTx(p, at.st, at.uncon, tx).value.diff.Some?
    ensures TxStep(p, accepted, parent, at, tx).value.diffs == at.diffs
        + [HandleTreasuryTx(p, at.st, at.uncon, tx).value.diff.value]
  {
  }

  lemma TakesSpent(p: Params, tx: Transaction, d: TxDiff, treasuryIn: nat)
    requires d.M6? && tx.outputs != []
    requires BlindedM6.ComputeM6id(p.txid, p.op, tx, treasuryIn) == Ok((d.removed.m6id, d.slot))
    ensures TakesBundle(p, tx, d, treasuryIn - tx.outputs[0].value)
  {
  }

  /** Some treasury value `treasuryIn` was spent, `taken` of it did not come back,
      and blinding the transaction against it gives the id that was voted on. */
  ghost predicate TakesBundle(p: Params, tx: Transaction, d: TxDiff, taken: int)
    requires d.M6?
  {
    exists treasuryIn: nat ::
      && tx.outputs != [] && taken == treasuryIn - tx.outputs[0].value
      && BlindedM6.ComputeM6id(p.txid, p.op, tx, treasuryIn) == Ok((d.removed.m6id, d.slot))
  }

  lemma WithdrawalIsFirst(p: Params, st: State, uncon: Unconsolidated, tx: Transaction, slot: Slot)
    requires HandleTreasuryTx(p, st, uncon, tx).Ok? && FillCtips(p, st, uncon, tx).Ok?
    requires Gain(FillCtips(p, st, uncon, tx).value, slot) < 0
    ensures FillCtips(p, st, uncon, tx).value[slot].output.outpoint.vout == 0
  {
    var ios := FillCtips(p, st, uncon, tx).value;
    var changes := CheckSlots(p, st, tx, ios);
    assert changes[slot] == CheckWithdrawal(p, st, tx, slot, ios[slot]);
    if !(forall s | s in changes :: changes[s] == Ok(Deposits)) {
      var s, d :| changes == map[s := Ok(Withdraws(d))];
      assert s == slot;
    }
  }

  /** Hence the loss is the payout and fee of the bundle that was proposed, and
      the payees get what it promises. */
  lemma TakesPayoutAndFee(p: Params, tx: Transaction, d: TxDiff, taken: int, b: BlindedM6.Bundle)
    requires CollisionFree(p.txid)
    requires d.M6? && TakesBundle(p, tx, d, taken) && taken <= U64_MAX
    requires BlindedM6.Valid(b) && d.removed.m6id == p.txid(b.tx)
    ensures taken == b.payout + b.fee && tx.outputs[1..] == b.tx.outputs[1..]
    ensures BlindedM6.CanonicalFeeScript(b)
  {
    var treasuryIn: nat :|
      && taken == treasuryIn - tx.outputs[0].value
      && BlindedM6.ComputeM6id(p.txid, p.op, tx, treasuryIn) == Ok((d.removed.m6id, d.slot));
    IdCommits(p.txid, p.op, tx, treasuryIn, d.removed.m6id, d.slot, b.tx);
    FeeOfBundle(b, taken - TotalOut(tx.outputs[1..]));
  }

  /** The id of a withdrawal commits to the blinded transaction. */
  lemma IdCommits(txid: TxidFn, op: Byte, tx: Transaction, treasuryIn: nat, m6id: Txid, slot: Slot,
                  blinded: Transaction)
    requires CollisionFree(txid) && tx.outputs != [] && m6id == txid(blinded)
    requires BlindedM6.ComputeM6id(txid, op, tx, treasuryIn) == Ok((m6id, slot))
    ensures var taken := treasuryIn - tx.outputs[0].value;
      && taken >= TotalOut(tx.outputs[1..])
      && blinded.outputs != [] && blinded.outputs[1..] == tx.outputs[1..]
      && blinded.outputs[0] == BlindedM6.FeeOutput(taken - TotalOut(tx.outputs[1..]))
  {
    assert txid(BlindedM6.Blind(op, tx, treasuryIn).value.0) == txid(blinded);
    BlindsTo(op, tx, treasuryIn, blinded);
  }

  lemma BlindsTo(op: Byte, tx: Transaction, treasuryIn: nat, blinded: Transaction)
    requires tx.outputs != [] && BlindedM6.Blind(op, tx, treasuryIn).Ok?
    requires BlindedM6.Blind(op, tx, treasuryIn).value.0 == blinded
    ensures var taken := treasuryIn - tx.outputs[0].value;
      && taken >= TotalOut(tx.outputs[1..])
      && blinded.outputs != [] && blinded.outputs[1..] == tx.outputs[1..]
      && blinded.outputs[0] == BlindedM6.FeeOutput(taken - TotalOut(tx.outputs[1..]))
  {
  }

  lemma FeeOfBundle(b: BlindedM6.Bundle, fee: nat)
    requires BlindedM6.Valid(b) && fee <= U64_MAX && b.tx.outputs != [] && b.tx.outputs[0] == BlindedM6.FeeOutput(fee)
    ensures b.fee == fee && b.payout == TotalOut(b.tx.outputs[1..]) && BlindedM6.CanonicalFeeScript(b)
  {
    BlindedM6.ValidBundle(b);
    FeeOutputReads(fee);
  }

  lemma FeeOutputReads(fee: nat)
    requires fee <= U64_MAX
    ensures ParseOpReturn(BlindedM6.FeeOutput(fee).script) == Some(BigEndian(fee, 8))
    ensures |BlindedM6.FeeOutput(fee).script| == 10 && BigEndianValue(BigEndian(fee, 8)) == fee
  {
    Pow256Values();
    OpReturnRoundTrip(BigEndian(fee, 8));
    BigEndianRoundTrip(fee, 8);
  }

  // ----- A whole block

  /** Where the transactions of a block start. */
  function TxsStart(p: Params, st: State, previous: seq<MsgDiff>, height: nat, block: Block): Option<MsgProgress> {
    if block.coinbase.None? then None else
    match Scan(ParseEach(block.coinbase.value))
    case None => None
    case Some(entries) =>
      match RunMessages(p, st, previous, height, entries, |entries|)
      case Err(_) => None
      case Ok(msgs) => Some(msgs.(st := Aged(p, msgs.st, height)))
  }

  lemma MessagesKeepTreasury(p: Params, st: State, previous: seq<MsgDiff>, height: nat, entries: seq<Entry>)
    ensures var r := RunMessages(p, st, previous, height, entries, |entries|);
      r.Ok? ==> r.value.st.treasury == st.treasury
  {
    var inv := (i: nat, b: MsgProgress) => b.st.treasury == st.treasury;
    RunKeeps(MessageStepper(p, previous, height), MsgProgress(st, [], map[]), entries, |entries|, inv);
  }

  lemma NothingWaits(st: State, slot: Slot)
    ensures Held(st, map[], slot) == CurrentValue(st.treasury, slot)
  {
    assert Part(map[], slot) == map[];
  }

  /** Across every block that connects, a treasury changes by exactly the sum of
      what the block's transactions add and take. */
  lemma ConnectBooks(p: Params, st: State, previous: seq<MsgDiff>, parent: Bytes, height: nat, block: Block, slot: Slot)
    requires Valid(st) && height >= p.activationHeight && Connect(p, st, previous, parent, height, block).Ok?
    requires var start := TxsStart(p, st, previous, height, block);
      start.Some? ==> MainchainValid(p, start.value.st, start.value.accepted, parent, block.txs)
    ensures var start := TxsStart(p, st, previous, height, block);
      && start.Some?
      && CurrentValue(Connect(p, st, previous, parent, height, block).value.st.treasury, slot)
         == CurrentValue(st.treasury, slot) + Flow(p, start.value.st, start.value.accepted, parent, block.txs, slot)
  {
    var start := TxsStart(p, st, previous, height, block).value;
    MessagesKeepTreasury(p, st, previous, height, Scan(ParseEach(block.coinbase.value)).value);
    RunTxsBooks(p, start.st, start.accepted, parent, block.txs, slot);
    NothingWaits(start.st, slot);
    NothingWaits(RunTxs(p, start.st, start.accepted, parent, block.txs, |block.txs|).value.st, slot);
  }
}
