/** The validator's rules for transactions that touch treasuries: deposits and
    consolidations (M5), withdrawals (M6), and BMM requests (M8). */
module TreasuryTxs {
  import opened Prelude
  import opened Script
  import opened Transactions
  import opened Treasury
  import opened Ledger
  import opened Validator
  import BlindedM6

  /** Treasury outputs that this block created beside a treasury it did not
      spend; the block must consolidate them before it ends. */
  type Unconsolidated = map<OutPoint, (Slot, nat)>

  /** What a transaction takes from and leaves to one sidechain's treasury. */
  datatype SlotIo = SlotIo(consolidated: Option<Ctip>, unconsolidated: seq<Ctip>, output: Ctip)

  function ValueIn(io: SlotIo): nat {
    (match io.consolidated case None => 0 case Some(ctip) => ctip.value) + TotalValue(io.unconsolidated)
  }

  /** The treasury outputs among the first `n`, at most one per active slot. */
  function FillOutputs(p: Params, st: State, tx: Transaction, n: nat): Result<map<Slot, SlotIo>, Reject>
    requires n <= |tx.outputs|
  {
    if n == 0 then Ok(map[]) else
    var ios :- FillOutputs(p, st, tx, n - 1);
    match ParseTreasuryScript(p.op, tx.outputs[n - 1].script)
    case None => Ok(ios)
    case Some(slot) =>
      if slot !in st.active then Ok(ios)
      else if slot in ios then Err(BadTreasuryTx)
      else Ok(ios[slot := SlotIo(None, [], Ctip(OutPoint(p.txid(tx), n - 1), tx.outputs[n - 1].value))])
  }

  /** Adds the treasury UTXO that an input spends, if it is one. Spending one
      without a new treasury output for its sidechain is invalid. */
  ghost function FillOne(st: State, uncon: Unconsolidated, o: OutPoint, filled: map<Slot, SlotIo>)
    : Result<map<Slot, SlotIo>, Reject> {
    match Find(st.treasury, o)
    case Some((slot, value)) =>
      if slot !in filled || filled[slot].consolidated.Some? then Err(BadTreasuryTx)
      else Ok(filled[slot := filled[slot].(consolidated := Some(Ctip(o, value)))])
    case None =>
      if o !in uncon then Ok(filled) else
      var (slot, value) := uncon[o];
      if slot !in filled then Err(BadTreasuryTx)
      else if Ctip(o, value) in filled[slot].unconsolidated then Ok(filled)
      else Ok(filled[slot := filled[slot].(unconsolidated := filled[slot].unconsolidated + [Ctip(o, value)])])
  }

  /** The first `n` inputs. */
  ghost function FillInputs(st: State, uncon: Unconsolidated, tx: Transaction, ios: map<Slot, SlotIo>, n: nat)
    : Result<map<Slot, SlotIo>, Reject>
    requires n <= |tx.inputs|
  {
    if n == 0 then Ok(ios) else
    var filled :- FillInputs(st, uncon, tx, ios, n - 1);
    FillOne(st, uncon, tx.inputs[n - 1].previous, filled)
  }

  ghost function FillCtips(p: Params, st: State, uncon: Unconsolidated, tx: Transaction)
    : Result<map<Slot, SlotIo>, Reject> {
    var ios :- FillOutputs(p, st, tx, |tx.outputs|);
    FillInputs(st, uncon, tx, ios, |tx.inputs|)
  }

  /** What a transaction does to one sidechain. */
  datatype SlotChange = Deposits | Withdraws(diff: TxDiff)

  predicate IsTreasuryInput(io: SlotIo, o: OutPoint) {
    || (io.consolidated.Some? && io.consolidated.value.outpoint == o)
    || exists c | c in io.unconsolidated :: c.outpoint == o
  }

  /** A withdrawal spends the treasury and nothing else, puts the new treasury
      first, and pays out a pending bundle with enough votes. */
  function CheckWithdrawal(p: Params, st: State, tx: Transaction, slot: Slot, io: SlotIo): Result<SlotChange, Reject> {
    if io.consolidated.None? then Err(BadTreasuryTx)
    else if exists i | 0 <= i < |tx.inputs| :: !IsTreasuryInput(io, tx.inputs[i].previous) then Err(BadTreasuryTx)
    else if io.output.outpoint.vout != 0 then Err(BadTreasuryTx)
    else
      match BlindedM6.ComputeM6id(p.txid, p.op, tx, ValueIn(io))
      case Err(_) => Err(BadTreasuryTx)
      case Ok((m6id, slot')) =>
        if slot' != slot || slot !in st.pending then Err(BadTreasuryTx) else
        FindPendingFinds(st.pending[slot], m6id);
        match FindPending(st.pending[slot], m6id)
        case None => Err(BadTreasuryTx)
        case Some(i) =>
          if st.pending[slot][i].votes <= p.bundleThreshold then Err(BadTreasuryTx)
          else Ok(Withdraws(M6(slot, io.output, i, st.pending[slot][i])))
  }

  /** A value above what is spent is a deposit, which names its recipient in the
      next output; an equal value only consolidates deposits; a value below is a
      withdrawal. */
  function CheckSlot(p: Params, st: State, tx: Transaction, slot: Slot, io: SlotIo): Result<SlotChange, Reject> {
    if io.output.value < ValueIn(io) then CheckWithdrawal(p, st, tx, slot, io)
    else if io.output.value == ValueIn(io) then
      if io.unconsolidated == [] then Err(BadTreasuryTx) else Ok(Deposits)
    else
      var next := io.output.outpoint.vout + 1;
      if next < |tx.outputs| && ParseOpReturn(tx.outputs[next].script).Some? then Ok(Deposits) else Err(BadTreasuryTx)
  }

  /** The new output becomes the sidechain's treasury if it replaces it or is the
      first; otherwise it waits to be consolidated. */
  predicate Records(st: State, slot: Slot, io: SlotIo) {
    io.consolidated.Some? || CtipOf(st.treasury, slot).None?
  }

  function SpentUnconsolidated(ios: map<Slot, SlotIo>): set<OutPoint> {
    set s, c | s in ios && c in ios[s].unconsolidated :: c.outpoint
  }

  /** The slot whose treasury output waits at position `v`, if one does. */
  function WaitsAt(p: Params, st: State, tx: Transaction, ios: map<Slot, SlotIo>, v: nat): Option<Slot>
    requires v < |tx.outputs|
  {
    match ParseTreasuryScript(p.op, tx.outputs[v].script)
    case None => None
    case Some(s) => if s in ios && !Records(st, s, ios[s]) then Some(s) else None
  }

  function Waiting(p: Params, st: State, tx: Transaction, ios: map<Slot, SlotIo>): Unconsolidated {
    map v: nat | 0 <= v < |tx.outputs| && WaitsAt(p, st, tx, ios, v).Some?
      :: OutPoint(p.txid(tx), v) := (WaitsAt(p, st, tx, ios, v).value, tx.outputs[v].value)
  }

  datatype TxOutcome = TxOutcome(diff: Option<TxDiff>, uncon: Unconsolidated)

  /** What each sidechain that the transaction touches would have happen to it. */
  type Changes = map<Slot, Result<SlotChange, Reject>>

  function CheckSlots(p: Params, st: State, tx: Transaction, ios: map<Slot, SlotIo>): Changes {
    map s | s in ios :: CheckSlot(p, st, tx, s, ios[s])
  }

  /** Either all sidechains deposit, or the only one withdraws. */
  ghost function Combine(changes: Changes, newCtips: map<Slot, Ctip>): Result<Option<TxDiff>, Reject> {
    if changes == map[] then Ok(None)
    else if forall s | s in changes :: changes[s] == Ok(Deposits) then Ok(Some(M5(newCtips)))
    else if exists s, d :: changes == map[s := Ok(Withdraws(d))] then
      var s, d :| changes == map[s := Ok(Withdraws(d))];
      Ok(Some(d))
    else Err(BadTreasuryTx)
  }

  /** The whole transaction. The sidechains it touches are looked at one by one
      but independently, so their order does not matter. */
  ghost function HandleTreasuryTx(p: Params, st: State, uncon: Unconsolidated, tx: Transaction)
    : Result<TxOutcome, Reject> {
    var ios :- FillCtips(p, st, uncon, tx);
    var newCtips := map s | s in ios && Records(st, s, ios[s]) :: ios[s].output;
    var diff :- Combine(CheckSlots(p, st, tx, ios), newCtips);
    Ok(TxOutcome(diff, (uncon - SpentUnconsolidated(ios)) + Waiting(p, st, tx, ios)))
  }

  /** The loop over the sidechains, which meets them in an arbitrary order and
      stops at the first conflict: it reaches the same verdict in every order. */
  method CombineInAnyOrder(changes: Changes, newCtips: map<Slot, Ctip>) returns (r: Result<Option<TxDiff>, Reject>)
    requires newCtips.Keys <= changes.Keys
    ensures r == Combine(changes, newCtips)
  {
    var todo := changes.Keys;
    var deposited: map<Slot, Ctip> := map[];
    var withdrawn: Option<TxDiff> := None;
    while todo != {}
      invariant todo <= changes.Keys
      invariant withdrawn.None? ==> forall s | s in changes && s !in todo :: changes[s] == Ok(Deposits)
      invariant withdrawn.Some? ==> exists s | s in changes ::
          changes.Keys - todo == {s} && changes[s] == Ok(Withdraws(withdrawn.value))
      invariant deposited == map s | s in newCtips && s !in todo && withdrawn.None? :: newCtips[s]
    {
      var s :| s in todo;
      ghost var done := changes.Keys - todo;
      assert changes.Keys - (todo - {s}) == done + {s};
      match changes[s] {
        case Err(_) => return Err(BadTreasuryTx);
        case Ok(Deposits) =>
          if withdrawn.Some? { return Err(BadTreasuryTx); }
          if s in newCtips { deposited := deposited[s := newCtips[s]]; }
        case Ok(Withdraws(diff)) =>
          if withdrawn.Some? || todo != changes.Keys { return Err(BadTreasuryTx); }
          withdrawn := Some(diff);
          deposited := map[];
          assert done + {s} == {s};
      }
      todo := todo - {s};
    }
    if changes == map[] { return Ok(None); }
    if withdrawn.Some? {
      ghost var s :| s in changes && changes.Keys - todo == {s} && changes[s] == Ok(Withdraws(withdrawn.value));
      assert changes.Keys == {s};
      assert changes == map[s := Ok(Withdraws(withdrawn.value))];
      return Ok(withdrawn);
    }
    r := Ok(Some(M5(deposited)));
    assert deposited == newCtips;
  }
}
