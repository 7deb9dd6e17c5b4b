/** Treasury accounting: what an accepted transaction does to the value that
    each sidechain holds. */
module Accounting {
  import opened Prelude
  import opened Script
  import opened Transactions
  import opened Treasury
  import opened Ledger
  import opened Validator
  import opened TreasuryTxs
  import BlindedM6

  // ----- Sums over outpoints

  ghost function Sum(m: map<OutPoint, nat>): nat {
    if m == map[] then 0 else
    var o :| o in m;
    m[o] + Sum(m - {o})
  }

  lemma {:induction false} SumRemove(m: map<OutPoint, nat>, o: OutPoint)
    requires o in m
    ensures Sum(m) == m[o] + Sum(m - {o})
  {
    var o' :| o' in m && Sum(m) == m[o'] + Sum(m - {o'});
    if o' != o {
      SumRemove(m - {o'}, o);
      SumRemove(m - {o}, o');
      assert m - {o'} - {o} == m - {o} - {o'};
    }
  }

  lemma SumInsert(m: map<OutPoint, nat>, o: OutPoint, v: nat)
    requires o !in m
    ensures Sum(m[o := v]) == Sum(m) + v
  {
    SumRemove(m[o := v], o);
    assert m[o := v] - {o} == m;
  }

  ghost predicate DistinctOutpoints(ctips: seq<Ctip>) {
    forall i, j | 0 <= i < j < |ctips| :: ctips[i].outpoint != ctips[j].outpoint
  }

  function Outpoints(ctips: seq<Ctip>): set<OutPoint> {
    set c | c in ctips :: c.outpoint
  }

  lemma {:induction false} SumRemoveAll(m: map<OutPoint, nat>, ctips: seq<Ctip>)
    requires DistinctOutpoints(ctips)
    requires forall c | c in ctips :: c.outpoint in m && m[c.outpoint] == c.value
    ensures Sum(m) == TotalValue(ctips) + Sum(m - Outpoints(ctips))
  {
    if ctips == [] {
      assert m - Outpoints(ctips) == m;
    } else {
      var n := |ctips| - 1;
      var front, last := ctips[..n], ctips[n];
      SumRemoveAll(m, front);
      var rest := m - Outpoints(front);
      assert last.outpoint !in Outpoints(front);
      SumRemove(rest, last.outpoint);
      assert ctips == front + [last];
      assert rest - {last.outpoint} == m - Outpoints(ctips);
    }
  }

  /** The unconsolidated outputs of one sidechain. */
  function Part(uncon: Unconsolidated, slot: Slot): map<OutPoint, nat> {
    map o | o in uncon && uncon[o].0 == slot :: uncon[o].1
  }

  /** Everything a sidechain holds in the middle of a block: its treasury and
      the outputs that wait to be consolidated with it. */
  ghost function Held(st: State, uncon: Unconsolidated, slot: Slot): nat {
    CurrentValue(st.treasury, slot) + Sum(Part(uncon, slot))
  }

  // ----- What the treasury inputs and outputs of a transaction are

  predicate SpendsOutpoint(tx: Transaction, o: OutPoint) {
    exists i | 0 <= i < |tx.inputs| :: tx.inputs[i].previous == o
  }

  ghost predicate SoundOutput(p: Params, tx: Transaction, slot: Slot, output: Ctip) {
    var v := output.outpoint.vout;
    && output.outpoint.txid == p.txid(tx) && v < |tx.outputs| && output.value == tx.outputs[v].value
    && ParseTreasuryScript(p.op, tx.outputs[v].script) == Some(slot)
  }

  ghost predicate SoundInputs(st: State, uncon: Unconsolidated, tx: Transaction, slot: Slot, io: SlotIo) {
    && (io.consolidated.Some? ==>
          && SpendsOutpoint(tx, io.consolidated.value.outpoint)
          && Find(st.treasury, io.consolidated.value.outpoint) == Some((slot, io.consolidated.value.value)))
    && (forall c | c in io.unconsolidated :: c.outpoint in uncon && uncon[c.outpoint] == (slot, c.value))
    && DistinctOutpoints(io.unconsolidated)
  }

  lemma {:induction false} FillOutputsSound(p: Params, st: State, tx: Transaction, n: nat)
    requires n <= |tx.outputs| && FillOutputs(p, st, tx, n).Ok?
    ensures var ios := FillOutputs(p, st, tx, n).value;
      && (forall s | s in ios ::
            s in st.active && SoundOutput(p, tx, s, ios[s].output) && ios[s].consolidated.None?
                && ios[s].unconsolidated == [])
      && (forall v, s | 0 <= v < n && ParseTreasuryScript(p.op, tx.outputs[v].script) == Some(s) && s in st.active ::
            s in ios && ios[s].output.outpoint.vout == v)
  {
    if n > 0 { FillOutputsSound(p, st, tx, n - 1); }
  }

  lemma {:induction false} FillInputsSound(st: State, uncon: Unconsolidated, tx: Transaction, ios: map<Slot, SlotIo>,
                                           n: nat)
    requires n <= |tx.inputs| && FillInputs(st, uncon, tx, ios, n).Ok?
    requires forall s | s in ios :: ios[s].consolidated.None? && ios[s].unconsolidated == []
    ensures var filled := FillInputs(st, uncon, tx, ios, n).value;
      && filled.Keys == ios.Keys
      && forall s | s in filled :: filled[s].output == ios[s].output && SoundInputs(st, uncon, tx, s, filled[s])
  {
    if n > 0 {
      FillInputsSound(st, uncon, tx, ios, n - 1);
      FillOneSound(st, uncon, tx, n - 1, FillInputs(st, uncon, tx, ios, n - 1).value);
    }
  }

  lemma FillOneSound(st: State, uncon: Unconsolidated, tx: Transaction, i: nat, before: map<Slot, SlotIo>)
    requires i < |tx.inputs| && FillOne(st, uncon, tx.inputs[i].previous, before).Ok?
    requires forall s | s in before :: SoundInputs(st, uncon, tx, s, before[s])
    ensures var filled := FillOne(st, uncon, tx.inputs[i].previous, before).value;
      && filled.Keys == before.Keys
      && forall s | s in filled :: filled[s].output == before[s].output && SoundInputs(st, uncon, tx, s, filled[s])
  {
  }

  lemma FillCtipsSound(p: Params, st: State, uncon: Unconsolidated, tx: Transaction)
    requires FillCtips(p, st, uncon, tx).Ok?
    ensures var ios := FillCtips(p, st, uncon, tx).value;
      && (forall s | s in ios ::
            s in st.active && SoundOutput(p, tx, s, ios[s].output) && SoundInputs(st, uncon, tx, s, ios[s]))
      && (forall v, s | 0 <= v < |tx.outputs| && ParseTreasuryScript(p.op, tx.outputs[v].script) == Some(s)
          && s in st.active ::
            s in ios && ios[s].output.outpoint.vout == v)
  {
    FillOutputsSound(p, st, tx, |tx.outputs|);
    FillInputsSound(st, uncon, tx, FillOutputs(p, st, tx, |tx.outputs|).value, |tx.inputs|);
  }

  // ----- Assumptions that the mainchain guarantees

  /** Inputs are unspent: a recorded treasury UTXO that is spent is the current
      one of its sidechain. */
  ghost predicate SpendsCurrent(st: State, tx: Transaction) {
    forall o | SpendsOutpoint(tx, o) && Find(st.treasury, o).Some? ::
      CtipOf(st.treasury, Find(st.treasury, o).value.0) == Some(Ctip(o, Find(st.treasury, o).value.1))
  }

  /** The transaction's id is new. */
  ghost predicate FreshId(p: Params, uncon: Unconsolidated, tx: Transaction) {
    forall o | o in uncon :: o.txid != p.txid(tx)
  }

  /** Where inputs are unspent and distinct, a transaction spends at most one
      recorded treasury of a sidechain. */
  lemma OneTreasurySpent(st: State, tx: Transaction, i: nat, j: nat)
    requires SpendsCurrent(st, tx) && i < j < |tx.inputs| && tx.inputs[i].previous != tx.inputs[j].previous
    requires Find(st.treasury, tx.inputs[i].previous).Some? && Find(st.treasury, tx.inputs[j].previous).Some?
    ensures Find(st.treasury, tx.inputs[i].previous).value.0 != Find(st.treasury, tx.inputs[j].previous).value.0
  {
    assert SpendsOutpoint(tx, tx.inputs[i].previous) && SpendsOutpoint(tx, tx.inputs[j].previous);
  }

  // ----- The effect on what a sidechain holds

  /** The part of the waiting outputs that belongs to one sidechain. */
  lemma WaitingPart(p: Params, st: State, uncon: Unconsolidated, tx: Transaction, slot: Slot)
    requires FillCtips(p, st, uncon, tx).Ok?
    ensures var ios := FillCtips(p, st, uncon, tx).value;
      Part(Waiting(p, st, tx, ios), slot)
      == if slot in ios && !Records(st, slot, ios[slot]) then map[ios[slot].output.outpoint := ios[slot].output.value]
          else map[]
  {
    FillCtipsSound(p, st, uncon, tx);
    var ios := FillCtips(p, st, uncon, tx).value;
    var waiting := Waiting(p, st, tx, ios);
    forall o | o in waiting && waiting[o].0 == slot
      ensures slot in ios && !Records(st, slot, ios[slot]) && o == ios[slot].output.outpoint
    {
      assert WaitsAt(p, st, tx, ios, o.vout) == Some(slot);
    }
    if slot in ios && !Records(st, slot, ios[slot]) {
      var output := ios[slot].output;
      assert WaitsAt(p, st, tx, ios, output.outpoint.vout) == Some(slot);
      assert output.outpoint in waiting && waiting[output.outpoint] == (slot, output.value);
      SingletonPart(waiting, slot, Some(output));
    } else {
      SingletonPart(waiting, slot, None);
    }
  }

  lemma SingletonPart(uncon: Unconsolidated, slot: Slot, only: Option<Ctip>)
    requires forall o | o in uncon && uncon[o].0 == slot :: only.Some? && o == only.value.outpoint
    requires only.Some? ==> only.value.outpoint in uncon && uncon[only.value.outpoint] == (slot, only.value.value)
    ensures Part(uncon, slot) == if only.Some? then map[only.value.outpoint := only.value.value] else map[]
  {
  }

  lemma SpentPart(p: Params, st: State, uncon: Unconsolidated, tx: Transaction, slot: Slot)
    requires FillCtips(p, st, uncon, tx).Ok?
    ensures var ios := FillCtips(p, st, uncon, tx).value;
      Part(uncon - SpentUnconsolidated(ios), slot)
      == Part(uncon, slot) - Outpoints(if slot in ios then ios[slot].unconsolidated else [])
  {
    FillCtipsSound(p, st, uncon, tx);
    var ios := FillCtips(p, st, uncon, tx).value;
    var spent := SpentUnconsolidated(ios);
    forall o | o in spent && o in uncon && uncon[o].0 == slot
      ensures slot in ios && o in Outpoints(ios[slot].unconsolidated)
    {
      var s, c :| s in ios && c in ios[s].unconsolidated && c.outpoint == o;
    }
  }

  ghost function SpentValue(ios: map<Slot, SlotIo>, slot: Slot): nat {
    if slot in ios then TotalValue(ios[slot].unconsolidated) else 0
  }

  ghost function WaitingValue(st: State, ios: map<Slot, SlotIo>, slot: Slot): nat {
    if slot in ios && !Records(st, slot, ios[slot]) then ios[slot].output.value else 0
  }

  lemma PartAfter(p: Params, st: State, uncon: Unconsolidated, tx: Transaction, slot: Slot)
    requires FillCtips(p, st, uncon, tx).Ok? && FreshId(p, uncon, tx)
    ensures var ios := FillCtips(p, st, uncon, tx).value;
      var uncon' := (uncon - SpentUnconsolidated(ios)) + Waiting(p, st, tx, ios);
      Sum(Part(uncon', slot)) + SpentValue(ios, slot) == Sum(Part(uncon, slot)) + WaitingValue(st, ios, slot)
  {
    var ios := FillCtips(p, st, uncon, tx).value;
    var waiting := Waiting(p, st, tx, ios);
    var kept := uncon - SpentUnconsolidated(ios);
    PartUnion(kept, waiting, slot);
    WaitingPart(p, st, uncon, tx, slot);
    SpentPart(p, st, uncon, tx, slot);
    FillCtipsSound(p, st, uncon, tx);
    SumChange(Part(uncon, slot), if slot in ios then ios[slot].unconsolidated else [],
              if slot in ios && !Records(st, slot, ios[slot]) then Some(ios[slot].output) else None);
  }

  /** Removing some entries and adding one changes the sum by their values. */
  lemma SumChange(m: map<OutPoint, nat>, removed: seq<Ctip>, added: Option<Ctip>)
    requires DistinctOutpoints(removed)
    requires forall c | c in removed :: c.outpoint in m && m[c.outpoint] == c.value
    requires added.Some? ==> added.value.outpoint !in m
    ensures Sum((m - Outpoints(removed)) + if added.Some? then map[added.value.outpoint := added.value.value]
        else map[])
              + TotalValue(removed)
         == Sum(m) + if added.Some? then added.value.value else 0
  {
    SumRemoveAll(m, removed);
    var rest := m - Outpoints(removed);
    if added.Some? {
      SumInsert(rest, added.value.outpoint, added.value.value);
      assert rest + map[added.value.outpoint := added.value.value] == rest[added.value.outpoint := added.value.value];
    } else {
      assert rest + map[] == rest;
    }
  }

  lemma PartUnion(a: Unconsolidated, b: Unconsolidated, slot: Slot)
    requires a.Keys !! b.Keys
    ensures Part(a + b, slot) == Part(a, slot) + Part(b, slot)
  {
  }

  // ----- What an accepted transaction is

  /** The diff of an accepted transaction, by what its treasury inputs and
      outputs are. */
  ghost predicate Explains(p: Params, st: State, tx: Transaction, ios: map<Slot, SlotIo>, diff: Option<TxDiff>) {
    match diff
    case None => ios == map[]
    case Some(M5(newCtips)) =>
      && newCtips == (map s | s in ios && Records(st, s, ios[s]) :: ios[s].output)
      && forall s | s in ios :: ios[s].output.value >= ValueIn(ios[s])
    case Some(M6(slot, newCtip, index, removed)) =>
      && ios.Keys == {slot} && newCtip == ios[slot].output
      && ios[slot].consolidated.Some? && newCtip.value < ValueIn(ios[slot])
      && FitsTx(M6(slot, newCtip, index, removed), st)
      && removed.votes > p.bundleThreshold
      && BlindedM6.ComputeM6id(p.txid, p.op, tx, ValueIn(ios[slot])) == Ok((removed.m6id, slot))
  }

  lemma DepositGains(p: Params, st: State, tx: Transaction, slot: Slot, io: SlotIo)
    requires CheckSlot(p, st, tx, slot, io) == Ok(Deposits)
    ensures io.output.value >= ValueIn(io)
  {
  }

  lemma WithdrawalPays(p: Params, st: State, tx: Transaction, slot: Slot, io: SlotIo, d: TxDiff)
    requires CheckSlot(p, st, tx, slot, io) == Ok(Withdraws(d))
    ensures d.M6? && d.slot == slot && d.newCtip == io.output
    ensures io.consolidated.Some? && d.newCtip.value < ValueIn(io)
    ensures FitsTx(d, st) && d.removed.votes > p.bundleThreshold
    ensures BlindedM6.ComputeM6id(p.txid, p.op, tx, ValueIn(io)) == Ok((d.removed.m6id, slot))
  {
    var id := BlindedM6.ComputeM6id(p.txid, p.op, tx, ValueIn(io));
    FindPendingFinds(st.pending[slot], id.value.0);
  }

  lemma AllDepositsGain(p: Params, st: State, tx: Transaction, ios: map<Slot, SlotIo>)
    requires forall s | s in CheckSlots(p, st, tx, ios) :: CheckSlots(p, st, tx, ios)[s] == Ok(Deposits)
    ensures forall s | s in ios :: ios[s].output.value >= ValueIn(ios[s])
  {
    forall s | s in ios ensures ios[s].output.value >= ValueIn(ios[s]) {
      assert CheckSlots(p, st, tx, ios)[s] == Ok(Deposits);
      DepositGains(p, st, tx, s, ios[s]);
    }
  }

  lemma WithdrawalExplained(p: Params, st: State, tx: Transaction, ios: map<Slot, SlotIo>, s: Slot, d: TxDiff)
    requires CheckSlots(p, st, tx, ios) == map[s := Ok(Withdraws(d))]
    ensures Explains(p, st, tx, ios, Some(d))
  {
    assert CheckSlots(p, st, tx, ios).Keys == ios.Keys && CheckSlots(p, st, tx, ios)[s] == Ok(Withdraws(d));
    WithdrawalPays(p, st, tx, s, ios[s], d);
  }

  lemma CombineExplained(p: Params, st: State, tx: Transaction, ios: map<Slot, SlotIo>, newCtips: map<Slot, Ctip>)
    requires newCtips == map s | s in ios && Records(st, s, ios[s]) :: ios[s].output
    requires Combine(CheckSlots(p, st, tx, ios), newCtips).Ok?
    ensures Explains(p, st, tx, ios, Combine(CheckSlots(p, st, tx, ios), newCtips).value)
  {
    var changes := CheckSlots(p, st, tx, ios);
    assert changes.Keys == ios.Keys;
    if changes == map[] {
      assert ios == map[];
    } else if forall s | s in changes :: changes[s] == Ok(Deposits) {
      AllDepositsGain(p, st, tx, ios);
    } else {
      var s, d :| changes == map[s := Ok(Withdraws(d))] && Combine(changes, newCtips) == Ok(Some(d));
      WithdrawalExplained(p, st, tx, ios, s, d);
    }
  }

  lemma OutcomeExplained(p: Params, st: State, uncon: Unconsolidated, tx: Transaction)
    requires HandleTreasuryTx(p, st, uncon, tx).Ok?
    ensures FillCtips(p, st, uncon, tx).Ok?
    ensures var ios := FillCtips(p, st, uncon, tx).value;
      var out := HandleTreasuryTx(p, st, uncon, tx).value;
      && Explains(p, st, tx, ios, out.diff)
      && out.uncon == (uncon - SpentUnconsolidated(ios)) + Waiting(p, st, tx, ios)
  {
    var ios := FillCtips(p, st, uncon, tx).value;
    CombineExplained(p, st, tx, ios, map s | s in ios && Records(st, s, ios[s]) :: ios[s].output);
  }

  /** The state after an accepted transaction. */
  function After(st: State, diff: Option<TxDiff>): State
    requires diff.Some? ==> FitsTx(diff.value, st)
  {
    match diff case None => st case Some(d) => ApplyTx(d, st)
  }

  /** What a transaction adds to a sidechain; negative for a withdrawal. */
  ghost function Gain(ios: map<Slot, SlotIo>, slot: Slot): int {
    if slot in ios then ios[slot].output.value - ValueIn(ios[slot]) else 0
  }

  lemma CurrentAfter(p: Params, st: State, tx: Transaction, ios: map<Slot, SlotIo>, diff: Option<TxDiff>, slot: Slot)
    requires Explains(p, st, tx, ios, diff)
    ensures diff.Some? ==> FitsTx(diff.value, st)
    ensures CurrentValue(After(st, diff).treasury, slot)
         == if slot in ios && Records(st, slot, ios[slot]) then ios[slot].output.value
             else CurrentValue(st.treasury, slot)
  {
  }

  /** Every accepted transaction keeps the books: what a sidechain holds changes
      by exactly the difference between the new treasury output and what was
      spent of its treasury. */
  lemma TxAccounting(p: Params, st: State, uncon: Unconsolidated, tx: Transaction, slot: Slot)
    requires HandleTreasuryTx(p, st, uncon, tx).Ok?
    requires SpendsCurrent(st, tx) && FreshId(p, uncon, tx)
    ensures var out := HandleTreasuryTx(p, st, uncon, tx).value;
      && FillCtips(p, st, uncon, tx).Ok?
      && (out.diff.Some? ==> FitsTx(out.diff.value, st))
      && Held(After(st, out.diff), out.uncon, slot) == Held(st, uncon, slot)
          + Gain(FillCtips(p, st, uncon, tx).value, slot)
  {
    OutcomeExplained(p, st, uncon, tx);
    var ios := FillCtips(p, st, uncon, tx).value;
    var out := HandleTreasuryTx(p, st, uncon, tx).value;
    CurrentAfter(p, st, tx, ios, out.diff, slot);
    PartAfter(p, st, uncon, tx, slot);
    if slot in ios && ios[slot].consolidated.Some? { SpentIsCurrent(p, st, uncon, tx, slot); }
  }

  lemma SpentIsCurrent(p: Params, st: State, uncon: Unconsolidated, tx: Transaction, slot: Slot)
    requires FillCtips(p, st, uncon, tx).Ok? && SpendsCurrent(st, tx)
    requires var ios := FillCtips(p, st, uncon, tx).value; slot in ios && ios[slot].consolidated.Some?
    ensures CurrentValue(st.treasury, slot) == FillCtips(p, st, uncon, tx).value[slot].consolidated.value.value
  {
    FillCtipsSound(p, st, uncon, tx);
    var c := FillCtips(p, st, uncon, tx).value[slot].consolidated.value;
    assert SpendsOutpoint(tx, c.outpoint) && Find(st.treasury, c.outpoint) == Some((slot, c.value));
  }
}
