/** The validator accepts what the block producer appends: one withdrawal. */
module SuffixAccepted {
  import opened Prelude
  import opened Script
  import opened Transactions
  import opened Treasury
  import opened Ledger
  import opened Validator
  import opened TreasuryTxs
  import opened Accounting
  import BlindedM6
  import opened Suffix

  // ----- How the validator reads a suffix transaction's outputs

  /** From output `lo` on, no output is a treasury output of an active slot. */
  ghost predicate NoTreasuryFrom(p: Params, st: State, tx: Transaction, lo: nat) {
    forall v | lo <= v < |tx.outputs| ::
      match ParseTreasuryScript(p.op, tx.outputs[v].script) case None => true case Some(s) => s !in st.active
  }

  function FirstOutput(p: Params, tx: Transaction): Ctip
    requires tx.outputs != []
  {
    Ctip(OutPoint(p.txid(tx), 0), tx.outputs[0].value)
  }

  lemma {:induction false} OneTreasuryOutput(p: Params, st: State, tx: Transaction, slot: Slot, n: nat)
    requires 0 < n <= |tx.outputs| && ParseTreasuryScript(p.op, tx.outputs[0].script) == Some(slot) && slot in st.active
    requires NoTreasuryFrom(p, st, tx, 1)
    ensures FillOutputs(p, st, tx, n).Ok?
    ensures FillOutputs(p, st, tx, n).value == map[slot := SlotIo(None, [], FirstOutput(p, tx))]
  {
    if n > 1 {
      OneTreasuryOutput(p, st, tx, slot, n - 1);
    } else {
      assert FillOutputs(p, st, tx, 0) == Ok(map[]);
    }
  }

  // ----- How it reads the inputs that spend one sidechain's coins

  /** The validator knows the coins of a purse as this sidechain's: the treasury
      UTXO as recorded, the others as waiting. */
  ghost predicate KnownCoins(st: State, uncon: Unconsolidated, slot: Slot, purse: Purse) {
    && (purse.ctip.Some? ==> Find(st.treasury, purse.ctip.value.outpoint) == Some((slot, purse.ctip.value.value)))
    && (forall i | 0 <= i < |purse.waiting| :: KnownWaiting(st, uncon, slot, purse.waiting[i]))
    && DistinctOutpoints(purse.waiting)
  }

  ghost predicate KnownWaiting(st: State, uncon: Unconsolidated, slot: Slot, c: Ctip) {
    Find(st.treasury, c.outpoint).None? && c.outpoint in uncon && uncon[c.outpoint] == (slot, c.value)
  }

  /** What the first `n` coins of a purse fill in. */
  function Filled(io: SlotIo, purse: Purse, n: nat): SlotIo
    requires n <= |Coins(purse)|
  {
    if purse.ctip.None? then io.(unconsolidated := purse.waiting[..n])
    else if n == 0 then io
    else io.(consolidated := purse.ctip, unconsolidated := purse.waiting[..n - 1])
  }

  ghost predicate SpendsAt(tx: Transaction, lo: nat, coins: seq<Ctip>) {
    lo + |coins| <= |tx.inputs| && forall j | 0 <= j < |coins| :: tx.inputs[lo + j].previous == coins[j].outpoint
  }

  lemma UpdateTwice<K, V>(m: map<K, V>, k: K, a: V, b: V)
    ensures m[k := a][k := b] == m[k := b]
  {
  }

  lemma UpdateSame<K, V>(m: map<K, V>, k: K)
    requires k in m
    ensures m[k := m[k]] == m
  {
  }

  /** The next coin of a purse fills in its place. */
  lemma FillCoin(st: State, uncon: Unconsolidated, slot: Slot, purse: Purse, before: map<Slot, SlotIo>, io: SlotIo,
                 n: nat)
    requires KnownCoins(st, uncon, slot, purse) && n < |Coins(purse)|
    requires io.consolidated.None? && io.unconsolidated == []
    requires slot in before && before[slot] == Filled(io, purse, n)
    ensures FillOne(st, uncon, Coins(purse)[n].outpoint, before).Ok?
    ensures FillOne(st, uncon, Coins(purse)[n].outpoint, before).value == before[slot := Filled(io, purse, n + 1)]
  {
    var base := if purse.ctip.Some? then 1 else 0;
    if n >= base {
      var w := purse.waiting[n - base];
      assert Coins(purse)[n] == w && KnownWaiting(st, uncon, slot, w);
      assert purse.waiting[..n - base + 1] == purse.waiting[..n - base] + [w];
    }
  }

  /** A run of inputs that spends all of a purse's coins. */
  lemma {:induction false} FillPurse(st: State, uncon: Unconsolidated, tx: Transaction, ios: map<Slot, SlotIo>, lo: nat,
                                     slot: Slot, purse: Purse, n: nat)
    requires n <= |Coins(purse)| && SpendsAt(tx, lo, Coins(purse)) && KnownCoins(st, uncon, slot, purse)
    requires FillInputs(st, uncon, tx, ios, lo).Ok?
    requires var f := FillInputs(st, uncon, tx, ios, lo).value;
      slot in f && f[slot].consolidated.None? && f[slot].unconsolidated == []
    ensures var f := FillInputs(st, uncon, tx, ios, lo).value;
      && FillInputs(st, uncon, tx, ios, lo + n).Ok?
      && FillInputs(st, uncon, tx, ios, lo + n).value == f[slot := Filled(f[slot], purse, n)]
  {
    var f := FillInputs(st, uncon, tx, ios, lo).value;
    if n == 0 {
      FilledNone(f[slot], purse);
      UpdateSame(f, slot);
    } else {
      FillPurse(st, uncon, tx, ios, lo, slot, purse, n - 1);
      var before := FillInputs(st, uncon, tx, ios, lo + n - 1).value;
      FillCoin(st, uncon, slot, purse, before, f[slot], n - 1);
      UpdateTwice(f, slot, Filled(f[slot], purse, n - 1), Filled(f[slot], purse, n));
    }
  }

  lemma FilledNone(io: SlotIo, purse: Purse)
    requires io.consolidated.None? && io.unconsolidated == []
    ensures Filled(io, purse, 0) == io
  {
  }

  lemma FilledAll(io: SlotIo, purse: Purse)
    requires io.consolidated.None?
    ensures Filled(io, purse, |Coins(purse)|) == SlotIo(purse.ctip, purse.waiting, io.output)
  {
    assert purse.waiting[..|purse.waiting|] == purse.waiting;
  }

  function IoOf(purse: Purse, output: Ctip): SlotIo {
    SlotIo(purse.ctip, purse.waiting, output)
  }

  lemma ValueInIs(purse: Purse, output: Ctip)
    ensures ValueIn(IoOf(purse, output)) == PurseValue(purse)
  {
    if purse.ctip.Some? {
      TotalValueAppend([purse.ctip.value], purse.waiting);
      OneCoin(purse.ctip.value);
    } else {
      assert Coins(purse) == purse.waiting;
    }
  }

  // ----- One withdrawal

  lemma WithdrawalFilled(p: Params, st: State, uncon: Unconsolidated, tx: Transaction, slot: Slot, purse: Purse)
    requires tx.inputs == SpendAll(Coins(purse)) && tx.outputs != []
    requires ParseTreasuryScript(p.op, tx.outputs[0].script) == Some(slot) && slot in st.active
    requires NoTreasuryFrom(p, st, tx, 1) && KnownCoins(st, uncon, slot, purse)
    ensures FillCtips(p, st, uncon, tx).Ok?
    ensures FillCtips(p, st, uncon, tx).value == map[slot := IoOf(purse, FirstOutput(p, tx))]
  {
    OneTreasuryOutput(p, st, tx, slot, |tx.outputs|);
    var ios := FillOutputs(p, st, tx, |tx.outputs|).value;
    assert FillInputs(st, uncon, tx, ios, 0).Ok? && FillInputs(st, uncon, tx, ios, 0).value == ios;
    FillPurse(st, uncon, tx, ios, 0, slot, purse, |Coins(purse)|);
    FilledAll(ios[slot], purse);
  }

  /** A stored bundle that the validator can recognise once it is finalized: its
      fee script is canonical, and none of its payouts looks like a treasury
      output of an active slot. */
  ghost predicate Recognisable(p: Params, st: State, b: BlindedM6.Bundle) {
    && BlindedM6.Valid(b) && b.tx.outputs != [] && BlindedM6.CanonicalFeeScript(b)
    && NoTreasuryFrom(p, st, b.tx, 1)
  }

  /** The bundle is pending at position `i` with enough votes. */
  ghost predicate VotedAt(p: Params, st: State, slot: Slot, b: BlindedM6.Bundle, i: nat) {
    && slot in st.pending && i < |st.pending[slot]| && DistinctIds(st.pending[slot])
    && st.pending[slot][i].m6id == p.txid(b.tx) && st.pending[slot][i].votes > p.bundleThreshold
  }

  lemma FoundAt(pending: seq<Pending>, i: nat)
    requires i < |pending| && DistinctIds(pending)
    ensures FindPending(pending, pending[i].m6id) == Some(i)
  {
    FindPendingFinds(pending, pending[i].m6id);
    var found := FindPending(pending, pending[i].m6id);
    assert found.Some? && pending[found.value].m6id == pending[i].m6id;
  }

  lemma FinalizedShape(p: Params, st: State, slot: Slot, coins: seq<Ctip>, b: BlindedM6.Bundle)
    requires Recognisable(p, st, b) && b.payout + b.fee <= TotalValue(coins)
    ensures var tx := BlindedM6.Finalized(b, p.op, slot, coins);
      && tx.inputs == SpendAll(coins) && tx.outputs != [] && tx.outputs[0].value == TotalValue(coins) - b.payout - b.fee
      && ParseTreasuryScript(p.op, tx.outputs[0].script) == Some(slot) && NoTreasuryFrom(p, st, tx, 1)
  {
    var tx := BlindedM6.Finalized(b, p.op, slot, coins);
    forall v | 1 <= v < |tx.outputs| ensures tx.outputs[v] == b.tx.outputs[v] {}
  }

  lemma AllTreasuryInputs(purse: Purse, output: Ctip, tx: Transaction)
    requires tx.inputs == SpendAll(Coins(purse))
    ensures forall i | 0 <= i < |tx.inputs| :: IsTreasuryInput(IoOf(purse, output), tx.inputs[i].previous)
  {
    forall i | 0 <= i < |tx.inputs| ensures IsTreasuryInput(IoOf(purse, output), tx.inputs[i].previous) {
      var c := Coins(purse)[i];
      assert c in purse.waiting || (purse.ctip == Some(c));
    }
  }

  lemma WithdrawalChecked(p: Params, st: State, slot: Slot, purse: Purse, b: BlindedM6.Bundle, i: nat)
    requires CollisionFree(p.txid) && Recognisable(p, st, b) && VotedAt(p, st, slot, b, i)
    requires purse.ctip.Some? && b.payout + b.fee <= PurseValue(purse) <= U64_MAX
    ensures var tx := BlindedM6.Finalized(b, p.op, slot, Coins(purse));
      && tx.outputs != []
      && CheckSlot(p, st, tx, slot, IoOf(purse, FirstOutput(p, tx)))
         == Ok(Withdraws(M6(slot, FirstOutput(p, tx), i, st.pending[slot][i])))
  {
    var tx := BlindedM6.Finalized(b, p.op, slot, Coins(purse));
    FinalizedShape(p, st, slot, Coins(purse), b);
    ValueInIs(purse, FirstOutput(p, tx));
    BlindedM6.ValidBundle(b);
    AllTreasuryInputs(purse, FirstOutput(p, tx), tx);
    BlindedM6.M6idRoundTrip(p.txid, b, p.op, slot, Coins(purse));
    FoundAt(st.pending[slot], i);
  }

  lemma CombineOne(s: Slot, d: TxDiff, newCtips: map<Slot, Ctip>)
    ensures Combine(map[s := Ok(Withdraws(d))], newCtips) == Ok(Some(d))
  {
    var changes: Changes := map[s := Ok(Withdraws(d))];
    assert s in changes && changes[s] != Ok(Deposits);
    var s': Slot, d': TxDiff :| changes == map[s' := Ok(Withdraws(d'))] && Combine(changes, newCtips) == Ok(Some(d'));
    var other: Changes := map[s' := Ok(Withdraws(d'))];
    assert s in other && other[s'] == Ok(Withdraws(d'));
  }

  lemma NothingWaitsAt(p: Params, st: State, tx: Transaction, slot: Slot, io: SlotIo)
    requires io.consolidated.Some?
    ensures Waiting(p, st, tx, map[slot := io]) == map[]
  {
  }

  lemma SpentIs(slot: Slot, io: SlotIo)
    ensures SpentUnconsolidated(map[slot := io]) == Outpoints(io.unconsolidated)
  {
    var ios := map[slot := io];
    assert ios[slot] == io;
    forall o ensures o in SpentUnconsolidated(ios) <==> o in Outpoints(io.unconsolidated) {
      if o in Outpoints(io.unconsolidated) {
        var c :| c in io.unconsolidated && c.outpoint == o;
        assert slot in ios && c in ios[slot].unconsolidated;
      }
    }
  }

  /** A transaction that withdraws from one sidechain and touches no other. */
  lemma HandleWithdrawal(p: Params, st: State, uncon: Unconsolidated, tx: Transaction, slot: Slot, io: SlotIo,
                         d: TxDiff)
    requires FillCtips(p, st, uncon, tx).Ok? && FillCtips(p, st, uncon, tx).value == map[slot := io]
    requires io.consolidated.Some? && CheckSlot(p, st, tx, slot, io) == Ok(Withdraws(d))
    ensures var out := HandleTreasuryTx(p, st, uncon, tx);
      out.Ok? && out.value.diff == Some(d) && out.value.uncon == uncon - Outpoints(io.unconsolidated)
  {
    var ios := map[slot := io];
    assert CheckSlots(p, st, tx, ios) == map[slot := Ok(Withdraws(d))];
    CombineOne(slot, d, map s | s in ios && Records(st, s, ios[s]) :: ios[s].output);
    NothingWaitsAt(p, st, tx, slot, io);
    SpentIs(slot, io);
  }

  /** The validator accepts a finalized bundle, recognises it as the pending one,
      makes its output 0 the new treasury, and counts the deposits it spent as
      consolidated. */
  lemma WithdrawalAccepted(p: Params, st: State, uncon: Unconsolidated, slot: Slot, purse: Purse, b: BlindedM6.Bundle,
                           i: nat)
    requires CollisionFree(p.txid) && Recognisable(p, st, b) && VotedAt(p, st, slot, b, i)
    requires purse.ctip.Some? && b.payout + b.fee <= PurseValue(purse) <= U64_MAX
    requires slot in st.active && KnownCoins(st, uncon, slot, purse)
    ensures var tx := BlindedM6.Finalized(b, p.op, slot, Coins(purse));
      var out := HandleTreasuryTx(p, st, uncon, tx);
      && tx.outputs != [] && out.Ok?
      && out.value.diff == Some(M6(slot, FirstOutput(p, tx), i, st.pending[slot][i]))
      && out.value.uncon == uncon - Outpoints(purse.waiting)
  {
    var tx := BlindedM6.Finalized(b, p.op, slot, Coins(purse));
    FinalizedShape(p, st, slot, Coins(purse), b);
    WithdrawalFilled(p, st, uncon, tx, slot, purse);
    WithdrawalChecked(p, st, slot, purse, b, i);
    HandleWithdrawal(p, st, uncon, tx, slot, IoOf(purse, FirstOutput(p, tx)),
        M6(slot, FirstOutput(p, tx), i, st.pending[slot][i]));
  }

  // ----- Exactly when a payout is accepted

  lemma CombineRefuses(changes: Changes, s: Slot, newCtips: map<Slot, Ctip>)
    requires s in changes && changes[s].Err?
    ensures Combine(changes, newCtips).Err?
  {
    forall s': Slot, d ensures changes != map[s' := Ok(Withdraws(d))] {
      var other: Changes := map[s' := Ok(Withdraws(d))];
      assert s in other ==> other[s].Ok?;
    }
  }

  /** A withdrawal from one sidechain cannot touch another one. */
  lemma CombineRefusesTwo(changes: Changes, s: Slot, other: Slot, newCtips: map<Slot, Ctip>)
    requires s in changes && other in changes && s != other && changes[s] != Ok(Deposits)
    ensures Combine(changes, newCtips).Err?
  {
    forall s': Slot, d ensures changes != map[s' := Ok(Withdraws(d))] {
      var one: Changes := map[s' := Ok(Withdraws(d))];
      assert !(s in one && other in one);
    }
  }

  /** What a finalized bundle looks like, whatever its payouts are. */
  lemma FinalizedOutputs(p: Params, slot: Slot, coins: seq<Ctip>, b: BlindedM6.Bundle)
    requires BlindedM6.Valid(b) && b.payout + b.fee <= TotalValue(coins)
    ensures var tx := BlindedM6.Finalized(b, p.op, slot, coins);
      && tx.inputs == SpendAll(coins) && |tx.outputs| == |b.tx.outputs| > 0
      && tx.outputs[0].value == TotalValue(coins) - b.payout - b.fee < TotalValue(coins)
      && ParseTreasuryScript(p.op, tx.outputs[0].script) == Some(slot)
      && forall v | 1 <= v < |tx.outputs| :: tx.outputs[v] == b.tx.outputs[v]
  {
    BlindedM6.ValidBundle(b);
  }

  /** If the inputs and outputs can be read at all, the sidechain's own entry is
      the purse and output 0. */
  lemma OwnEntry(p: Params, st: State, uncon: Unconsolidated, tx: Transaction, slot: Slot, purse: Purse)
    requires tx.inputs == SpendAll(Coins(purse)) && tx.outputs != []
    requires ParseTreasuryScript(p.op, tx.outputs[0].script) == Some(slot) && slot in st.active
    requires KnownCoins(st, uncon, slot, purse) && FillCtips(p, st, uncon, tx).Ok?
    ensures var ios := FillCtips(p, st, uncon, tx).value;
      slot in ios && ios[slot] == IoOf(purse, FirstOutput(p, tx))
  {
    FillOutputsSound(p, st, tx, |tx.outputs|);
    var ios := FillOutputs(p, st, tx, |tx.outputs|).value;
    assert slot in ios && ios[slot].output.outpoint.vout == 0;
    assert SoundOutput(p, tx, slot, ios[slot].output);
    assert FillInputs(st, uncon, tx, ios, 0).Ok? && FillInputs(st, uncon, tx, ios, 0).value == ios;
    FillPurse(st, uncon, tx, ios, 0, slot, purse, |Coins(purse)|);
    FilledAll(ios[slot], purse);
  }

  /** A payout to an active sidechain's treasury script is refused: it is a second
      treasury output, or makes the withdrawal touch a second sidechain. */
  lemma TreasuryPayoutRefused(p: Params, st: State, uncon: Unconsolidated, slot: Slot, purse: Purse,
                              b: BlindedM6.Bundle)
    requires BlindedM6.Valid(b) && !NoTreasuryFrom(p, st, b.tx, 1)
    requires b.payout + b.fee <= PurseValue(purse)
    requires slot in st.active && KnownCoins(st, uncon, slot, purse)
    ensures HandleTreasuryTx(p, st, uncon, BlindedM6.Finalized(b, p.op, slot, Coins(purse))).Err?
  {
    var tx := BlindedM6.Finalized(b, p.op, slot, Coins(purse));
    FinalizedOutputs(p, slot, Coins(purse), b);
    var v :| 1 <= v < |b.tx.outputs| && ParseTreasuryScript(p.op, b.tx.outputs[v].script).Some?
      && ParseTreasuryScript(p.op, b.tx.outputs[v].script).value in st.active;
    var other := ParseTreasuryScript(p.op, tx.outputs[v].script).value;
    if FillCtips(p, st, uncon, tx).Ok? {
      OwnEntry(p, st, uncon, tx, slot, purse);
      OutputEntry(p, st, uncon, tx, v, other);
      ValueInIs(purse, FirstOutput(p, tx));
      WithdrawsAlone(p, st, uncon, tx, slot, other);
    }
  }

  lemma OutputEntry(p: Params, st: State, uncon: Unconsolidated, tx: Transaction, v: nat, s: Slot)
    requires FillCtips(p, st, uncon, tx).Ok?
    requires v < |tx.outputs| && ParseTreasuryScript(p.op, tx.outputs[v].script) == Some(s) && s in st.active
    ensures var ios := FillCtips(p, st, uncon, tx).value;
      s in ios && ios[s].output.outpoint.vout == v
  {
    FillCtipsSound(p, st, uncon, tx);
  }

  lemma WithdrawsAlone(p: Params, st: State, uncon: Unconsolidated, tx: Transaction, slot: Slot, other: Slot)
    requires FillCtips(p, st, uncon, tx).Ok?
    requires var ios := FillCtips(p, st, uncon, tx).value;
      slot in ios && other in ios && slot != other && ios[slot].output.value < ValueIn(ios[slot])
    ensures HandleTreasuryTx(p, st, uncon, tx).Err?
  {
    var ios := FillCtips(p, st, uncon, tx).value;
    CombineRefusesTwo(CheckSlots(p, st, tx, ios), slot, other, map s | s in ios && Records(st, s, ios[s]) ::
        ios[s].output);
  }

  /** Some pending bundle with this id has the votes. */
  ghost predicate VotedId(p: Params, st: State, slot: Slot, id: Txid) {
    slot in st.pending &&
    exists i | 0 <= i < |st.pending[slot]| ::
        st.pending[slot][i].m6id == id && st.pending[slot][i].votes > p.bundleThreshold
  }

  /** The check of a withdrawal, by the id that its transaction reblinds to. */
  lemma CheckedById(p: Params, st: State, slot: Slot, purse: Purse, b: BlindedM6.Bundle)
    requires BlindedM6.Valid(b) && purse.ctip.Some? && b.payout + b.fee <= PurseValue(purse) <= U64_MAX
    requires slot in st.pending && DistinctIds(st.pending[slot])
    ensures var tx := BlindedM6.Finalized(b, p.op, slot, Coins(purse));
      var r := CheckSlot(p, st, tx, slot, IoOf(purse, FirstOutput(p, tx)));
      && (r.Ok? <==> VotedId(p, st, slot, p.txid(BlindedM6.Reblinded(b))))
      && (r.Ok? ==> r.value.Withdraws?)
  {
    var tx := BlindedM6.Finalized(b, p.op, slot, Coins(purse));
    FinalizedOutputs(p, slot, Coins(purse), b);
    ValueInIs(purse, FirstOutput(p, tx));
    AllTreasuryInputs(purse, FirstOutput(p, tx), tx);
    BlindedM6.BlindFinalized(b, p.op, slot, Coins(purse));
    VotedIsFound(p, st, slot, p.txid(BlindedM6.Reblinded(b)));
  }

  lemma VotedIsFound(p: Params, st: State, slot: Slot, id: Txid)
    requires slot in st.pending && DistinctIds(st.pending[slot])
    ensures var found := FindPending(st.pending[slot], id);
      && (found.Some? ==> found.value < |st.pending[slot]|)
      && (VotedId(p, st, slot, id) <==> found.Some? && st.pending[slot][found.value].votes > p.bundleThreshold)
  {
    FindPendingFinds(st.pending[slot], id);
    if VotedId(p, st, slot, id) {
      var i :| 0 <= i < |st.pending[slot]| && st.pending[slot][i].m6id == id
          && st.pending[slot][i].votes > p.bundleThreshold;
      FoundAt(st.pending[slot], i);
    }
  }

  /** The validator accepts a finalized bundle exactly when none of its payouts is
      a treasury output of an active slot, and the transaction with a canonical
      fee output is pending with enough votes. For a bundle whose fee push is
      canonical, that is the bundle itself. */
  lemma PayoutAcceptedExactly(p: Params, st: State, uncon: Unconsolidated, slot: Slot, purse: Purse,
                              b: BlindedM6.Bundle)
    requires BlindedM6.Valid(b) && purse.ctip.Some? && b.payout + b.fee <= PurseValue(purse) <= U64_MAX
    requires slot in st.active && slot in st.pending && DistinctIds(st.pending[slot])
        && KnownCoins(st, uncon, slot, purse)
    ensures HandleTreasuryTx(p, st, uncon, BlindedM6.Finalized(b, p.op, slot, Coins(purse))).Ok?
       <==> NoTreasuryFrom(p, st, b.tx, 1) && VotedId(p, st, slot, p.txid(BlindedM6.Reblinded(b)))
    ensures BlindedM6.CanonicalFeeScript(b) <==> BlindedM6.Reblinded(b) == b.tx
  {
    BlindedM6.ValidBundle(b);
    CanonicalReblinds(b);
    if !NoTreasuryFrom(p, st, b.tx, 1) {
      TreasuryPayoutRefused(p, st, uncon, slot, purse, b);
    } else {
      var tx := BlindedM6.Finalized(b, p.op, slot, Coins(purse));
      FinalizedOutputs(p, slot, Coins(purse), b);
      WithdrawalFilled(p, st, uncon, tx, slot, purse);
      CheckedById(p, st, slot, purse, b);
      DecidedByCheck(p, st, uncon, tx, slot, IoOf(purse, FirstOutput(p, tx)));
    }
  }

  lemma CanonicalReblinds(b: BlindedM6.Bundle)
    requires BlindedM6.Valid(b)
    ensures b.tx.outputs != [] && (BlindedM6.CanonicalFeeScript(b) <==> BlindedM6.Reblinded(b) == b.tx)
  {
    BlindedM6.ValidBundle(b);
    assert b.tx.outputs == [b.tx.outputs[0]] + b.tx.outputs[1..];
    assert BlindedM6.Reblinded(b).outputs[0] == BlindedM6.FeeOutput(b.fee);
  }

  lemma DecidedByCheck(p: Params, st: State, uncon: Unconsolidated, tx: Transaction, slot: Slot, io: SlotIo)
    requires FillCtips(p, st, uncon, tx).Ok? && FillCtips(p, st, uncon, tx).value == map[slot := io]
    requires io.consolidated.Some? && (CheckSlot(p, st, tx, slot, io).Ok? ==>
        CheckSlot(p, st, tx, slot, io).value.Withdraws?)
    ensures HandleTreasuryTx(p, st, uncon, tx).Ok? <==> CheckSlot(p, st, tx, slot, io).Ok?
  {
    var ios := map[slot := io];
    if CheckSlot(p, st, tx, slot, io).Ok? {
      HandleWithdrawal(p, st, uncon, tx, slot, io, CheckSlot(p, st, tx, slot, io).value.diff);
    } else {
      CombineRefuses(CheckSlots(p, st, tx, ios), slot, map s | s in ios && Records(st, s, ios[s]) :: ios[s].output);
    }
  }

  /** A bundle whose fee push is not canonical passes for a bundle everywhere
      else, but once it is finalized the validator refuses it, unless its
      canonical twin is pending with the votes. */
  lemma NonCanonicalRefused(p: Params, st: State, uncon: Unconsolidated, slot: Slot, purse: Purse, b: BlindedM6.Bundle)
    requires BlindedM6.Valid(b) && purse.ctip.Some? && b.payout + b.fee <= PurseValue(purse) <= U64_MAX
    requires slot in st.active && slot in st.pending && DistinctIds(st.pending[slot])
        && KnownCoins(st, uncon, slot, purse)
    requires b.tx.outputs != [] && !BlindedM6.CanonicalFeeScript(b)
        && !VotedId(p, st, slot, p.txid(BlindedM6.Reblinded(b)))
    ensures HandleTreasuryTx(p, st, uncon, BlindedM6.Finalized(b, p.op, slot, Coins(purse))).Err?
  {
    PayoutAcceptedExactly(p, st, uncon, slot, purse, b);
  }
}
