/** The consolidation is accepted too, and with it the whole suffix: every
    sidechain ends with one treasury output, which holds what it had less what
    it paid out. */
module SuffixEnd {
  import opened Prelude
  import opened Runs
  import opened Script
  import opened Transactions
  import opened Treasury
  import opened Ledger
  import opened Validator
  import opened TreasuryTxs
  import opened Accounting
  import opened Blocks
  import opened Suffix
  import opened SuffixAccepted
  import opened SuffixRun
  import opened SuffixTheorem

  // ----- How the validator reads the consolidation

  function OutputAt(p: Params, tx: Transaction, i: nat): Ctip
    requires i < |tx.outputs|
  {
    Ctip(OutPoint(p.txid(tx), i), tx.outputs[i].value)
  }

  /** The first `n` sidechains in `order` have their coins filled in, the next
      ones up to `m` only their outputs. */
  ghost predicate FilledTo(p: Params, tx: Transaction, left: Slot -> Purse, order: seq<Slot>, n: nat, m: nat,
                           ios: map<Slot, SlotIo>)
    requires n <= m <= |order| && |order| == |tx.outputs|
  {
    && (forall s: Slot :: s in ios <==> s in order[..m])
    && (forall i | 0 <= i < m :: order[i] in ios && ios[order[i]] == FilledIo(p, tx, left, order, n, i))
  }

  ghost function FilledIo(p: Params, tx: Transaction, left: Slot -> Purse, order: seq<Slot>, n: nat, i: nat): SlotIo
    requires i < |order| == |tx.outputs|
  {
    if i < n then IoOf(left(order[i]), OutputAt(p, tx, i)) else SlotIo(None, [], OutputAt(p, tx, i))
  }

  ghost predicate TreasuryOutputs(p: Params, st: State, tx: Transaction, order: seq<Slot>) {
    && |tx.outputs| == |order| && Distinct(order)
    && forall i | 0 <= i < |order| :: order[i] in st.active
        && ParseTreasuryScript(p.op, tx.outputs[i].script) == Some(order[i])
  }

  lemma {:induction false} OutputsFilled(p: Params, st: State, tx: Transaction, left: Slot -> Purse, order: seq<Slot>,
                                         m: nat)
    requires TreasuryOutputs(p, st, tx, order) && m <= |order|
    ensures FillOutputs(p, st, tx, m).Ok? && FilledTo(p, tx, left, order, 0, m, FillOutputs(p, st, tx, m).value)
  {
    if m > 0 {
      OutputsFilled(p, st, tx, left, order, m - 1);
      OutputFilled(p, tx, left, order, m - 1, FillOutputs(p, st, tx, m - 1).value);
      NextOutput(p, st, tx, m, order[m - 1]);
    }
  }

  lemma NextOutput(p: Params, st: State, tx: Transaction, m: nat, s: Slot)
    requires 0 < m <= |tx.outputs| && FillOutputs(p, st, tx, m - 1).Ok? && s !in FillOutputs(p, st, tx, m - 1).value
    requires s in st.active && ParseTreasuryScript(p.op, tx.outputs[m - 1].script) == Some(s)
    ensures FillOutputs(p, st, tx, m).Ok?
    ensures FillOutputs(p, st, tx, m).value == FillOutputs(p, st, tx,
        m - 1).value[s := SlotIo(None, [], OutputAt(p, tx, m - 1))]
  {
  }

  lemma OutputFilled(p: Params, tx: Transaction, left: Slot -> Purse, order: seq<Slot>, m: nat, ios: map<Slot, SlotIo>)
    requires m < |order| == |tx.outputs| && Distinct(order) && FilledTo(p, tx, left, order, 0, m, ios)
    ensures order[m] !in ios
    ensures FilledTo(p, tx, left, order, 0, m + 1, ios[order[m] := SlotIo(None, [], OutputAt(p, tx, m))])
  {
    assert order[..m + 1] == order[..m] + [order[m]];
  }

  lemma CoinsPrefix(left: Slot -> Purse, order: seq<Slot>, k: nat)
    requires k < |order|
    ensures ConsolidationCoins(left, order[..k + 1]) == ConsolidationCoins(left, order[..k]) + Coins(left(order[k]))
  {
    assert order[..k + 1][..k] == order[..k];
  }

  lemma {:induction false} CoinsGrow(left: Slot -> Purse, order: seq<Slot>, k: nat, n: nat)
    requires k <= n <= |order|
    ensures ConsolidationCoins(left, order[..k]) <= ConsolidationCoins(left, order[..n])
  {
    if k < n {
      CoinsGrow(left, order, k, n - 1);
      CoinsPrefix(left, order, n - 1);
    }
  }

  /** Where the coins of the `k`-th sidechain are spent. */
  lemma SpendsPurse(tx: Transaction, left: Slot -> Purse, order: seq<Slot>, k: nat)
    requires k < |order| && tx.inputs == SpendAll(ConsolidationCoins(left, order))
    ensures SpendsAt(tx, |ConsolidationCoins(left, order[..k])|, Coins(left(order[k])))
    ensures |ConsolidationCoins(left, order[..k + 1])| == |ConsolidationCoins(left, order[..k])|
        + |Coins(left(order[k]))| <= |tx.inputs|
  {
    CoinsPrefix(left, order, k);
    CoinsGrow(left, order, k + 1, |order|);
    assert order[..|order|] == order;
    var before, upTo, all := ConsolidationCoins(left, order[..k]), ConsolidationCoins(left, order[..k + 1]),
        ConsolidationCoins(left, order);
    forall j | 0 <= j < |Coins(left(order[k]))|
        ensures tx.inputs[|before| + j].previous == Coins(left(order[k]))[j].outpoint {
      assert all[|before| + j] == upTo[|before| + j] == Coins(left(order[k]))[j];
    }
  }

  lemma FilledMore(p: Params, tx: Transaction, left: Slot -> Purse, order: seq<Slot>, k: nat, ios: map<Slot, SlotIo>,
                   ios': map<Slot, SlotIo>)
    requires k < |order| == |tx.outputs| && Distinct(order) && FilledTo(p, tx, left, order, k, |order|, ios)
    requires ios' == ios[order[k] := IoOf(left(order[k]), OutputAt(p, tx, k))]
    ensures FilledTo(p, tx, left, order, k + 1, |order|, ios')
  {
    assert order[..|order|] == order;
    forall i | 0 <= i < |order| ensures order[i] in ios' && ios'[order[i]] == FilledIo(p, tx, left, order, k + 1, i) {
      assert ios[order[i]] == FilledIo(p, tx, left, order, k, i);
    }
  }

  /** Once the inputs of the first `k` sidechains are read. */
  ghost predicate InputsFilled(p: Params, st: State, uncon: Unconsolidated, tx: Transaction, left: Slot -> Purse,
                               order: seq<Slot>, ios: map<Slot, SlotIo>, k: nat)
    requires k <= |order| == |tx.outputs|
  {
    var n := |ConsolidationCoins(left, order[..k])|;
    && n <= |tx.inputs| && FillInputs(st, uncon, tx, ios, n).Ok?
    && FilledTo(p, tx, left, order, k, |order|, FillInputs(st, uncon, tx, ios, n).value)
  }

  lemma FillPurseAll(st: State, uncon: Unconsolidated, tx: Transaction, ios: map<Slot, SlotIo>, lo: nat, slot: Slot,
                     purse: Purse)
    requires SpendsAt(tx, lo, Coins(purse)) && KnownCoins(st, uncon, slot, purse)
        && FillInputs(st, uncon, tx, ios, lo).Ok?
    requires var f := FillInputs(st, uncon, tx, ios, lo).value;
      slot in f && f[slot].consolidated.None? && f[slot].unconsolidated == []
    ensures var f := FillInputs(st, uncon, tx, ios, lo).value;
      && FillInputs(st, uncon, tx, ios, lo + |Coins(purse)|).Ok?
      && FillInputs(st, uncon, tx, ios, lo + |Coins(purse)|).value == f[slot := IoOf(purse, f[slot].output)]
  {
    FillPurse(st, uncon, tx, ios, lo, slot, purse, |Coins(purse)|);
    FilledAll(FillInputs(st, uncon, tx, ios, lo).value[slot], purse);
  }

  lemma InputsFilledStep(p: Params, st: State, uncon: Unconsolidated, tx: Transaction, left: Slot -> Purse,
                         order: seq<Slot>, ios: map<Slot, SlotIo>, k: nat)
    requires k < |order| == |tx.outputs| && Distinct(order) && tx.inputs == SpendAll(ConsolidationCoins(left, order))
    requires InputsFilled(p, st, uncon, tx, left, order, ios, k)
    requires KnownCoins(st, uncon, order[k], left(order[k]))
    ensures InputsFilled(p, st, uncon, tx, left, order, ios, k + 1)
  {
    var n := |ConsolidationCoins(left, order[..k])|;
    SpendsPurse(tx, left, order, k);
    PurseFilled(p, st, uncon, tx, left, order, ios, k, n, |ConsolidationCoins(left, order[..k + 1])|);
  }

  lemma NextIsUnfilled(p: Params, tx: Transaction, left: Slot -> Purse, order: seq<Slot>, k: nat,
                       ios: map<Slot, SlotIo>)
    requires k < |order| == |tx.outputs| && FilledTo(p, tx, left, order, k, |order|, ios)
    ensures order[k] in ios && ios[order[k]] == SlotIo(None, [], OutputAt(p, tx, k))
  {
    assert ios[order[k]] == FilledIo(p, tx, left, order, k, k);
  }

  /** The inputs from `n` to `m` spend the coins of the `k`-th sidechain. */
  lemma PurseFilled(p: Params, st: State, uncon: Unconsolidated, tx: Transaction, left: Slot -> Purse, order: seq<Slot>,
                    ios: map<Slot, SlotIo>, k: nat, n: nat, m: nat)
    requires k < |order| == |tx.outputs| && Distinct(order)
    requires m == n + |Coins(left(order[k]))| <= |tx.inputs| && SpendsAt(tx, n, Coins(left(order[k])))
    requires FillInputs(st, uncon, tx, ios, n).Ok?
        && FilledTo(p, tx, left, order, k, |order|, FillInputs(st, uncon, tx, ios, n).value)
    requires KnownCoins(st, uncon, order[k], left(order[k]))
    ensures FillInputs(st, uncon, tx, ios, m).Ok?
        && FilledTo(p, tx, left, order, k + 1, |order|, FillInputs(st, uncon, tx, ios, m).value)
  {
    var f := FillInputs(st, uncon, tx, ios, n).value;
    NextIsUnfilled(p, tx, left, order, k, f);
    FillPurseAll(st, uncon, tx, ios, n, order[k], left(order[k]));
    FilledMore(p, tx, left, order, k, f, FillInputs(st, uncon, tx, ios, m).value);
  }

  lemma {:induction false} InputsFilledAll(p: Params, st: State, uncon: Unconsolidated, tx: Transaction,
                                           left: Slot -> Purse, order: seq<Slot>, ios: map<Slot, SlotIo>, k: nat)
    requires k <= |order| == |tx.outputs| && Distinct(order) && tx.inputs == SpendAll(ConsolidationCoins(left, order))
    requires InputsFilled(p, st, uncon, tx, left, order, ios, 0)
    requires forall i | 0 <= i < |order| :: KnownCoins(st, uncon, order[i], left(order[i]))
    ensures InputsFilled(p, st, uncon, tx, left, order, ios, k)
  {
    if k > 0 {
      InputsFilledAll(p, st, uncon, tx, left, order, ios, k - 1);
      InputsFilledStep(p, st, uncon, tx, left, order, ios, k - 1);
    }
  }

  lemma InputsFilledStart(p: Params, st: State, uncon: Unconsolidated, tx: Transaction, left: Slot -> Purse,
                          order: seq<Slot>, ios: map<Slot, SlotIo>)
    requires |order| == |tx.outputs| && FilledTo(p, tx, left, order, 0, |order|, ios)
    ensures InputsFilled(p, st, uncon, tx, left, order, ios, 0)
  {
    assert ConsolidationCoins(left, order[..0]) == [];
  }

  // ----- What it decides

  lemma ConsolidationShape(p: Params, left: Slot -> Purse, order: seq<Slot>, i: nat)
    requires i < |order|
    ensures var tx := ConsolidationTx(p.op, left, order);
      tx.outputs[i].value == PurseValue(left(order[i]))
          && ParseTreasuryScript(p.op, tx.outputs[i].script) == Some(order[i])
  {
  }

  /** A transaction that gives every sidechain it touches what it had, and
      gathers deposits for each, consolidates. */
  lemma ConsolidationChecked(p: Params, st: State, tx: Transaction, s: Slot, purse: Purse, output: Ctip)
    requires output.value == PurseValue(purse) && purse.waiting != []
    ensures CheckSlot(p, st, tx, s, IoOf(purse, output)) == Ok(Deposits)
  {
    ValueInIs(purse, output);
  }

  ghost predicate Consolidates(st: State, order: seq<Slot>, left: Slot -> Purse) {
    forall i | 0 <= i < |order| :: left(order[i]).ctip.Some? && left(order[i]).waiting != []
  }

  lemma AllDeposit(p: Params, st: State, tx: Transaction, left: Slot -> Purse, order: seq<Slot>, ios: map<Slot, SlotIo>)
    requires tx == ConsolidationTx(p.op, left, order) && order != [] && Consolidates(st, order, left)
    requires FilledTo(p, tx, left, order, |order|, |order|, ios)
    ensures forall s | s in ios :: CheckSlot(p, st, tx, s, ios[s]) == Ok(Deposits) && Records(st, s, ios[s])
    ensures CheckSlots(p, st, tx, ios) != map[]
  {
    assert order[..|order|] == order;
    forall s | s in ios ensures CheckSlot(p, st, tx, s, ios[s]) == Ok(Deposits) && Records(st, s, ios[s]) {
      var i :| 0 <= i < |order| && order[i] == s;
      assert ios[s] == FilledIo(p, tx, left, order, |order|, i);
      ConsolidationShape(p, left, order, i);
      ConsolidationChecked(p, st, tx, s, left(s), OutputAt(p, tx, i));
    }
    assert order[0] in CheckSlots(p, st, tx, ios);
  }

  lemma CombineDeposits(changes: Changes, newCtips: map<Slot, Ctip>)
    requires changes != map[] && forall s | s in changes :: changes[s] == Ok(Deposits)
    ensures Combine(changes, newCtips) == Ok(Some(M5(newCtips)))
  {
  }

  lemma NoneWait(p: Params, st: State, tx: Transaction, ios: map<Slot, SlotIo>)
    requires forall s | s in ios :: Records(st, s, ios[s])
    ensures Waiting(p, st, tx, ios) == map[]
  {
  }

  lemma AllSpent(uncon: Unconsolidated, left: Slot -> Purse, ios: map<Slot, SlotIo>)
    requires forall o | o in uncon :: uncon[o].0 in ios && o in Outpoints(ios[uncon[o].0].unconsolidated)
    ensures uncon - SpentUnconsolidated(ios) == map[]
  {
    forall o | o in uncon ensures o in SpentUnconsolidated(ios) {
      var s := uncon[o].0;
      var c :| c in ios[s].unconsolidated && c.outpoint == o;
      assert s in ios && c in ios[s].unconsolidated;
    }
  }

  /** Every waiting deposit belongs to a sidechain that the consolidation
      serves. */
  ghost predicate Covers(uncon: Unconsolidated, left: Slot -> Purse, order: seq<Slot>) {
    forall o | o in uncon :: uncon[o].0 in order && o in Outpoints(left(uncon[o].0).waiting)
  }

  lemma ConsolidationAccepted(p: Params, st: State, uncon: Unconsolidated, left: Slot -> Purse, order: seq<Slot>)
    requires order != [] && Distinct(order) && Consolidates(st, order, left) && Covers(uncon, left, order)
    requires forall i | 0 <= i < |order| :: order[i] in st.active && KnownCoins(st, uncon, order[i], left(order[i]))
    ensures var tx := ConsolidationTx(p.op, left, order);
      var out := HandleTreasuryTx(p, st, uncon, tx);
      && out.Ok? && out.value.uncon == map[] && out.value.diff.Some? && out.value.diff.value.M5?
      && NewTreasuries(left, order, out.value.diff.value.newCtips)
  {
    var tx := ConsolidationTx(p.op, left, order);
    ConsolidationFilled(p, st, uncon, left, order);
    var ios := FillCtips(p, st, uncon, tx).value;
    AllDeposit(p, st, tx, left, order, ios);
    CoversAll(p, uncon, tx, left, order, ios);
    HandleDeposits(p, st, uncon, tx);
    NewTreasuriesAre(p, st, tx, left, order, ios);
  }

  lemma CoversAll(p: Params, uncon: Unconsolidated, tx: Transaction, left: Slot -> Purse, order: seq<Slot>,
                  ios: map<Slot, SlotIo>)
    requires tx == ConsolidationTx(p.op, left, order) && FilledTo(p, tx, left, order, |order|, |order|, ios)
        && Covers(uncon, left, order)
    ensures uncon - SpentUnconsolidated(ios) == map[]
  {
    forall o | o in uncon ensures uncon[o].0 in ios && o in Outpoints(ios[uncon[o].0].unconsolidated) {
      FilledAt(p, tx, left, order, ios, uncon[o].0);
    }
    AllSpent(uncon, left, ios);
  }

  ghost function Recordings(st: State, ios: map<Slot, SlotIo>): map<Slot, Ctip> {
    map s | s in ios && Records(st, s, ios[s]) :: ios[s].output
  }

  /** A transaction that only consolidates, and consolidates everything. */
  lemma HandleDeposits(p: Params, st: State, uncon: Unconsolidated, tx: Transaction)
    requires FillCtips(p, st, uncon, tx).Ok?
    requires var ios := FillCtips(p, st, uncon, tx).value;
      && (forall s | s in ios :: CheckSlot(p, st, tx, s, ios[s]) == Ok(Deposits) && Records(st, s, ios[s]))
      && CheckSlots(p, st, tx, ios) != map[] && uncon - SpentUnconsolidated(ios) == map[]
    ensures var out := HandleTreasuryTx(p, st, uncon, tx);
      out.Ok? && out.value.uncon == map[] && out.value.diff
          == Some(M5(Recordings(st, FillCtips(p, st, uncon, tx).value)))
  {
    var ios := FillCtips(p, st, uncon, tx).value;
    CombineDeposits(CheckSlots(p, st, tx, ios), Recordings(st, ios));
    NoneWait(p, st, tx, ios);
  }

  lemma NewTreasuriesAre(p: Params, st: State, tx: Transaction, left: Slot -> Purse, order: seq<Slot>,
                         ios: map<Slot, SlotIo>)
    requires tx == ConsolidationTx(p.op, left, order) && FilledTo(p, tx, left, order, |order|, |order|, ios)
    requires forall s | s in ios :: Records(st, s, ios[s])
    ensures NewTreasuries(left, order, Recordings(st, ios))
  {
    assert order[..|order|] == order;
    forall s: Slot ensures (s in Recordings(st, ios) <==> s in order)
        && (s in order ==> Recordings(st, ios)[s].value == PurseValue(left(s))) {
      if s in order { FilledAt(p, tx, left, order, ios, s); }
    }
  }

  ghost predicate NewTreasuries(left: Slot -> Purse, order: seq<Slot>, newCtips: map<Slot, Ctip>) {
    forall s: Slot :: (s in newCtips <==> s in order) && (s in order ==> newCtips[s].value == PurseValue(left(s)))
  }

  lemma FilledAt(p: Params, tx: Transaction, left: Slot -> Purse, order: seq<Slot>, ios: map<Slot, SlotIo>, s: Slot)
    requires tx == ConsolidationTx(p.op, left, order) && FilledTo(p, tx, left, order, |order|, |order|, ios)
        && s in order
    ensures s in ios && ios[s].unconsolidated == left(s).waiting && ios[s].output.value == PurseValue(left(s))
  {
    var i :| 0 <= i < |order| && order[i] == s;
    assert ios[order[i]] == FilledIo(p, tx, left, order, |order|, i);
    ConsolidationShape(p, left, order, i);
  }

  lemma ConsolidationFilled(p: Params, st: State, uncon: Unconsolidated, left: Slot -> Purse, order: seq<Slot>)
    requires Distinct(order)
    requires forall i | 0 <= i < |order| :: order[i] in st.active && KnownCoins(st, uncon, order[i], left(order[i]))
    ensures var tx := ConsolidationTx(p.op, left, order);
      && FillCtips(p, st, uncon, tx).Ok?
      && FilledTo(p, tx, left, order, |order|, |order|, FillCtips(p, st, uncon, tx).value)
  {
    var tx := ConsolidationTx(p.op, left, order);
    assert TreasuryOutputs(p, st, tx, order);
    OutputsFilled(p, st, tx, left, order, |order|);
    CtipsFilled(p, st, uncon, tx, left, order);
  }

  lemma CtipsFilled(p: Params, st: State, uncon: Unconsolidated, tx: Transaction, left: Slot -> Purse, order: seq<Slot>)
    requires |order| == |tx.outputs| && Distinct(order) && tx.inputs == SpendAll(ConsolidationCoins(left, order))
    requires FillOutputs(p, st, tx, |order|).Ok?
    requires FilledTo(p, tx, left, order, 0, |order|, FillOutputs(p, st, tx, |order|).value)
    requires forall i | 0 <= i < |order| :: KnownCoins(st, uncon, order[i], left(order[i]))
    ensures FillCtips(p, st, uncon, tx).Ok?
    ensures FilledTo(p, tx, left, order, |order|, |order|, FillCtips(p, st, uncon, tx).value)
  {
    InputsFilledStart(p, st, uncon, tx, left, order, FillOutputs(p, st, tx, |order|).value);
    InputsFilledAll(p, st, uncon, tx, left, order, FillOutputs(p, st, tx, |order|).value, |order|);
    assert order[..|order|] == order;
  }

  // ----- The whole suffix

  ghost function ContextOf(p: Params, accepted: map<Slot, Bytes>, parent: Bytes, base: Stacks, waiting: set<OutPoint>)
    : Context {
    Context(p, TxStepper(p, accepted, parent),
            (at: TxProgress, ctips: Ctips) => Inv(p, base, waiting, at, ctips),
            (st: State, slot: Slot, cands: seq<Candidate>, n: nat) => Ready(p, st, slot, cands, n),
            (st: State, st': State, slot: Slot) => OnlyPending(st, st', slot),
            (tx: Transaction) => NewId(base, waiting, p.txid(tx)))
  }

  lemma ReadyElsewhere(p: Params, st: State, st': State, slot: Slot, s: Slot, cands: seq<Candidate>)
    requires Ready(p, st, s, cands, 0) && OnlyPending(st, st', slot) && s != slot
    ensures Ready(p, st', s, cands, 0)
  {
    forall i | 0 <= i < |cands| && Suffix.Approved(p, cands[i])
      ensures Recognisable(p, st', cands[i].bundle) && HasVotes(p, st', s, cands[i].bundle)
    {
      assert Recognisable(p, st, cands[i].bundle) && HasVotes(p, st, s, cands[i].bundle);
      var k: nat :| VotedAt(p, st, s, cands[i].bundle, k);
      assert VotedAt(p, st', s, cands[i].bundle, k);
    }
  }

  lemma ContextPays(p: Params, accepted: map<Slot, Bytes>, parent: Bytes, base: Stacks, waiting: set<OutPoint>,
                    at: TxProgress, ctips: Ctips, slot: Slot, cands: seq<Candidate>, n: nat)
    requires CollisionFree(p.txid) && CanPay(ContextOf(p, accepted, parent, base, waiting), at, ctips, slot, cands, n)
    ensures Pays(ContextOf(p, accepted, parent, base, waiting), at, ctips, slot, cands, n)
  {
    assert Recognisable(p, at.st, cands[n].bundle);
    PayoutAccepted(p, accepted, parent, base, waiting, at, ctips, slot, cands, n);
  }

  lemma ContextReady(p: Params, accepted: map<Slot, Bytes>, parent: Bytes, base: Stacks, waiting: set<OutPoint>)
    ensures var x := ContextOf(p, accepted, parent, base, waiting);
      && (forall st, slot, cands, n: nat | x.ready(st, slot, cands, n) && n < |cands| ::
            x.ready(st, slot, cands, n + 1))
      && (forall st, st', slot, s, cands | x.moved(st, st', slot) && x.ready(st, s, cands, 0) && s != slot ::
            x.ready(st', s, cands, 0))
  {
    var x := ContextOf(p, accepted, parent, base, waiting);
    forall st, st', slot, s, cands | x.moved(st, st', slot) && x.ready(st, s, cands, 0) && s != slot
      ensures x.ready(st', s, cands, 0)
    {
      ReadyElsewhere(p, st, st', slot, s, cands);
    }
  }

  lemma ValidatorAcceptsPayouts(p: Params, accepted: map<Slot, Bytes>, parent: Bytes, base: Stacks,
                                waiting: set<OutPoint>)
    requires CollisionFree(p.txid)
    ensures AcceptsPayouts(ContextOf(p, accepted, parent, base, waiting))
  {
    var x := ContextOf(p, accepted, parent, base, waiting);
    forall at, ctips, slot, cands, n | CanPay(x, at, ctips, slot, cands, n) ensures Pays(x, at, ctips, slot, cands, n) {
      ContextPays(p, accepted, parent, base, waiting, at, ctips, slot, cands, n);
    }
    ContextReady(p, accepted, parent, base, waiting);
  }

  /** Before the suffix: the producer knows the validator's treasuries, every
      bundle it would pay is ready, and the payouts have new ids. */
  ghost predicate SuffixReady(p: Params, at: TxProgress, proposals: Proposals, ctips: Ctips) {
    && CollisionFree(p.txid) && Mirror(at.st, at.uncon, ctips) && Amounts(ctips)
    && (forall s | s in proposals :: Ready(p, at.st, s, proposals[s], 0))
    && (forall s | s in proposals :: PayoutsNew(p, at, SlotResult(p, proposals, ctips, s).payments))
  }

  ghost predicate PayoutsNew(p: Params, at: TxProgress, payments: seq<Payment>) {
    forall i | 0 <= i < |payments| :: NewId(at.st.treasury, at.uncon.Keys, p.txid(payments[i].tx))
  }

  lemma PayoutsAccepted(p: Params, accepted: map<Slot, Bytes>, parent: Bytes, at: TxProgress, proposals: Proposals,
                        ctips: Ctips, order: seq<Slot>)
    requires SuffixReady(p, at, proposals, ctips) && Lists(order, proposals.Keys)
    ensures OrderOk(ContextOf(p, accepted, parent, at.st.treasury, at.uncon.Keys), at, proposals, ctips, order)
  {
    var x := ContextOf(p, accepted, parent, at.st.treasury, at.uncon.Keys);
    ValidatorAcceptsPayouts(p, accepted, parent, at.st.treasury, at.uncon.Keys);
    forall i | 0 <= i < |order| ensures order[i] in proposals
        && AllNew(x, SlotResult(x.p, proposals, ctips, order[i]).payments) {
      assert order[i] in order;
      assert PayoutsNew(p, at, SlotResult(p, proposals, ctips, order[i]).payments);
    }
    OrderAccepted(x, at, proposals, ctips, order);
  }

  /** What is left to consolidate. */
  lemma LeftToConsolidate(st: State, uncon: Unconsolidated, after: Ctips, left: Slot -> Purse, rest: seq<Slot>)
    requires Mirror(st, uncon, after) && (forall s: Slot :: PurseOf(after, s) == left(s)) && Lists(rest, Leftover(left))
    ensures Covers(uncon, left, rest) && Consolidates(st, rest, left)
    ensures forall i | 0 <= i < |rest| :: rest[i] in st.active && KnownCoins(st, uncon, rest[i], left(rest[i]))
  {
    forall o | o in uncon ensures uncon[o].0 in rest && o in Outpoints(left(uncon[o].0).waiting) {
      var s := uncon[o].0;
      assert MirrorsWaiting(uncon, s, PurseOf(after, s).waiting);
      assert s in Leftover(left);
    }
    forall i | 0 <= i < |rest|
      ensures left(rest[i]).ctip.Some? && left(rest[i]).waiting != [] && rest[i] in st.active
          && KnownCoins(st, uncon, rest[i], left(rest[i]))
    {
      var s := rest[i];
      assert s in rest && s in Leftover(left);
      assert PurseOf(after, s) == left(s);
      assert MirrorsWaiting(uncon, s, PurseOf(after, s).waiting);
      var o := left(s).waiting[0].outpoint;
      assert o in uncon && uncon[o].0 == s;
      MirrorKnows(st, uncon, after, s);
    }
  }

  /** No deposit is left, and each treasury holds what the producer computed. */
  ghost predicate Settled(p: Params, proposals: Proposals, ctips: Ctips, end: TxProgress) {
    && end.uncon == map[]
    && forall s: Slot :: CurrentValue(end.st.treasury, s) == PurseValue(SlotResult(p, proposals, ctips, s).purse)
  }

  lemma SettledAlready(p: Params, proposals: Proposals, ctips: Ctips, mid: TxProgress, after: Ctips)
    requires Mirror(mid.st, mid.uncon, after) && Covers(mid.uncon, Left(p, proposals, ctips), [])
    requires forall s: Slot :: PurseOf(after, s) == SlotResult(p, proposals, ctips, s).purse
    requires Leftover(Left(p, proposals, ctips)) == {}
    ensures Settled(p, proposals, ctips, mid)
  {
    forall s: Slot ensures CurrentValue(mid.st.treasury, s) == PurseValue(SlotResult(p, proposals, ctips, s).purse) {
      assert s !in Leftover(Left(p, proposals, ctips));
      SingleCoin(mid.st.treasury, s, SlotResult(p, proposals, ctips, s).purse);
    }
  }

  lemma SettledByPush(p: Params, proposals: Proposals, ctips: Ctips, mid: State, after: Ctips, rest: seq<Slot>,
                      newCtips: map<Slot, Ctip>, end: TxProgress)
    requires (forall s: Slot :: PurseOf(after, s) == SlotResult(p, proposals, ctips, s).purse)
    requires (forall s: Slot :: PurseOf(after, s).ctip == CtipOf(mid.treasury, s))
    requires Lists(rest, Leftover(Left(p, proposals, ctips)))
        && NewTreasuries(Left(p, proposals, ctips), rest, newCtips)
    requires end.uncon == map[] && end.st.treasury == PushAll(mid.treasury, newCtips)
    ensures Settled(p, proposals, ctips, end)
  {
    forall s: Slot ensures CurrentValue(end.st.treasury, s) == PurseValue(SlotResult(p, proposals, ctips, s).purse) {
      PushedValue(mid.treasury, newCtips, s);
      var left := Left(p, proposals, ctips);
      assert s in rest <==> s in Leftover(left);
      assert s in newCtips <==> s in rest;
      if s !in rest { SingleCoin(mid.treasury, s, left(s)); }
    }
  }

  lemma PushedValue(stacks: Stacks, newCtips: map<Slot, Ctip>, s: Slot)
    ensures CurrentValue(PushAll(stacks, newCtips), s) == if s in newCtips then newCtips[s].value
        else CurrentValue(stacks, s)
  {
  }

  lemma SingleCoin(stacks: Stacks, s: Slot, purse: Purse)
    requires purse.waiting == [] && purse.ctip == CtipOf(stacks, s)
    ensures PurseValue(purse) == CurrentValue(stacks, s)
  {
    if purse.ctip.Some? { OneCoin(purse.ctip.value); }
  }

  lemma ConsolidationStep(p: Params, accepted: map<Slot, Bytes>, parent: Bytes, mid: TxProgress, left: Slot -> Purse,
                          rest: seq<Slot>)
    returns (newCtips: map<Slot, Ctip>)
    requires rest != [] && Distinct(rest) && Consolidates(mid.st, rest, left) && Covers(mid.uncon, left, rest)
    requires forall i | 0 <= i < |rest| ::
        rest[i] in mid.st.active && KnownCoins(mid.st, mid.uncon, rest[i], left(rest[i]))
    ensures var end := TxStep(p, accepted, parent, mid, ConsolidationTx(p.op, left, rest));
      && end.Ok? && end.value.uncon == map[] && NewTreasuries(left, rest, newCtips)
      && end.value.st.treasury == PushAll(mid.st.treasury, newCtips)
  {
    var tx := ConsolidationTx(p.op, left, rest);
    ConsolidationAccepted(p, mid.st, mid.uncon, left, rest);
    NoRequest(tx, p.op, rest[0]);
    newCtips := HandleTreasuryTx(p, mid.st, mid.uncon, tx).value.diff.value.newCtips;
    DepositStep(p, accepted, parent, mid, tx);
  }

  lemma DepositStep(p: Params, accepted: map<Slot, Bytes>, parent: Bytes, at: TxProgress, tx: Transaction)
    requires ParseM8(tx).None? && HandleTreasuryTx(p, at.st, at.uncon, tx).Ok?
    requires var out := HandleTreasuryTx(p, at.st, at.uncon, tx).value; out.diff.Some? && out.diff.value.M5?
    ensures var out := HandleTreasuryTx(p, at.st, at.uncon, tx).value;
      var next := TxStep(p, accepted, parent, at, tx);
      && next.Ok? && next.value.uncon == out.uncon
      && next.value.st.treasury == PushAll(at.st.treasury, out.diff.value.newCtips)
  {
  }

  /** The validator accepts the whole suffix, in every order of the sidechains;
      afterwards nothing waits to be consolidated, and every treasury holds
      exactly what it had less the payouts and fees. */
  lemma SuffixIsAccepted(p: Params, accepted: map<Slot, Bytes>, parent: Bytes, at: TxProgress, proposals: Proposals,
                         ctips: Ctips, order: seq<Slot>, rest: seq<Slot>)
    returns (end: TxProgress)
    requires SuffixReady(p, at, proposals, ctips)
    requires Lists(order, proposals.Keys) && Lists(rest, Leftover(Left(p, proposals, ctips)))
    ensures RunsTo(TxStepper(p, accepted, parent), at, SuffixOf(p, proposals, ctips, order, rest), end)
    ensures Settled(p, proposals, ctips, end)
    ensures forall s: Slot ::
      CurrentValue(end.st.treasury, s) + Paid(SlotResult(p, proposals, ctips, s).payments)
          == PurseValue(PurseOf(ctips, s))
  {
    var left := Left(p, proposals, ctips);
    PayoutsAccepted(p, accepted, parent, at, proposals, ctips, order);
    var x := ContextOf(p, accepted, parent, at.st.treasury, at.uncon.Keys);
    var mid, after :| OrderDone(x, at, proposals, ctips, order, mid, after);
    forall s: Slot ensures PurseOf(after, s) == left(s) { NoBundles(p, proposals, ctips, s); }
    LeftToConsolidate(mid.st, mid.uncon, after, left, rest);
    if rest == [] {
      end := mid;
      EmptyLists(rest, Leftover(left));
      SettledAlready(p, proposals, ctips, mid, after);
      assert M6s(p, proposals, ctips, order) + [] == M6s(p, proposals, ctips, order);
    } else {
      var newCtips := ConsolidationStep(p, accepted, parent, mid, left, rest);
      end := TxStep(p, accepted, parent, mid, ConsolidationTx(p.op, left, rest)).value;
      SettledByPush(p, proposals, ctips, mid.st, after, rest, newCtips, end);
      RunsOne(x.step, mid, ConsolidationTx(p.op, left, rest));
      RunsThen(x.step, at, M6s(p, proposals, ctips, order), mid, [ConsolidationTx(p.op, left, rest)], end);
    }
    forall s: Slot
      ensures CurrentValue(end.st.treasury, s) + Paid(SlotResult(p, proposals, ctips, s).payments)
          == PurseValue(PurseOf(ctips, s))
    {
      PaySlotSound(p, s, CandidatesOf(proposals, s), |CandidatesOf(proposals, s)|, PurseOf(ctips, s));
    }
  }

  lemma EmptyLists(rest: seq<Slot>, slots: set<Slot>)
    requires Lists(rest, slots) && rest == []
    ensures slots == {}
  {
    assert forall s: Slot :: s in slots <==> s in rest;
  }
}
