/** The transactions that the block producer puts at the end of a block: one M6
    for every approved bundle that its treasury can pay, each spending the
    treasury that the one before left, and one M5 that consolidates what
    deposits are left over. */
module Suffix {
  import opened Prelude
  import opened Runs
  import opened Script
  import opened Transactions
  import opened Validator
  import opened BlindedM6

  /** The treasuries as the suffix finds them: the current UTXO of each
      sidechain, and the deposits beside it in order of arrival. */
  datatype Ctips = Ctips(consolidated: map<Slot, Ctip>, unconsolidated: map<Slot, seq<Ctip>>)

  /** A stored bundle, with its votes if it is pending and still payable. */
  datatype Candidate = Candidate(bundle: Bundle, votes: Option<nat>)

  type Proposals = map<Slot, seq<Candidate>>

  /** What one sidechain has to spend. */
  datatype Purse = Purse(ctip: Option<Ctip>, waiting: seq<Ctip>)

  function Coins(purse: Purse): seq<Ctip> {
    (match purse.ctip case None => [] case Some(ctip) => [ctip]) + purse.waiting
  }

  function PurseValue(purse: Purse): nat {
    TotalValue(Coins(purse))
  }

  function PurseOf(ctips: Ctips, slot: Slot): Purse {
    Purse(if slot in ctips.consolidated then Some(ctips.consolidated[slot]) else None,
          if slot in ctips.unconsolidated then ctips.unconsolidated[slot] else [])
  }

  /** One payout: what it spends, the transaction, and the treasury it leaves. */
  datatype Payment = Payment(bundle: Bundle, spent: seq<Ctip>, tx: Transaction, successor: Ctip)

  predicate Approved(p: Params, c: Candidate) {
    c.votes.Some? && c.votes.value > p.bundleThreshold
  }

  /** An approved bundle is paid exactly when there is a treasury and it covers
      payout and fee. */
  predicate Payable(p: Params, purse: Purse, c: Candidate) {
    Approved(p, c) && purse.ctip.Some? && c.bundle.payout + c.bundle.fee <= PurseValue(purse)
  }

  function Pay(p: Params, slot: Slot, purse: Purse, b: Bundle): Payment
    requires b.payout + b.fee <= PurseValue(purse)
  {
    var tx := Finalized(b, p.op, slot, Coins(purse));
    Payment(b, Coins(purse), tx, Ctip(OutPoint(p.txid(tx), 0), PurseValue(purse) - b.payout - b.fee))
  }

  // ----- What one sidechain's payouts do

  function Paid(payments: seq<Payment>): nat {
    if payments == [] then 0
    else Paid(payments[..|payments| - 1]) + payments[|payments| - 1].bundle.payout + payments[|payments| - 1].bundle.fee
  }

  ghost predicate Conserved(purse: Purse, at: Progress) {
    PurseValue(purse) == PurseValue(at.purse) + Paid(at.payments)
  }

  lemma PayConserves(p: Params, slot: Slot, purse: Purse, at: Progress, b: Bundle)
    requires Conserved(purse, at) && b.payout + b.fee <= PurseValue(at.purse)
    ensures var payment := Pay(p, slot, at.purse, b);
      Conserved(purse, Progress(at.payments + [payment], Purse(Some(payment.successor), [])))
  {
    var payment := Pay(p, slot, at.purse, b);
    assert (at.payments + [payment])[..|at.payments|] == at.payments;
    OneCoin(payment.successor);
  }

  lemma OneCoin(c: Ctip)
    ensures PurseValue(Purse(Some(c), [])) == c.value && Coins(Purse(Some(c), [])) == [c]
  {
    assert [c] + [] == [c] && [c][..0] == [];
    assert TotalValue([c]) == TotalValue([c][..0]) + c.value;
  }

  /** A payment pays a bundle from some coins that cover it, and leaves
      exactly output 0. */
  ghost predicate PaymentOk(p: Params, slot: Slot, payment: Payment) {
    var b := payment.bundle;
    && payment.spent != []
    && b.payout + b.fee <= TotalValue(payment.spent)
    && payment.tx == Finalized(b, p.op, slot, payment.spent)
    && payment.successor == Ctip(OutPoint(p.txid(payment.tx), 0), payment.tx.outputs[0].value)
  }

  /** The first payment spends all the sidechain had; each other one spends
      exactly what the one before left. */
  ghost predicate ChainedAt(payments: seq<Payment>, purse: Purse, i: nat)
    requires i < |payments|
  {
    payments[i].spent == if i == 0 then Coins(purse) else [payments[i - 1].successor]
  }

  /** What is left is what the last payment left. */
  ghost predicate LeftBy(payments: seq<Payment>, purse: Purse, left: Purse) {
    left == if payments == [] then purse else Purse(Some(payments[|payments| - 1].successor), [])
  }

  ghost predicate WellPaid(p: Params, slot: Slot, payments: seq<Payment>, purse: Purse, left: Purse) {
    && (forall i | 0 <= i < |payments| :: PaymentOk(p, slot, payments[i]) && ChainedAt(payments, purse, i))
    && LeftBy(payments, purse, left)
    && (payments != [] ==> purse.ctip.Some?)
  }

  lemma PayOk(p: Params, slot: Slot, left: Purse, b: Bundle)
    requires left.ctip.Some? && b.payout + b.fee <= PurseValue(left)
    ensures PaymentOk(p, slot, Pay(p, slot, left, b)) && Pay(p, slot, left, b).spent == Coins(left)
  {
  }

  lemma WellPaidAppend(p: Params, slot: Slot, payments: seq<Payment>, purse: Purse, left: Purse, payment: Payment)
    requires WellPaid(p, slot, payments, purse, left)
    requires PaymentOk(p, slot, payment) && payment.spent == Coins(left) && left.ctip.Some?
    ensures WellPaid(p, slot, payments + [payment], purse, Purse(Some(payment.successor), []))
  {
    var after := payments + [payment];
    if payments != [] { OneCoin(payments[|payments| - 1].successor); }
    forall i | 0 <= i < |after| ensures PaymentOk(p, slot, after[i]) && ChainedAt(after, purse, i) {
      if i < |payments| { assert PaymentOk(p, slot, payments[i]) && ChainedAt(payments, purse, i); }
    }
  }

  // ----- Paying a sidechain's bundles in order

  datatype Progress = Progress(payments: seq<Payment>, purse: Purse)

  ghost predicate AllValid(cands: seq<Candidate>) {
    forall i | 0 <= i < |cands| :: Valid(cands[i].bundle)
  }

  function PayNext(p: Params, slot: Slot, at: Progress, c: Candidate): Progress {
    if !Payable(p, at.purse, c) then at else
    var payment := Pay(p, slot, at.purse, c.bundle);
    Progress(at.payments + [payment], Purse(Some(payment.successor), []))
  }

  function PayStep(p: Params, slot: Slot): (Progress, Candidate) -> Progress {
    (at: Progress, c: Candidate) => PayNext(p, slot, at, c)
  }

  /** The first `n` bundles of a sidechain. */
  function PaySlot(p: Params, slot: Slot, cands: seq<Candidate>, n: nat, purse: Purse): Progress
    requires n <= |cands|
  {
    Fold(PayStep(p, slot), Progress([], purse), cands, n)
  }

  ghost predicate Sound(p: Params, slot: Slot, purse: Purse, at: Progress) {
    WellPaid(p, slot, at.payments, purse, at.purse) && Conserved(purse, at)
  }

  lemma PayNextSound(p: Params, slot: Slot, purse: Purse, at: Progress, c: Candidate)
    requires Sound(p, slot, purse, at)
    ensures Sound(p, slot, purse, PayNext(p, slot, at, c))
  {
    if Payable(p, at.purse, c) {
      PayOk(p, slot, at.purse, c.bundle);
      WellPaidAppend(p, slot, at.payments, purse, at.purse, Pay(p, slot, at.purse, c.bundle));
      PayConserves(p, slot, purse, at, c.bundle);
    }
  }

  lemma NothingPaidSound(p: Params, slot: Slot, purse: Purse)
    ensures Sound(p, slot, purse, Progress([], purse))
  {
  }

  /** Each payment spends what the one before left, and what the sidechain had is
      what it has left and what its bundles paid out, fees included. */
  lemma PaySlotSound(p: Params, slot: Slot, cands: seq<Candidate>, n: nat, purse: Purse)
    requires n <= |cands|
    ensures Sound(p, slot, purse, PaySlot(p, slot, cands, n, purse))
  {
    var inv := (at: Progress) => Sound(p, slot, purse, at);
    NothingPaidSound(p, slot, purse);
    forall at, c | inv(at) ensures inv(PayStep(p, slot)(at, c)) {
      PayNextSound(p, slot, purse, at, c);
    }
    FoldKeeps(PayStep(p, slot), Progress([], purse), cands, n, inv);
  }

  lemma PaySlotLeft(p: Params, slot: Slot, cands: seq<Candidate>, n: nat, purse: Purse)
    requires n <= |cands|
    ensures LeftBy(PaySlot(p, slot, cands, n, purse).payments, purse, PaySlot(p, slot, cands, n, purse).purse)
  {
    PaySlotSound(p, slot, cands, n, purse);
  }

  // ----- The whole suffix

  function CandidatesOf(proposals: Proposals, slot: Slot): seq<Candidate> {
    if slot in proposals then proposals[slot] else []
  }

  ghost predicate AllProposalsValid(proposals: Proposals) {
    forall s | s in proposals :: AllValid(proposals[s])
  }

  /** What happens to one sidechain: it does not depend on any other. */
  function SlotResult(p: Params, proposals: Proposals, ctips: Ctips, slot: Slot): Progress {
    var cands := CandidatesOf(proposals, slot);
    PaySlot(p, slot, cands, |cands|, PurseOf(ctips, slot))
  }

  function PaymentTxs(payments: seq<Payment>): seq<Transaction> {
    seq(|payments|, i requires 0 <= i < |payments| => payments[i].tx)
  }

  /** The payouts of the sidechains in some order. */
  function M6s(p: Params, proposals: Proposals, ctips: Ctips, order: seq<Slot>): seq<Transaction> {
    if order == [] then [] else
    var n := |order| - 1;
    M6s(p, proposals, ctips, order[..n]) + PaymentTxs(SlotResult(p, proposals, ctips, order[n]).payments)
  }

  /** What each sidechain has left once its bundles are paid. */
  function Left(p: Params, proposals: Proposals, ctips: Ctips): Slot -> Purse {
    (s: Slot) => SlotResult(p, proposals, ctips, s).purse
  }

  /** The coins that the consolidation spends, sidechain by sidechain. */
  function ConsolidationCoins(left: Slot -> Purse, order: seq<Slot>): seq<Ctip> {
    if order == [] then [] else
    var n := |order| - 1;
    ConsolidationCoins(left, order[..n]) + Coins(left(order[n]))
  }

  function ConsolidationOutputs(op: Byte, left: Slot -> Purse, order: seq<Slot>): seq<TxOut> {
    seq(|order|, i requires 0 <= i < |order| => TxOut(PurseValue(left(order[i])), TreasuryScript(op, order[i])))
  }

  function ConsolidationTx(op: Byte, left: Slot -> Purse, order: seq<Slot>): Transaction {
    Transaction(2, 0, SpendAll(ConsolidationCoins(left, order)), ConsolidationOutputs(op, left, order))
  }

  /** The whole suffix, the payouts in one order and the consolidation in
      another; without leftovers there is no consolidation. */
  function SuffixOf(p: Params, proposals: Proposals, ctips: Ctips, order: seq<Slot>, rest: seq<Slot>)
    : seq<Transaction> {
    M6s(p, proposals, ctips, order) + if rest == [] then []
        else [ConsolidationTx(p.op, Left(p, proposals, ctips), rest)]
  }

  ghost predicate Distinct(order: seq<Slot>) {
    forall i, j | 0 <= i < j < |order| :: order[i] != order[j]
  }

  /** `order` lists exactly the slots in `slots`, each once. */
  ghost predicate Lists(order: seq<Slot>, slots: set<Slot>) {
    && Distinct(order)
    && (forall s: Slot :: s in order <==> s in slots)
  }

  /** The sidechains that still have deposits to consolidate. */
  ghost function Leftover(left: Slot -> Purse): set<Slot> {
    set s: Slot | left(s).waiting != []
  }

  ghost predicate NoEmptyLists(ctips: Ctips) {
    forall s | s in ctips.unconsolidated :: ctips.unconsolidated[s] != []
  }

  /** Amounts fit their machine width, as the money supply guarantees. */
  ghost predicate Amounts(ctips: Ctips) {
    forall s: Slot :: PurseValue(PurseOf(ctips, s)) <= U64_MAX
  }

  // ----- The loops

  /** Finalizes one bundle, or fails when the treasury cannot cover it. */
  method FinalizeM6(p: Params, slot: Slot, consolidated: Ctip, unconsolidated: seq<Ctip>, b: Bundle)
    returns (r: Result<(Transaction, Ctip), Underflow>)
    requires Valid(b) && PurseValue(Purse(Some(consolidated), unconsolidated)) <= U64_MAX
    ensures var purse := Purse(Some(consolidated), unconsolidated);
      && (r.Ok? <==> b.payout + b.fee <= PurseValue(purse))
      && (r.Ok? ==> r.value == (Pay(p, slot, purse, b).tx, Pay(p, slot, purse, b).successor))
  {
    var value := TotalValue([consolidated] + unconsolidated);
    if value < b.fee || value - b.fee < b.payout { return Err(Underflow); }
    var m6 := IntoM6(b, p.op, slot, consolidated, unconsolidated);
    if m6.Err? { return Err(Underflow); }
    r := Ok((m6.value, Ctip(OutPoint(p.txid(m6.value), 0), value - b.fee - b.payout)));
  }

  lemma PaymentTxsAppend(payments: seq<Payment>, payment: Payment)
    ensures PaymentTxs(payments + [payment]) == PaymentTxs(payments) + [payment.tx]
  {
  }

  lemma PurseSet(ctips: Ctips, slot: Slot, c: Ctip, s: Slot)
    ensures PurseOf(SetPurse(ctips, slot, c), s) == if s == slot then Purse(Some(c), []) else PurseOf(ctips, s)
  {
  }

  function SetPurse(ctips: Ctips, slot: Slot, c: Ctip): Ctips {
    Ctips(ctips.consolidated[slot := c], ctips.unconsolidated - {slot})
  }

  lemma NoTreasuryNoPayout(p: Params, slot: Slot, cands: seq<Candidate>, n: nat, m: nat, purse: Purse)
    requires n <= m <= |cands| && PaySlot(p, slot, cands, n, purse).purse.ctip.None?
    ensures PaySlot(p, slot, cands, m, purse) == PaySlot(p, slot, cands, n, purse)
    decreases m
  {
    if n < m { NoTreasuryNoPayout(p, slot, cands, n, m - 1, purse); }
  }

  /** Pays one bundle if it can be paid. */
  method PayBundle(p: Params, slot: Slot, c: Candidate, consolidated: Ctip, ctips: Ctips)
    returns (tx: Option<Transaction>, after: Ctips)
    requires Valid(c.bundle) && slot in ctips.consolidated && ctips.consolidated[slot] == consolidated
    requires Approved(p, c) && PurseValue(PurseOf(ctips, slot)) <= U64_MAX
    ensures if !Payable(p, PurseOf(ctips, slot), c) then tx.None? && after == ctips else
      var payment := Pay(p, slot, PurseOf(ctips, slot), c.bundle);
      tx == Some(payment.tx) && after == SetPurse(ctips, slot, payment.successor)
  {
    var unconsolidated := if slot in ctips.unconsolidated then ctips.unconsolidated[slot] else [];
    var paid := FinalizeM6(p, slot, consolidated, unconsolidated, c.bundle);
    if paid.Err? { return None, ctips; }
    tx, after := Some(paid.value.0), SetPurse(ctips, slot, paid.value.1);
  }

  /** The same sidechain's progress, and nothing else changed. */
  ghost predicate Follows(ctips: Ctips, after: Ctips, slot: Slot, txs: seq<Transaction>, at: Progress) {
    && txs == PaymentTxs(at.payments) && PurseOf(after, slot) == at.purse
    && (forall s: Slot | s != slot :: PurseOf(after, s) == PurseOf(ctips, s))
    && (NoEmptyLists(ctips) ==> NoEmptyLists(after))
  }

  lemma FollowsPaid(ctips: Ctips, after: Ctips, slot: Slot, txs: seq<Transaction>, at: Progress, payment: Payment)
    requires Follows(ctips, after, slot, txs, at)
    ensures Follows(ctips, SetPurse(after, slot, payment.successor), slot, txs + [payment.tx],
                    Progress(at.payments + [payment], Purse(Some(payment.successor), [])))
  {
    PaymentTxsAppend(at.payments, payment);
    forall s: Slot
      ensures PurseOf(SetPurse(after, slot, payment.successor), s) == if s == slot
          then Purse(Some(payment.successor), []) else PurseOf(after, s)
    {
      PurseSet(after, slot, payment.successor, s);
    }
  }

  /** Looks at one bundle: pays it if it is approved and the treasury covers it,
      and stops the sidechain if there is no treasury. */
  method PayCandidate(p: Params, slot: Slot, c: Candidate, ghost ctips: Ctips, after: Ctips, txs: seq<Transaction>,
                      ghost at: Progress)
    returns (txs': seq<Transaction>, after': Ctips, stop: bool)
    requires Valid(c.bundle) && Follows(ctips, after, slot, txs, at) && PurseValue(at.purse) <= U64_MAX
    ensures Follows(ctips, after', slot, txs', PayNext(p, slot, at, c))
    ensures stop ==> PayNext(p, slot, at, c).purse.ctip.None?
  {
    txs', after', stop := txs, after, false;
    if c.votes.None? || c.votes.value <= p.bundleThreshold { return; }
    if slot !in after.consolidated { return txs, after, true; }
    var tx, next := PayBundle(p, slot, c, after.consolidated[slot], after);
    if tx.Some? {
      FollowsPaid(ctips, after, slot, txs, at, Pay(p, slot, at.purse, c.bundle));
      txs', after' := txs + [tx.value], next;
    }
  }

  /** The next bundle, from a purse that holds no more than the first one did. */
  lemma PaySlotNext(p: Params, slot: Slot, cands: seq<Candidate>, i: nat, purse: Purse)
    requires i < |cands|
    ensures PaySlot(p, slot, cands, i + 1, purse) == PayNext(p, slot, PaySlot(p, slot, cands, i, purse), cands[i])
    ensures PurseValue(PaySlot(p, slot, cands, i, purse).purse) <= PurseValue(purse)
  {
    PaySlotSound(p, slot, cands, i, purse);
  }

  /** The `i`-th bundle of a sidechain. */
  method PayAt(p: Params, slot: Slot, cands: seq<Candidate>, i: nat, ghost ctips: Ctips, after: Ctips,
               txs: seq<Transaction>)
    returns (txs': seq<Transaction>, after': Ctips, stop: bool)
    requires i < |cands| && Valid(cands[i].bundle) && PurseValue(PurseOf(ctips, slot)) <= U64_MAX
    requires Follows(ctips, after, slot, txs, PaySlot(p, slot, cands, i, PurseOf(ctips, slot)))
    ensures Follows(ctips, after', slot, txs', PaySlot(p, slot, cands, i + 1, PurseOf(ctips, slot)))
    ensures stop ==>
        PaySlot(p, slot, cands, |cands|, PurseOf(ctips, slot)) == PaySlot(p, slot, cands, i + 1, PurseOf(ctips, slot))
  {
    PaySlotNext(p, slot, cands, i, PurseOf(ctips, slot));
    txs', after', stop := PayCandidate(p, slot, cands[i], ctips, after, txs,
        PaySlot(p, slot, cands, i, PurseOf(ctips, slot)));
    if stop { NoTreasuryNoPayout(p, slot, cands, i + 1, |cands|, PurseOf(ctips, slot)); }
  }

  /** Pays one sidechain's bundles; the other sidechains are untouched. */
  method PayOne(p: Params, slot: Slot, cands: seq<Candidate>, ctips: Ctips)
    returns (txs: seq<Transaction>, after: Ctips)
    requires AllValid(cands) && PurseValue(PurseOf(ctips, slot)) <= U64_MAX
    ensures Follows(ctips, after, slot, txs, PaySlot(p, slot, cands, |cands|, PurseOf(ctips, slot)))
  {
    txs, after := [], ctips;
    for i := 0 to |cands|
      invariant Follows(ctips, after, slot, txs, PaySlot(p, slot, cands, i, PurseOf(ctips, slot)))
    {
      var stop;
      txs, after, stop := PayAt(p, slot, cands, i, ctips, after, txs);
      if stop { return; }
    }
  }

  lemma ListsAppend(order: seq<Slot>, slots: set<Slot>, s: Slot)
    requires Lists(order, slots) && s !in slots
    ensures Lists(order + [s], slots + {s})
  {
    var order' := order + [s];
    forall i, j | 0 <= i < j < |order'| ensures order'[i] != order'[j] {
      if j == |order| { assert order[i] in order; }
    }
  }

  /** One M5 that gathers the coins of every sidechain with deposits left over,
      in whatever order the sidechains come. */
  method Consolidate(op: Byte, after: Ctips) returns (tx: Option<Transaction>, ghost order: seq<Slot>)
    requires NoEmptyLists(after)
    ensures Lists(order, after.unconsolidated.Keys)
    ensures if after.unconsolidated == map[] then tx.None?
        else tx == Some(ConsolidationTx(op, (s: Slot) => PurseOf(after, s), order))
  {
    order := [];
    if after.unconsolidated == map[] { return None, []; }
    ghost var left := (s: Slot) => PurseOf(after, s);
    var inputs, outputs := [], [];
    var todo := after.unconsolidated.Keys;
    while todo != {}
      invariant todo <= after.unconsolidated.Keys
      invariant Lists(order, after.unconsolidated.Keys - todo)
      invariant inputs == SpendAll(ConsolidationCoins(left, order))
      invariant outputs == ConsolidationOutputs(op, left, order)
    {
      var s :| s in todo;
      var coins, value := Gather(after, s);
      ListsAppend(order, after.unconsolidated.Keys - todo, s);
      assert after.unconsolidated.Keys - (todo - {s}) == after.unconsolidated.Keys - todo + {s};
      assert (order + [s])[..|order|] == order;
      SpendAllAppend(ConsolidationCoins(left, order), Coins(left(s)));
      inputs := inputs + coins;
      outputs := outputs + [TxOut(value, TreasuryScript(op, s))];
      order := order + [s];
      todo := todo - {s};
    }
    assert after.unconsolidated.Keys - {} == after.unconsolidated.Keys;
    tx := Some(Transaction(2, 0, inputs, outputs));
  }

  /** The inputs that spend one sidechain's coins, and their value. */
  method Gather(after: Ctips, s: Slot) returns (inputs: seq<TxIn>, value: nat)
    ensures inputs == SpendAll(Coins(PurseOf(after, s))) && value == PurseValue(PurseOf(after, s))
  {
    var first: seq<Ctip> := if s in after.consolidated then [after.consolidated[s]] else [];
    var waiting := if s in after.unconsolidated then after.unconsolidated[s] else [];
    inputs, value := SpendAll(first), TotalValue(first);
    for i := 0 to |waiting|
      invariant inputs == SpendAll(first) + SpendAll(waiting[..i])
          && value == TotalValue(first) + TotalValue(waiting[..i])
    {
      NextCoin(waiting, i);
      inputs := inputs + [Spend(waiting[i].outpoint)];
      value := value + waiting[i].value;
    }
    assert waiting[..|waiting|] == waiting;
    SpendAllAppend(first, waiting);
    TotalValueAppend(first, waiting);
    assert Coins(PurseOf(after, s)) == first + waiting;
  }

  // ----- The method

  lemma {:induction false} SamePurses(left: Slot -> Purse, left': Slot -> Purse, order: seq<Slot>)
    requires forall s: Slot :: left(s) == left'(s)
    ensures ConsolidationCoins(left, order) == ConsolidationCoins(left', order)
  {
    if order != [] { SamePurses(left, left', order[..|order| - 1]); }
  }

  lemma SameConsolidation(op: Byte, left: Slot -> Purse, left': Slot -> Purse, order: seq<Slot>)
    requires forall s: Slot :: left(s) == left'(s)
    ensures ConsolidationTx(op, left, order) == ConsolidationTx(op, left', order)
  {
    SamePurses(left, left', order);
    assert ConsolidationOutputs(op, left, order) == ConsolidationOutputs(op, left', order);
  }

  /** The sidechains in `done` are paid, the others are as they were. */
  ghost predicate PaidSoFar(p: Params, proposals: Proposals, ctips: Ctips, after: Ctips, done: set<Slot>)
  {
    forall s: Slot :: PurseOf(after, s) == if s in done then SlotResult(p, proposals, ctips, s).purse
        else PurseOf(ctips, s)
  }

  /** The suffix. The sidechains come in an arbitrary order, once to be paid and
      once to be consolidated: in every order each sidechain gets the same
      payouts and the same consolidated treasury. */
  method SuffixTxs(p: Params, proposals: Proposals, ctips: Ctips)
    returns (res: seq<Transaction>, ghost order: seq<Slot>, ghost rest: seq<Slot>)
    requires AllProposalsValid(proposals) && NoEmptyLists(ctips) && Amounts(ctips)
    ensures Lists(order, proposals.Keys) && Lists(rest, Leftover(Left(p, proposals, ctips)))
    ensures res == SuffixOf(p, proposals, ctips, order, rest)
  {
    res, order := [], [];
    var after := ctips;
    var todo := proposals.Keys;
    while todo != {}
      invariant todo <= proposals.Keys && NoEmptyLists(after)
      invariant Lists(order, proposals.Keys - todo)
      invariant PaidSoFar(p, proposals, ctips, after, proposals.Keys - todo)
      invariant res == M6s(p, proposals, ctips, order)
    {
      var s :| s in todo;
      var txs;
      txs, after := PayNextSlot(p, proposals, ctips, after, proposals.Keys - todo, s, order);
      assert proposals.Keys - (todo - {s}) == proposals.Keys - todo + {s};
      res := res + txs;
      order := order + [s];
      todo := todo - {s};
    }
    assert proposals.Keys - {} == proposals.Keys;
    var tx;
    tx, rest := Consolidate(p.op, after);
    LeftIs(p, proposals, ctips, after, rest);
    if tx.Some? { res := res + [tx.value]; }
  }

  /** Pays the sidechain that comes next. */
  method PayNextSlot(p: Params, proposals: Proposals, ghost ctips: Ctips, after: Ctips, ghost done: set<Slot>, s: Slot,
                     ghost order: seq<Slot>)
    returns (txs: seq<Transaction>, next: Ctips)
    requires s in proposals && s !in done && AllValid(proposals[s]) && NoEmptyLists(after)
    requires PaidSoFar(p, proposals, ctips, after, done) && Lists(order, done)
    requires PurseValue(PurseOf(ctips, s)) <= U64_MAX
    ensures PaidSoFar(p, proposals, ctips, next, done + {s}) && Lists(order + [s], done + {s}) && NoEmptyLists(next)
    ensures M6s(p, proposals, ctips, order + [s]) == M6s(p, proposals, ctips, order) + txs
  {
    assert PurseOf(after, s) == PurseOf(ctips, s);
    txs, next := PayOne(p, s, proposals[s], after);
    PaidOneMore(p, proposals, ctips, after, next, done, s, txs);
    ListsAppend(order, done, s);
    assert (order + [s])[..|order|] == order;
  }

  lemma PaidOneMore(p: Params, proposals: Proposals, ctips: Ctips, after: Ctips, next: Ctips, done: set<Slot>, s: Slot,
                    txs: seq<Transaction>)
    requires s in proposals && s !in done
    requires PaidSoFar(p, proposals, ctips, after, done)
    requires Follows(after, next, s, txs, PaySlot(p, s, proposals[s], |proposals[s]|, PurseOf(after, s)))
    ensures PaidSoFar(p, proposals, ctips, next, done + {s})
    ensures txs == PaymentTxs(SlotResult(p, proposals, ctips, s).payments)
  {
    assert PurseOf(after, s) == PurseOf(ctips, s);
  }

  lemma LeftIs(p: Params, proposals: Proposals, ctips: Ctips, after: Ctips, rest: seq<Slot>)
    requires NoEmptyLists(after)
    requires PaidSoFar(p, proposals, ctips, after, proposals.Keys)
    requires Lists(rest, after.unconsolidated.Keys)
    ensures Lists(rest, Leftover(Left(p, proposals, ctips)))
    ensures (rest == []) == (after.unconsolidated == map[])
    ensures ConsolidationTx(p.op, (s: Slot) => PurseOf(after, s), rest)
        == ConsolidationTx(p.op, Left(p, proposals, ctips), rest)
  {
    var left := Left(p, proposals, ctips);
    forall s: Slot ensures PurseOf(after, s) == left(s) { NoBundles(p, proposals, ctips, s); }
    LeftLists(after, left, rest);
    SameConsolidation(p.op, (s: Slot) => PurseOf(after, s), left, rest);
  }

  lemma LeftLists(after: Ctips, left: Slot -> Purse, rest: seq<Slot>)
    requires NoEmptyLists(after) && (forall s: Slot :: PurseOf(after, s) == left(s))
    requires Lists(rest, after.unconsolidated.Keys)
    ensures Leftover(left) == after.unconsolidated.Keys
    ensures (rest == []) == (after.unconsolidated == map[])
  {
    forall s: Slot ensures s in Leftover(left) <==> s in after.unconsolidated { assert PurseOf(after, s) == left(s); }
    if after.unconsolidated != map[] {
      var s :| s in after.unconsolidated;
      assert s in rest;
    }
    if rest != [] { assert rest[0] in rest; }
  }

  lemma NoBundles(p: Params, proposals: Proposals, ctips: Ctips, s: Slot)
    ensures s !in proposals ==> SlotResult(p, proposals, ctips, s) == Progress([], PurseOf(ctips, s))
  {
  }
}
