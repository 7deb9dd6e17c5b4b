/** All payouts of all sidechains are accepted, one after another and in every
    order of the sidechains. */
module SuffixTheorem {
  import opened Prelude
  import opened Runs
  import opened Transactions
  import opened Ledger
  import opened Validator
  import opened Blocks
  import opened Suffix

  /** What the induction needs to know about the validator: its step; what holds
      between payouts; when the bundles of a sidechain from some position on are
      ready to be paid; that only one sidechain's bundles have changed; and
      whether a transaction's id is new. */
  datatype Context = Context(
    p: Params,
    step: (TxProgress, Transaction) -> Result<TxProgress, Reject>,
    inv: (TxProgress, Ctips) -> bool,
    ready: (State, Slot, seq<Candidate>, nat) -> bool,
    moved: (State, State, Slot) -> bool,
    isNew: Transaction -> bool)

  ghost predicate CanPay(x: Context, at: TxProgress, ctips: Ctips, slot: Slot, cands: seq<Candidate>, n: nat) {
    && x.inv(at, ctips) && n < |cands| && x.ready(at.st, slot, cands, n)
    && Suffix.Payable(x.p, PurseOf(ctips, slot), cands[n]) && PurseValue(PurseOf(ctips, slot)) <= U64_MAX
    && x.isNew(Pay(x.p, slot, PurseOf(ctips, slot), cands[n].bundle).tx)
  }

  ghost predicate Pays(x: Context, at: TxProgress, ctips: Ctips, slot: Slot, cands: seq<Candidate>, n: nat)
    requires CanPay(x, at, ctips, slot, cands, n)
  {
    var payment := Pay(x.p, slot, PurseOf(ctips, slot), cands[n].bundle);
    var next := x.step(at, payment.tx);
    && next.Ok? && x.inv(next.value, SetPurse(ctips, slot, payment.successor))
    && x.ready(next.value.st, slot, cands, n + 1) && x.moved(at.st, next.value.st, slot)
  }

  /** Whatever can be paid is accepted and leaves things ready for the next;
      bundles that are ready stay ready. */
  ghost predicate AcceptsPayouts(x: Context) {
    && (forall at, ctips, slot, cands, n | CanPay(x, at, ctips, slot, cands, n) :: Pays(x, at, ctips, slot, cands, n))
    && (forall st, slot, cands, n: nat | x.ready(st, slot, cands, n) && n < |cands| :: x.ready(st, slot, cands, n + 1))
    && (forall st, st', slot, s, cands | x.moved(st, st', slot) && x.ready(st, s, cands, 0) && s != slot ::
        x.ready(st', s, cands, 0))
    && (forall st, slot :: x.moved(st, st, slot))
    && (forall st, st', st'', slot | x.moved(st, st', slot) && x.moved(st', st'', slot) :: x.moved(st, st'', slot))
  }

  ghost predicate AllNew(x: Context, payments: seq<Payment>) {
    forall i | 0 <= i < |payments| :: x.isNew(payments[i].tx)
  }

  // ----- One sidechain

  /** After the first `n` bundles of a sidechain. */
  ghost predicate SlotDone(x: Context, at: TxProgress, ctips: Ctips, slot: Slot, cands: seq<Candidate>, n: nat,
                           next: TxProgress, after: Ctips)
    requires n <= |cands|
  {
    var r := PaySlot(x.p, slot, cands, n, PurseOf(ctips, slot));
    && RunsTo(x.step, at, PaymentTxs(r.payments), next) && x.inv(next, after)
    && x.ready(next.st, slot, cands, n) && x.moved(at.st, next.st, slot)
    && PurseOf(after, slot) == r.purse
    && (forall s: Slot | s != slot :: PurseOf(after, s) == PurseOf(ctips, s))
  }

  ghost predicate SlotOk(x: Context, at: TxProgress, ctips: Ctips, slot: Slot, cands: seq<Candidate>, n: nat)
    requires n <= |cands|
  {
    exists next, after :: SlotDone(x, at, ctips, slot, cands, n, next, after)
  }

  lemma SlotStart(x: Context, at: TxProgress, ctips: Ctips, slot: Slot, cands: seq<Candidate>)
    requires AcceptsPayouts(x) && x.inv(at, ctips) && x.ready(at.st, slot, cands, 0)
    ensures SlotOk(x, at, ctips, slot, cands, 0)
  {
    assert PaymentTxs([]) == [];
    assert SlotDone(x, at, ctips, slot, cands, 0, at, ctips);
  }

  lemma SlotPays(x: Context, at: TxProgress, ctips: Ctips, slot: Slot, cands: seq<Candidate>, n: nat, mid: TxProgress,
                 before: Ctips)
    requires AcceptsPayouts(x) && n < |cands| && SlotDone(x, at, ctips, slot, cands, n, mid, before)
    requires CanPay(x, mid, before, slot, cands, n)
    ensures SlotOk(x, at, ctips, slot, cands, n + 1)
  {
    var r := PaySlot(x.p, slot, cands, n, PurseOf(ctips, slot));
    var payment := Pay(x.p, slot, r.purse, cands[n].bundle);
    assert Pays(x, mid, before, slot, cands, n);
    var next, after := x.step(mid, payment.tx).value, SetPurse(before, slot, payment.successor);
    PaymentTxsAppend(r.payments, payment);
    RunsOne(x.step, mid, payment.tx);
    RunsThen(x.step, at, PaymentTxs(r.payments), mid, [payment.tx], next);
    forall s: Slot ensures PurseOf(after, s) == if s == slot then Purse(Some(payment.successor), [])
        else PurseOf(ctips, s) {
      PurseSet(before, slot, payment.successor, s);
    }
    assert SlotDone(x, at, ctips, slot, cands, n + 1, next, after);
  }

  lemma SlotNext(x: Context, at: TxProgress, ctips: Ctips, slot: Slot, cands: seq<Candidate>, n: nat)
    requires AcceptsPayouts(x) && n < |cands| && SlotOk(x, at, ctips, slot, cands, n)
    requires PurseValue(PurseOf(ctips, slot)) <= U64_MAX
    requires AllNew(x, PaySlot(x.p, slot, cands, n + 1, PurseOf(ctips, slot)).payments)
    ensures SlotOk(x, at, ctips, slot, cands, n + 1)
  {
    var mid, before :| SlotDone(x, at, ctips, slot, cands, n, mid, before);
    var r := PaySlot(x.p, slot, cands, n, PurseOf(ctips, slot));
    PaySlotSound(x.p, slot, cands, n, PurseOf(ctips, slot));
    if Suffix.Payable(x.p, r.purse, cands[n]) {
      var payment := Pay(x.p, slot, r.purse, cands[n].bundle);
      assert (r.payments + [payment])[|r.payments|] == payment;
      SlotPays(x, at, ctips, slot, cands, n, mid, before);
    } else {
      assert SlotDone(x, at, ctips, slot, cands, n + 1, mid, before);
    }
  }

  lemma {:induction false} PaySlotGrows(p: Params, slot: Slot, cands: seq<Candidate>, n: nat, m: nat, purse: Purse)
    requires n <= m <= |cands|
    ensures PaySlot(p, slot, cands, n, purse).payments <= PaySlot(p, slot, cands, m, purse).payments
  {
    if n < m { PaySlotGrows(p, slot, cands, n, m - 1, purse); }
  }

  lemma NewPrefix(x: Context, a: seq<Payment>, b: seq<Payment>)
    requires AllNew(x, b) && a <= b
    ensures AllNew(x, a)
  {
    assert forall i | 0 <= i < |a| :: a[i] == b[i];
  }

  /** The payouts of one sidechain are accepted one after another. */
  lemma SlotAccepted(x: Context, at: TxProgress, ctips: Ctips, slot: Slot, cands: seq<Candidate>)
    requires AcceptsPayouts(x) && x.inv(at, ctips) && x.ready(at.st, slot, cands, 0)
    requires PurseValue(PurseOf(ctips, slot)) <= U64_MAX
    requires AllNew(x, PaySlot(x.p, slot, cands, |cands|, PurseOf(ctips, slot)).payments)
    ensures SlotOk(x, at, ctips, slot, cands, |cands|)
  {
    var purse := PurseOf(ctips, slot);
    var inv := (i: nat) => i <= |cands| && SlotOk(x, at, ctips, slot, cands, i);
    SlotStart(x, at, ctips, slot, cands);
    forall i: nat | i < |cands| && inv(i) ensures inv(i + 1) {
      PaySlotGrows(x.p, slot, cands, i + 1, |cands|, purse);
      NewPrefix(x, PaySlot(x.p, slot, cands, i + 1, purse).payments,
          PaySlot(x.p, slot, cands, |cands|, purse).payments);
      SlotNext(x, at, ctips, slot, cands, i);
    }
    Induct(|cands|, inv);
  }

  // ----- All sidechains

  ghost predicate AllReady(x: Context, st: State, proposals: Proposals, done: seq<Slot>) {
    forall s | s in proposals && s !in done :: x.ready(st, s, proposals[s], 0)
  }

  /** The sidechains in `done` are paid, the others are as they were. */
  ghost predicate PaidIn(p: Params, proposals: Proposals, ctips: Ctips, after: Ctips, done: seq<Slot>) {
    forall s: Slot :: PurseOf(after, s) == if s in done then SlotResult(p, proposals, ctips, s).purse
        else PurseOf(ctips, s)
  }

  /** After the sidechains in `order`. */
  ghost predicate OrderDone(x: Context, at: TxProgress, proposals: Proposals, ctips: Ctips, order: seq<Slot>,
                            next: TxProgress, after: Ctips) {
    && RunsTo(x.step, at, M6s(x.p, proposals, ctips, order), next) && x.inv(next, after)
    && PaidIn(x.p, proposals, ctips, after, order) && AllReady(x, next.st, proposals, order)
  }

  ghost predicate OrderOk(x: Context, at: TxProgress, proposals: Proposals, ctips: Ctips, order: seq<Slot>) {
    exists next, after :: OrderDone(x, at, proposals, ctips, order, next, after)
  }

  lemma M6sAppend(p: Params, proposals: Proposals, ctips: Ctips, order: seq<Slot>, slot: Slot)
    ensures M6s(p, proposals, ctips, order + [slot]) == M6s(p, proposals, ctips, order)
        + PaymentTxs(SlotResult(p, proposals, ctips, slot).payments)
  {
    assert (order + [slot])[..|order|] == order;
  }

  lemma OrderStep(x: Context, at: TxProgress, proposals: Proposals, ctips: Ctips, order: seq<Slot>, slot: Slot)
    requires AcceptsPayouts(x) && Amounts(ctips)
    requires OrderOk(x, at, proposals, ctips, order) && slot in proposals && slot !in order
    requires AllNew(x, SlotResult(x.p, proposals, ctips, slot).payments)
    ensures OrderOk(x, at, proposals, ctips, order + [slot])
  {
    var mid, before :| OrderDone(x, at, proposals, ctips, order, mid, before);
    assert PurseOf(before, slot) == PurseOf(ctips, slot);
    SlotAccepted(x, mid, before, slot, proposals[slot]);
    var next, after :| SlotDone(x, mid, before, slot, proposals[slot], |proposals[slot]|, next, after);
    M6sAppend(x.p, proposals, ctips, order, slot);
    RunsThen(x.step, at, M6s(x.p, proposals, ctips, order), mid,
        PaymentTxs(SlotResult(x.p, proposals, ctips, slot).payments), next);
    assert OrderDone(x, at, proposals, ctips, order + [slot], next, after);
  }

  /** An order of the sidechains to pay, whose payouts have new ids. */
  ghost predicate Payables(x: Context, proposals: Proposals, ctips: Ctips, order: seq<Slot>) {
    && Distinct(order)
    && (forall i | 0 <= i < |order| ::
          order[i] in proposals && AllNew(x, SlotResult(x.p, proposals, ctips, order[i]).payments))
  }

  lemma NextInOrder(order: seq<Slot>, i: nat)
    requires i < |order| && Distinct(order)
    ensures order[i] !in order[..i] && order[..i] + [order[i]] == order[..i + 1]
  {
  }

  /** The payouts of all sidechains are accepted, in every order. */
  lemma OrderAccepted(x: Context, at: TxProgress, proposals: Proposals, ctips: Ctips, order: seq<Slot>)
    requires AcceptsPayouts(x) && Amounts(ctips) && Payables(x, proposals, ctips, order)
    requires x.inv(at, ctips) && AllReady(x, at.st, proposals, [])
    ensures OrderOk(x, at, proposals, ctips, order)
  {
    var inv := (i: nat) => i <= |order| && OrderOk(x, at, proposals, ctips, order[..i]);
    assert order[..0] == [] && order[..|order|] == order;
    assert OrderDone(x, at, proposals, ctips, [], at, ctips);
    forall i: nat | i < |order| && inv(i) ensures inv(i + 1) {
      NextInOrder(order, i);
      OrderStep(x, at, proposals, ctips, order[..i], order[i]);
    }
    Induct(|order|, inv);
  }
}
