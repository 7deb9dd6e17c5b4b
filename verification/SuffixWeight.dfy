/** The weight that a template reserves for the suffix is enough: a suffix built
    on made-up treasuries before the transactions are chosen, and an allowance
    for every deposit that is chosen. */
module SuffixWeight {
  import opened Prelude
  import opened Runs
  import opened Encoding
  import opened Script
  import opened Transactions
  import opened Validator
  import opened BlindedM6
  import opened Suffix

  /** How many slots there are. */
  const SLOT_COUNT: nat := 256

  /** Reserved for a deposit transaction with `n` treasury outputs. */
  function ConsolidationTxWeight(n: nat): nat {
    4 * (8 + 10 + n * (2 * 41 + 13))
  }

  function TxsWeight(txs: seq<Transaction>): nat {
    SumSeq(Weight, txs)
  }

  // ----- Sizes

  lemma {:induction false} InputsSizeIs(coins: seq<Ctip>)
    ensures InputsSize(SpendAll(coins)) == 41 * |coins|
  {
    if coins != [] {
      var n := |coins| - 1;
      assert SpendAll(coins)[..n] == SpendAll(coins[..n]);
      InputsSizeIs(coins[..n]);
    }
  }

  lemma {:induction false} OutputsSizePrepend(o: TxOut, rest: seq<TxOut>)
    ensures OutputsSize([o] + rest) == 8 + |EncodeBytes(o.script)| + OutputsSize(rest)
  {
    if rest == [] {
      assert [o] + rest == [o] && [o][..0] == [];
    } else {
      var n := |rest| - 1;
      assert ([o] + rest)[..|rest|] == [o] + rest[..n];
      OutputsSizePrepend(o, rest[..n]);
    }
  }

  /** A bundle's share of its payout's size: all but the inputs. */
  function BundleSize(b: Bundle): nat {
    8 + CompactSizeLength(1 + |Payouts(b)|) + 13 + OutputsSize(Payouts(b))
  }

  lemma {:induction false} PayoutWeight(b: Bundle, op: Byte, slot: Slot, coins: seq<Ctip>)
    requires b.payout + b.fee <= TotalValue(coins)
    ensures Weight(Finalized(b, op, slot, coins)) == 4 * (BundleSize(b) + CompactSizeLength(|coins|) + 41 * |coins|)
  {
    InputsSizeIs(coins);
    OutputsSizePrepend(TxOut(TotalValue(coins) - b.payout - b.fee, TreasuryScript(op, slot)), Payouts(b));
  }

  /** The weight of a payout that spends one coin. */
  function LightOf(payment: Payment): nat {
    4 * (BundleSize(payment.bundle) + 42)
  }

  function Light(payments: seq<Payment>): nat {
    SumSeq(LightOf, payments)
  }

  /** More coins cost less than is reserved for the deposits that made them. */
  lemma MoreCoins(w: nat)
    ensures CompactSizeLength(1 + w) + 41 * (1 + w) <= 42 + 95 * w
  {
  }

  /** Only the first payout of a sidechain spends more than one coin. */
  lemma OnePayment(p: Params, slot: Slot, cands: seq<Candidate>, purse: Purse, i: nat)
    requires i < |PaySlot(p, slot, cands, |cands|, purse).payments|
    ensures var payment := PaySlot(p, slot, cands, |cands|, purse).payments[i];
      && Weight(payment.tx) <= LightOf(payment) + (if i == 0 then 380 * |purse.waiting| else 0)
      && (purse.waiting == [] ==> Weight(payment.tx) == LightOf(payment))
  {
    PaySlotSound(p, slot, cands, |cands|, purse);
    var payments := PaySlot(p, slot, cands, |cands|, purse).payments;
    assert PaymentOk(p, slot, payments[i]) && ChainedAt(payments, purse, i);
    PayoutWeight(payments[i].bundle, p.op, slot, payments[i].spent);
    MoreCoins(|purse.waiting|);
  }

  lemma SlotWeight(p: Params, slot: Slot, cands: seq<Candidate>, purse: Purse)
    ensures var r := PaySlot(p, slot, cands, |cands|, purse);
      && TxsWeight(PaymentTxs(r.payments)) <= Light(r.payments)
          + (if r.payments == [] then 0 else 380 * |purse.waiting|)
      && (purse.waiting == [] ==> TxsWeight(PaymentTxs(r.payments)) == Light(r.payments))
  {
    var payments := PaySlot(p, slot, cands, |cands|, purse).payments;
    var txs := PaymentTxs(payments);
    forall i | 0 <= i < |payments|
      ensures Weight(txs[i]) <= LightOf(payments[i]) + (if i == 0 then 380 * |purse.waiting| else 0)
      ensures purse.waiting == [] ==> Weight(txs[i]) == LightOf(payments[i])
    {
      OnePayment(p, slot, cands, purse, i);
    }
    SumSeqAtMost(Weight, txs, LightOf, payments, 380 * |purse.waiting|);
    if purse.waiting == [] { SumSeqSame(Weight, txs, LightOf, payments); }
  }

  // ----- The made-up suffix pays every approved bundle

  /** The weight of all approved bundles among the first `n`, one coin each. */
  function ApprovedWeight(p: Params, cands: seq<Candidate>, n: nat): nat
    requires n <= |cands|
  {
    if n == 0 then 0
    else ApprovedWeight(p, cands, n - 1) + if Approved(p, cands[n - 1]) then 4 * (BundleSize(cands[n - 1].bundle) + 42)
        else 0
  }

  function ApprovedValue(p: Params, cands: seq<Candidate>, n: nat): nat
    requires n <= |cands|
  {
    if n == 0 then 0
    else ApprovedValue(p, cands, n - 1) + if Approved(p, cands[n - 1])
        then cands[n - 1].bundle.payout + cands[n - 1].bundle.fee else 0
  }

  lemma {:induction false} ApprovedValueGrows(p: Params, cands: seq<Candidate>, n: nat, m: nat)
    requires n <= m <= |cands|
    ensures ApprovedValue(p, cands, n) <= ApprovedValue(p, cands, m)
  {
    if n < m { ApprovedValueGrows(p, cands, n, m - 1); }
  }

  lemma LightAppend(payments: seq<Payment>, payment: Payment)
    ensures Light(payments + [payment]) == Light(payments) + LightOf(payment)
    ensures Paid(payments + [payment]) == Paid(payments) + payment.bundle.payout + payment.bundle.fee
  {
    SumSeqOne(LightOf, payments, payment);
    assert (payments + [payment])[..|payments|] == payments;
  }

  lemma PaySlotConserves(p: Params, slot: Slot, cands: seq<Candidate>, n: nat, purse: Purse)
    requires n <= |cands|
    ensures var r := PaySlot(p, slot, cands, n, purse);
      PurseValue(purse) == PurseValue(r.purse) + Paid(r.payments)
  {
    PaySlotSound(p, slot, cands, n, purse);
  }

  /** A treasury that covers all approved bundles pays all of them. */
  lemma {:induction false} RichPaysAll(p: Params, slot: Slot, cands: seq<Candidate>, n: nat, purse: Purse)
    requires n <= |cands| && purse.ctip.Some? && ApprovedValue(p, cands, |cands|) <= PurseValue(purse)
    ensures var r := PaySlot(p, slot, cands, n, purse);
      Light(r.payments) == ApprovedWeight(p, cands, n) && Paid(r.payments) == ApprovedValue(p, cands, n)
          && r.purse.ctip.Some?
  {
    if n > 0 {
      RichPaysAll(p, slot, cands, n - 1, purse);
      PaySlotConserves(p, slot, cands, n - 1, purse);
      ApprovedValueGrows(p, cands, n, |cands|);
      RichPaysNext(p, slot, cands[n - 1], PaySlot(p, slot, cands, n - 1, purse));
    }
  }

  lemma RichPaysNext(p: Params, slot: Slot, c: Candidate, at: Progress)
    requires at.purse.ctip.Some? && (Approved(p, c) ==> c.bundle.payout + c.bundle.fee <= PurseValue(at.purse))
    ensures var next := PayNext(p, slot, at, c);
      && Light(next.payments) == Light(at.payments) + (if Approved(p, c) then 4 * (BundleSize(c.bundle) + 42) else 0)
      && Paid(next.payments) == Paid(at.payments) + (if Approved(p, c) then c.bundle.payout + c.bundle.fee else 0)
      && next.purse.ctip.Some?
  {
    if Approved(p, c) { LightAppend(at.payments, Pay(p, slot, at.purse, c.bundle)); }
  }

  /** What the real suffix pays was reserved for: its candidates are the same
      bundles, of which no more are approved. */
  ghost predicate Filtered(p: Params, actual: seq<Candidate>, reserved: seq<Candidate>) {
    && |actual| == |reserved|
    && forall i | 0 <= i < |actual| ::
         actual[i].bundle == reserved[i].bundle && (Approved(p, actual[i]) ==> Approved(p, reserved[i]))
  }

  lemma {:induction false} PaysNoMore(p: Params, slot: Slot, actual: seq<Candidate>, reserved: seq<Candidate>, n: nat,
                                      purse: Purse)
    requires n <= |actual| && Filtered(p, actual, reserved)
    ensures Light(PaySlot(p, slot, actual, n, purse).payments) <= ApprovedWeight(p, reserved, n)
  {
    if n > 0 {
      PaysNoMore(p, slot, actual, reserved, n - 1, purse);
      PaysNextAtMost(p, slot, actual[n - 1], PaySlot(p, slot, actual, n - 1, purse));
    }
  }

  lemma PaysNextAtMost(p: Params, slot: Slot, c: Candidate, at: Progress)
    ensures Light(PayNext(p, slot, at, c).payments) <= Light(at.payments) + if Approved(p, c)
        then 4 * (BundleSize(c.bundle) + 42) else 0
  {
    if Payable(p, at.purse, c) { LightAppend(at.payments, Pay(p, slot, at.purse, c.bundle)); }
  }

  /** One sidechain's payouts fit what was reserved for them and for its
      deposits. */
  lemma SlotFits(p: Params, slot: Slot, actual: seq<Candidate>, reserved: seq<Candidate>, purse: Purse, rich: Purse)
    requires Filtered(p, actual, reserved)
    requires rich.ctip.Some? && rich.waiting == [] && ApprovedValue(p, reserved, |reserved|) <= PurseValue(rich)
    ensures var r := PaySlot(p, slot, actual, |actual|, purse);
      TxsWeight(PaymentTxs(r.payments))
      <= TxsWeight(PaymentTxs(PaySlot(p, slot, reserved, |reserved|, rich).payments)) + if r.payments == [] then 0
          else 380 * |purse.waiting|
  {
    SlotWeight(p, slot, actual, purse);
    SlotWeight(p, slot, reserved, rich);
    RichPaysAll(p, slot, reserved, |reserved|, rich);
    PaysNoMore(p, slot, actual, reserved, |actual|, purse);
  }

  // ----- The consolidation

  lemma {:induction false} ConsolidationOutputsSize(op: Byte, left: Slot -> Purse, order: seq<Slot>)
    ensures OutputsSize(ConsolidationOutputs(op, left, order)) == 13 * |order|
  {
    if order != [] {
      var n := |order| - 1;
      assert ConsolidationOutputs(op, left, order)[..n] == ConsolidationOutputs(op, left, order[..n]);
      ConsolidationOutputsSize(op, left, order[..n]);
    }
  }

  /** The deposits of the sidechains in `order`. */
  function WaitingIn(left: Slot -> Purse, order: seq<Slot>): nat {
    if order == [] then 0 else WaitingIn(left, order[..|order| - 1]) + |left(order[|order| - 1]).waiting|
  }

  lemma {:induction false} CoinCount(left: Slot -> Purse, order: seq<Slot>)
    requires forall i | 0 <= i < |order| :: left(order[i]).waiting != []
    ensures |ConsolidationCoins(left, order)| <= |order| + WaitingIn(left, order)
    ensures |order| <= WaitingIn(left, order)
  {
    if order != [] { CoinCount(left, order[..|order| - 1]); }
  }

  lemma {:induction false} DistinctAtMost256(order: seq<Slot>, slots: set<Slot>)
    requires Distinct(order) && forall i | 0 <= i < |order| :: order[i] in slots
    ensures |order| <= |slots|
  {
    if order != [] {
      var n := |order| - 1;
      assert forall i | 0 <= i < n :: order[..n][i] == order[i] != order[n];
      DistinctAtMost256(order[..n], slots - {order[n]});
    }
  }

  function SlotsBelow(n: nat): (slots: set<Slot>)
    requires n <= 256
    ensures |slots| == n && forall s: Slot :: s in slots <==> s < n
  {
    if n == 0 then {} else SlotsBelow(n - 1) + {n - 1}
  }

  lemma AtMost256(order: seq<Slot>)
    requires Distinct(order)
    ensures |order| <= 256
  {
    DistinctAtMost256(order, SlotsBelow(SLOT_COUNT));
  }

  /** Counts that need more bytes are paid for by the deposits that make them. */
  lemma CountsFit(coins: nat, slots: nat, waiting: nat)
    requires 0 < slots <= 256 && slots <= waiting && coins <= slots + waiting
    ensures 8 + CompactSizeLength(coins) + 41 * coins + CompactSizeLength(slots) + 13 * slots <= 18 + 95 * waiting
  {
  }

  lemma ConsolidationFits(op: Byte, left: Slot -> Purse, order: seq<Slot>)
    requires order != [] && Distinct(order) && forall i | 0 <= i < |order| :: left(order[i]).waiting != []
    ensures Weight(ConsolidationTx(op, left, order)) <= 4 * (18 + 95 * WaitingIn(left, order))
  {
    var coins := ConsolidationCoins(left, order);
    InputsSizeIs(coins);
    ConsolidationOutputsSize(op, left, order);
    CoinCount(left, order);
    AtMost256(order);
    CountsFit(|coins|, |order|, WaitingIn(left, order));
  }

  // ----- Sums over sidechains, in any order

  function SumOver(f: Slot -> nat, order: seq<Slot>): nat {
    if order == [] then 0 else SumOver(f, order[..|order| - 1]) + f(order[|order| - 1])
  }

  /** The same by slot number, over some of the slots. */
  ghost function Among(f: Slot -> nat, slots: set<Slot>): nat -> int {
    (i: nat) => if i < 256 && i in slots then f(i) else 0
  }

  /** Over all slots. */
  function Everywhere(f: Slot -> nat): nat -> int {
    (i: nat) => if i < 256 then f(i) else 0
  }

  lemma {:induction false} SumNotNegative(f: Slot -> nat, n: nat)
    ensures SumBelow(Everywhere(f), n) >= 0
  {
    if n > 0 { SumNotNegative(f, n - 1); }
  }

  lemma {:induction false} SumRemove(f: Slot -> nat, slots: set<Slot>, s: Slot, n: nat)
    requires s in slots
    ensures SumBelow(Among(f, slots), n) == SumBelow(Among(f, slots - {s}), n) + if s < n then f(s) else 0
  {
    if n > 0 { SumRemove(f, slots, s, n - 1); }
  }

  lemma {:induction false} SumNone(f: Slot -> nat, n: nat)
    ensures SumBelow(Among(f, {}), n) == 0
  {
    if n > 0 { SumNone(f, n - 1); }
  }

  lemma {:induction false} SumOverLists(f: Slot -> nat, order: seq<Slot>, slots: set<Slot>)
    requires Lists(order, slots)
    ensures SumOver(f, order) == SumBelow(Among(f, slots), SLOT_COUNT)
  {
    if order == [] {
      assert slots == {} by { assert forall s: Slot :: s in slots <==> s in order; }
      SumNone(f, SLOT_COUNT);
    } else {
      var n := |order| - 1;
      ListsFront(order, slots);
      SumOverLists(f, order[..n], slots - {order[n]});
      SumRemove(f, slots, order[n], SLOT_COUNT);
    }
  }

  lemma ListsFront(order: seq<Slot>, slots: set<Slot>)
    requires Lists(order, slots) && order != []
    ensures order[|order| - 1] in slots && Lists(order[..|order| - 1], slots - {order[|order| - 1]})
  {
    var n := |order| - 1;
    assert order[n] in order;
    forall s: Slot ensures s in order[..n] <==> s in slots - {order[n]} {
      assert s in slots <==> s in order;
      assert order == order[..n] + [order[n]];
      assert forall i | 0 <= i < n :: order[..n][i] != order[n];
    }
  }

  lemma {:induction false} SumCompare(a: nat -> int, b: nat -> int, c: nat -> int, n: nat)
    requires forall i: nat | i < n :: a(i) <= b(i) + 380 * c(i)
    ensures SumBelow(a, n) <= SumBelow(b, n) + 380 * SumBelow(c, n)
  {
    if n > 0 { SumCompare(a, b, c, n - 1); }
  }

  lemma {:induction false} SumApart(a: nat -> int, b: nat -> int, c: nat -> int, n: nat)
    requires forall i: nat | i < n :: a(i) + b(i) <= c(i)
    ensures SumBelow(a, n) + SumBelow(b, n) <= SumBelow(c, n)
  {
    if n > 0 { SumApart(a, b, c, n - 1); }
  }

  // ----- The whole suffix

  function SlotTxsWeight(p: Params, proposals: Proposals, ctips: Ctips): Slot -> nat {
    (s: Slot) => TxsWeight(PaymentTxs(SlotResult(p, proposals, ctips, s).payments))
  }

  lemma {:induction false} M6sWeight(p: Params, proposals: Proposals, ctips: Ctips, order: seq<Slot>)
    ensures TxsWeight(M6s(p, proposals, ctips, order)) == SumOver(SlotTxsWeight(p, proposals, ctips), order)
  {
    if order != [] {
      var n := |order| - 1;
      M6sWeight(p, proposals, ctips, order[..n]);
      SumSeqAppend(Weight, M6s(p, proposals, ctips, order[..n]),
          PaymentTxs(SlotResult(p, proposals, ctips, order[n]).payments));
    }
  }

  /** The deposits of each sidechain. */
  function DepositCount(ctips: Ctips): Slot -> nat {
    (s: Slot) => |PurseOf(ctips, s).waiting|
  }

  /** The deposits that a payout spends. */
  function PaidDeposits(p: Params, proposals: Proposals, ctips: Ctips): Slot -> nat {
    (s: Slot) => if SlotResult(p, proposals, ctips, s).payments == [] then 0 else |PurseOf(ctips, s).waiting|
  }

  function LeftDeposits(left: Slot -> Purse): Slot -> nat {
    (s: Slot) => |left(s).waiting|
  }

  lemma {:induction false} WaitingInIs(left: Slot -> Purse, order: seq<Slot>)
    ensures WaitingIn(left, order) == SumOver(LeftDeposits(left), order)
  {
    if order != [] { WaitingInIs(left, order[..|order| - 1]); }
  }

  /** Deposits are either spent by a payout or left over. */
  lemma DepositsSplit(p: Params, proposals: Proposals, ctips: Ctips, s: Slot)
    ensures |SlotResult(p, proposals, ctips, s).purse.waiting| + PaidDeposits(p, proposals, ctips)(s)
        == DepositCount(ctips)(s)
    ensures SlotResult(p, proposals, ctips, s).purse.waiting != [] ==> PaidDeposits(p, proposals, ctips)(s) == 0
  {
    var cands := CandidatesOf(proposals, s);
    PaySlotSound(p, s, cands, |cands|, PurseOf(ctips, s));
  }

  ghost function AllDeposits(ctips: Ctips): int {
    SumBelow(Everywhere(DepositCount(ctips)), SLOT_COUNT)
  }

  /** What a template reserves: for the same bundles, on treasuries that cover
      every approved one. */
  ghost predicate Reserves(p: Params, actual: Proposals, reserved: Proposals, rich: Ctips) {
    && actual.Keys == reserved.Keys
    && (forall s | s in actual :: Filtered(p, actual[s], reserved[s]))
    && (forall s | s in reserved ::
          && PurseOf(rich, s).ctip.Some? && PurseOf(rich, s).waiting == []
          && ApprovedValue(p, reserved[s], |reserved[s]|) <= PurseValue(PurseOf(rich, s)))
  }

  lemma PayoutsFit(p: Params, actual: Proposals, reserved: Proposals, ctips: Ctips, rich: Ctips, order: seq<Slot>,
                   order': seq<Slot>)
    requires Reserves(p, actual, reserved, rich) && Lists(order, actual.Keys) && Lists(order', reserved.Keys)
    ensures TxsWeight(M6s(p, actual, ctips, order))
         <= TxsWeight(M6s(p, reserved, rich, order'))
             + 380 * SumBelow(Everywhere(PaidDeposits(p, actual, ctips)), SLOT_COUNT)
  {
    M6sWeight(p, actual, ctips, order);
    M6sWeight(p, reserved, rich, order');
    SumOverLists(SlotTxsWeight(p, actual, ctips), order, actual.Keys);
    SumOverLists(SlotTxsWeight(p, reserved, rich), order', reserved.Keys);
    var a, b := Among(SlotTxsWeight(p, actual, ctips), actual.Keys),
        Among(SlotTxsWeight(p, reserved, rich), reserved.Keys);
    var c := Everywhere(PaidDeposits(p, actual, ctips));
    forall i: nat | i < SLOT_COUNT ensures a(i) <= b(i) + 380 * c(i) {
        PayoutsFitAt(p, actual, reserved, ctips, rich, i); }
    SumCompare(a, b, c, SLOT_COUNT);
  }

  lemma PayoutsFitAt(p: Params, actual: Proposals, reserved: Proposals, ctips: Ctips, rich: Ctips, s: Slot)
    requires Reserves(p, actual, reserved, rich)
    ensures Among(SlotTxsWeight(p, actual, ctips), actual.Keys)(s)
         <= Among(SlotTxsWeight(p, reserved, rich), reserved.Keys)(s)
             + 380 * Everywhere(PaidDeposits(p, actual, ctips))(s)
  {
    if s in actual { SlotFits(p, s, actual[s], reserved[s], PurseOf(ctips, s), PurseOf(rich, s)); }
  }

  lemma RestFits(p: Params, proposals: Proposals, ctips: Ctips, rest: seq<Slot>)
    requires Lists(rest, Leftover(Left(p, proposals, ctips)))
    ensures SumBelow(Everywhere(PaidDeposits(p, proposals, ctips)), SLOT_COUNT)
        + WaitingIn(Left(p, proposals, ctips), rest) <= AllDeposits(ctips)
  {
    var left := Left(p, proposals, ctips);
    WaitingInIs(left, rest);
    SumOverLists(LeftDeposits(left), rest, Leftover(left));
    var a, b := Everywhere(PaidDeposits(p, proposals, ctips)), Among(LeftDeposits(left), Leftover(left));
    var c := Everywhere(DepositCount(ctips));
    forall i: nat | i < SLOT_COUNT ensures a(i) + b(i) <= c(i) { RestFitsAt(p, proposals, ctips, i); }
    SumApart(a, b, c, SLOT_COUNT);
  }

  lemma RestFitsAt(p: Params, proposals: Proposals, ctips: Ctips, s: Slot)
    ensures var left := Left(p, proposals, ctips);
      Everywhere(PaidDeposits(p, proposals, ctips))(s) + Among(LeftDeposits(left), Leftover(left))(s)
          <= Everywhere(DepositCount(ctips))(s)
  {
    DepositsSplit(p, proposals, ctips, s);
  }

  /** Besides the reserved payouts, the suffix needs no more than the variable part
      of the allowance for each deposit, and one fixed part. */
  lemma WithinDeposits(p: Params, actual: Proposals, reserved: Proposals, ctips: Ctips, rich: Ctips,
                       order: seq<Slot>, rest: seq<Slot>, order': seq<Slot>)
    requires Reserves(p, actual, reserved, rich) && Lists(order, actual.Keys) && Lists(order', reserved.Keys)
    requires Lists(rest, Leftover(Left(p, actual, ctips)))
    ensures TxsWeight(SuffixOf(p, actual, ctips, order, rest))
         <= TxsWeight(M6s(p, reserved, rich, order')) + 380 * AllDeposits(ctips) + if AllDeposits(ctips) > 0 then 72
             else 0
  {
    PayoutsFit(p, actual, reserved, ctips, rich, order, order');
    RestFits(p, actual, ctips, rest);
    SuffixWeightIs(p, actual, ctips, order, rest);
    SumNotNegative(PaidDeposits(p, actual, ctips), SLOT_COUNT);
    if rest != [] { LeftoverFits(p, actual, ctips, rest); }
  }

  lemma SuffixWeightIs(p: Params, proposals: Proposals, ctips: Ctips, order: seq<Slot>, rest: seq<Slot>)
    ensures TxsWeight(SuffixOf(p, proposals, ctips, order, rest))
         == TxsWeight(M6s(p, proposals, ctips, order)) + if rest == [] then 0
             else Weight(ConsolidationTx(p.op, Left(p, proposals, ctips), rest))
  {
    var txs := M6s(p, proposals, ctips, order);
    if rest == [] {
      assert txs + [] == txs;
    } else {
      SumSeqOne(Weight, txs, ConsolidationTx(p.op, Left(p, proposals, ctips), rest));
    }
  }

  lemma LeftoverFits(p: Params, proposals: Proposals, ctips: Ctips, rest: seq<Slot>)
    requires rest != [] && Lists(rest, Leftover(Left(p, proposals, ctips)))
    ensures Weight(ConsolidationTx(p.op, Left(p, proposals, ctips), rest)) <= 72
        + 380 * WaitingIn(Left(p, proposals, ctips), rest)
    ensures WaitingIn(Left(p, proposals, ctips), rest) > 0
  {
    var left := Left(p, proposals, ctips);
    forall i | 0 <= i < |rest| ensures left(rest[i]).waiting != [] {
      assert rest[i] in rest && rest[i] in Leftover(left);
    }
    ConsolidationFits(p.op, left, rest);
    CoinCount(left, rest);
  }
}
