/** Exactly which stored bundles a suffix pays out. */
module SuffixPays {
  import opened Prelude
  import opened Ledger
  import opened Validator
  import BlindedM6
  import opened Suffix
  import opened Reservation

  /** The bundle is pending, with more votes than the threshold. */
  ghost predicate StillVoted(p: Params, st: State, slot: Slot, b: BlindedM6.Bundle) {
    slot in st.pending && exists j | 0 <= j < |st.pending[slot]| ::
      st.pending[slot][j].m6id == p.txid(b.tx) && st.pending[slot][j].votes > p.bundleThreshold
  }

  /** The filter takes the votes of exactly those bundles that are no longer
      pending with the votes, and changes nothing else. */
  lemma FilterExactly(p: Params, st: State, proposals: Proposals, s: Slot, i: nat)
    requires s in proposals && i < |proposals[s]|
    ensures var filtered := FilterPayable(p, st, proposals);
      && filtered.Keys == proposals.Keys && |filtered[s]| == |proposals[s]|
      && filtered[s][i] == if StillVoted(p, st, s, proposals[s][i].bundle) then proposals[s][i]
                           else Candidate(proposals[s][i].bundle, None)
  {
  }

  // ----- Paying in order

  /** The payouts of the bundles before the `i`-th, in value. */
  ghost function PaidBefore(p: Params, slot: Slot, cands: seq<Candidate>, i: nat, purse: Purse): nat
    requires i <= |cands|
  {
    Paid(PaySlot(p, slot, cands, i, purse).payments)
  }

  lemma OnePayment(payments: seq<Payment>, payment: Payment)
    ensures Paid(payments + [payment]) == Paid(payments) + payment.bundle.payout + payment.bundle.fee
  {
    assert (payments + [payment])[..|payments|] == payments;
  }

  /** Whether the `i`-th bundle is paid: it has votes on record above the
      threshold, the slot has a treasury, and what the earlier payouts leave of it
      covers payout and fee. */
  ghost predicate PaysAt(p: Params, slot: Slot, cands: seq<Candidate>, i: nat, purse: Purse)
    requires i < |cands|
  {
    var c := cands[i];
    && c.votes.Some? && c.votes.value > p.bundleThreshold && purse.ctip.Some?
    && PaidBefore(p, slot, cands, i, purse) + c.bundle.payout + c.bundle.fee <= PurseValue(purse)
  }

  /** The `i`-th bundle adds its own payment exactly when it is paid. */
  lemma PayStepExactly(p: Params, slot: Slot, cands: seq<Candidate>, i: nat, purse: Purse)
    requires i < |cands|
    ensures var before, after := PaySlot(p, slot, cands, i, purse), PaySlot(p, slot, cands, i + 1, purse);
      if PaysAt(p, slot, cands, i, purse)
      then |after.payments| == |before.payments| + 1 && after.payments[..|before.payments|] == before.payments
        && after.payments[|before.payments|].bundle == cands[i].bundle
      else after.payments == before.payments
  {
    PaySlotSound(p, slot, cands, i, purse);
    var before := PaySlot(p, slot, cands, i, purse);
    assert PaySlot(p, slot, cands, i + 1, purse) == PayNext(p, slot, before, cands[i]);
    assert before.purse.ctip.Some? <==> purse.ctip.Some?;
  }

  /** What earlier payouts took: payout and fee of each bundle that is paid. */
  lemma PaidBeforeIs(p: Params, slot: Slot, cands: seq<Candidate>, i: nat, purse: Purse)
    requires i < |cands|
    ensures PaidBefore(p, slot, cands, 0, purse) == 0
    ensures PaidBefore(p, slot, cands, i + 1, purse) == PaidBefore(p, slot, cands, i, purse)
      + if PaysAt(p, slot, cands, i, purse) then cands[i].bundle.payout + cands[i].bundle.fee else 0
  {
    PayStepExactly(p, slot, cands, i, purse);
    var before, after := PaySlot(p, slot, cands, i, purse).payments, PaySlot(p, slot, cands, i + 1, purse).payments;
    if PaysAt(p, slot, cands, i, purse) {
      OnePayment(before, after[|before|]);
      assert after == before + [after[|before|]];
    }
  }

  ghost predicate PaysBundle(payments: seq<Payment>, b: BlindedM6.Bundle) {
    exists k | 0 <= k < |payments| :: payments[k].bundle == b
  }

  lemma {:induction false} PaidSoFar(p: Params, slot: Slot, cands: seq<Candidate>, n: nat, purse: Purse,
                                     b: BlindedM6.Bundle)
    requires n <= |cands|
    ensures PaysBundle(PaySlot(p, slot, cands, n, purse).payments, b) <==>
      exists i | 0 <= i < n :: cands[i].bundle == b && PaysAt(p, slot, cands, i, purse)
  {
    if n > 0 {
      PaidSoFar(p, slot, cands, n - 1, purse, b);
      PayStepExactly(p, slot, cands, n - 1, purse);
      var before, after := PaySlot(p, slot, cands, n - 1, purse).payments, PaySlot(p, slot, cands, n, purse).payments;
      PaysMore(before, after, b);
    }
  }

  lemma PaysMore(before: seq<Payment>, after: seq<Payment>, b: BlindedM6.Bundle)
    requires |before| <= |after| <= |before| + 1 && after[..|before|] == before
    ensures PaysBundle(after, b) <==> PaysBundle(before, b) || (|after| > |before| && after[|before|].bundle == b)
  {
    assert forall k | 0 <= k < |before| :: after[k] == before[k];
  }

  // ----- The whole suffix

  lemma {:induction false} InM6s(p: Params, proposals: Proposals, ctips: Ctips, order: seq<Slot>, s: Slot, k: nat)
    requires s in order && k < |SlotResult(p, proposals, ctips, s).payments|
    ensures SlotResult(p, proposals, ctips, s).payments[k].tx in M6s(p, proposals, ctips, order)
  {
    var n := |order| - 1;
    var last := PaymentTxs(SlotResult(p, proposals, ctips, order[n]).payments);
    if order[n] == s {
      assert last[k] in last;
    } else {
      InM6s(p, proposals, ctips, order[..n], s, k);
    }
  }

  /** The suffix pays a stored bundle out exactly when it has votes on record above
      the threshold, is still pending with the votes behind the prefix, its slot has
      a treasury, and what earlier payouts leave of it covers payout and fee; and
      then its transaction is among the suffix's. */
  lemma SuffixPaysExactly(p: Params, st: State, proposals: Proposals, ctips: Ctips, order: seq<Slot>, rest: seq<Slot>,
                          s: Slot, i: nat)
    requires s in proposals && i < |proposals[s]| && s in order
    requires forall j | 0 <= j < |proposals[s]| && j != i :: proposals[s][j].bundle != proposals[s][i].bundle
    ensures var filtered, c := FilterPayable(p, st, proposals), proposals[s][i];
      && |filtered[s]| == |proposals[s]|
      && var payments := SlotResult(p, filtered, ctips, s).payments;
      && (PaysBundle(payments, c.bundle) <==>
            && c.votes.Some? && c.votes.value > p.bundleThreshold && StillVoted(p, st, s, c.bundle)
            && s in ctips.consolidated
            && PaidBefore(p, s, filtered[s], i, PurseOf(ctips, s)) + c.bundle.payout + c.bundle.fee
               <= PurseValue(PurseOf(ctips, s)))
      && forall k | 0 <= k < |payments| :: payments[k].tx in SuffixOf(p, filtered, ctips, order, rest)
  {
    var filtered, c := FilterPayable(p, st, proposals), proposals[s][i];
    var purse := PurseOf(ctips, s);
    FilterExactly(p, st, proposals, s, i);
    PaidSoFar(p, s, filtered[s], |filtered[s]|, purse, c.bundle);
    forall j | 0 <= j < |filtered[s]| ensures filtered[s][j].bundle == proposals[s][j].bundle {
      FilterExactly(p, st, proposals, s, j);
    }
    assert PaysBundle(SlotResult(p, filtered, ctips, s).payments, c.bundle) <==> PaysAt(p, s, filtered[s], i, purse);
    var payments := SlotResult(p, filtered, ctips, s).payments;
    forall k | 0 <= k < |payments| ensures payments[k].tx in SuffixOf(p, filtered, ctips, order, rest) {
      InM6s(p, filtered, ctips, order, s, k);
    }
  }
}
