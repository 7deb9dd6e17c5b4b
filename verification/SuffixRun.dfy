/** The validator accepts the producer's whole run of payouts: what each leaves
    is what the next one spends. */
module SuffixRun {
  import opened Prelude
  import opened Script
  import opened Transactions
  import opened Treasury
  import opened Ledger
  import opened Validator
  import opened TreasuryTxs
  import opened Accounting
  import opened Blocks
  import BlindedM6
  import opened Suffix
  import opened SuffixAccepted

  // ----- The producer's view of the treasuries is the validator's

  ghost predicate UniqueOutpoints(stacks: Stacks) {
    forall s: Slot, i: nat, s': Slot, i': nat | At(stacks, s, i) && At(stacks, s', i')
        && stacks[s][i].outpoint == stacks[s'][i'].outpoint ::
      s == s' && i == i'
  }

  ghost predicate MirrorsWaiting(uncon: Unconsolidated, s: Slot, waiting: seq<Ctip>) {
    && DistinctOutpoints(waiting)
    && (forall i | 0 <= i < |waiting| ::
          waiting[i].outpoint in uncon && uncon[waiting[i].outpoint] == (s, waiting[i].value))
    && (forall o | o in uncon && uncon[o].0 == s :: o in Outpoints(waiting))
  }

  /** The same treasuries and the same deposits, which are not treasuries. */
  ghost predicate Mirror(st: State, uncon: Unconsolidated, ctips: Ctips) {
    && UniqueOutpoints(st.treasury)
    && (forall s: Slot :: PurseOf(ctips, s).ctip == CtipOf(st.treasury, s))
    && (forall s: Slot :: MirrorsWaiting(uncon, s, PurseOf(ctips, s).waiting))
    && (forall o | o in uncon :: !Recorded(st.treasury, o))
    && (forall o | o in uncon :: uncon[o].0 in st.active && CtipOf(st.treasury, uncon[o].0).Some?)
  }

  lemma FindsTop(stacks: Stacks, s: Slot)
    requires UniqueOutpoints(stacks) && CtipOf(stacks, s).Some?
    ensures Find(stacks, CtipOf(stacks, s).value.outpoint) == Some((s, CtipOf(stacks, s).value.value))
  {
    var n := |stacks[s]| - 1;
    var o := CtipOf(stacks, s).value.outpoint;
    assert At(stacks, s, n) && stacks[s][n].outpoint == o;
    assert Recorded(stacks, o);
    var s': Slot, i': nat :| s' in stacks && 0 <= i' < |stacks[s']| && stacks[s'][i'].outpoint == o
      && Find(stacks, o) == Some((s', stacks[s'][i'].value));
    assert At(stacks, s', i');
  }

  lemma MirrorKnows(st: State, uncon: Unconsolidated, ctips: Ctips, s: Slot)
    requires Mirror(st, uncon, ctips)
    ensures KnownCoins(st, uncon, s, PurseOf(ctips, s))
  {
    var purse := PurseOf(ctips, s);
    if purse.ctip.Some? { FindsTop(st.treasury, s); }
    assert MirrorsWaiting(uncon, s, purse.waiting);
    forall i | 0 <= i < |purse.waiting| ensures KnownWaiting(st, uncon, s, purse.waiting[i]) {
      assert purse.waiting[i].outpoint in uncon;
    }
  }

  // ----- Where the treasuries come from

  /** `o` is output 0 of a transaction that spends `prev` first and pays slot
      `s`'s treasury first. */
  ghost predicate MadeBy(p: Params, s: Slot, o: OutPoint, prev: OutPoint) {
    exists tx :: MakesTreasury(p, tx, s, prev) && o == OutPoint(p.txid(tx), 0)
  }

  ghost predicate MakesTreasury(p: Params, tx: Transaction, s: Slot, prev: OutPoint) {
    && tx.inputs != [] && tx.inputs[0].previous == prev
    && tx.outputs != [] && tx.outputs[0].script == TreasuryScript(p.op, s)
  }

  ghost predicate KeptAt(base: Stacks, stacks: Stacks, s: Slot, i: nat)
    requires At(base, s, i)
  {
    At(stacks, s, i) && stacks[s][i] == base[s][i]
  }

  ghost predicate MadeFromBelow(p: Params, stacks: Stacks, s: Slot, i: nat)
    requires At(stacks, s, i)
  {
    i > 0 && MadeBy(p, s, stacks[s][i].outpoint, stacks[s][i - 1].outpoint)
  }

  /** The treasuries on top of `base` were each made from the one below. */
  ghost predicate Grown(p: Params, base: Stacks, stacks: Stacks) {
    && (forall s: Slot, i: nat | At(base, s, i) :: KeptAt(base, stacks, s, i))
    && (forall s: Slot, i: nat | At(stacks, s, i) :: At(base, s, i) || MadeFromBelow(p, stacks, s, i))
  }

  ghost predicate NewId(base: Stacks, waiting: set<OutPoint>, txid: Txid) {
    && (forall s: Slot, i: nat | At(base, s, i) :: base[s][i].outpoint.txid != txid)
    && (forall o | o in waiting :: o.txid != txid)
  }

  lemma DistinctTreasuryScripts(op: Byte, s: Slot, s': Slot)
    requires s != s'
    ensures TreasuryScript(op, s) != TreasuryScript(op, s')
  {
    assert TreasuryScript(op, s)[2] != TreasuryScript(op, s')[2];
  }

  /** A transaction that spends the current treasury leaves an outpoint that was
      never a treasury. */
  lemma SuccessorIsNew(p: Params, base: Stacks, stacks: Stacks, tx: Transaction, s: Slot)
    requires CollisionFree(p.txid) && UniqueOutpoints(stacks) && Grown(p, base, stacks)
    requires CtipOf(stacks, s).Some? && MakesTreasury(p, tx, s, CtipOf(stacks, s).value.outpoint)
    requires NewId(base, {}, p.txid(tx))
    ensures !Recorded(stacks, OutPoint(p.txid(tx), 0))
  {
    forall s': Slot, i: nat | At(stacks, s', i)
        ensures stacks[s'][i].outpoint.txid != p.txid(tx) || stacks[s'][i].outpoint.vout != 0 {
      if At(base, s', i) {
        assert KeptAt(base, stacks, s', i);
      } else {
        assert MadeFromBelow(p, stacks, s', i);
        var tx' :| MakesTreasury(p, tx', s', stacks[s'][i - 1].outpoint)
            && stacks[s'][i].outpoint == OutPoint(p.txid(tx'), 0);
        if s' != s {
          DistinctTreasuryScripts(p.op, s, s');
        } else {
          assert At(stacks, s, i - 1) && At(stacks, s, |stacks[s]| - 1) && i - 1 != |stacks[s]| - 1;
        }
        assert tx' != tx;
      }
    }
    assert forall s', i :: s' in stacks && 0 <= i < |stacks[s']| ==> At(stacks, s', i);
  }

  // ----- One payout

  lemma PushKeepsUnique(stacks: Stacks, s: Slot, c: Ctip)
    requires UniqueOutpoints(stacks) && !Recorded(stacks, c.outpoint)
    ensures UniqueOutpoints(Push(stacks, s, c))
  {
    AtPush(stacks, s, c);
    var after := Push(stacks, s, c);
    forall s1: Slot, i1: nat, s2: Slot, i2: nat | At(after, s1, i1) && At(after, s2, i2)
        && after[s1][i1].outpoint == after[s2][i2].outpoint
      ensures s1 == s2 && i1 == i2
    {
      assert At(stacks, s1, i1) ==> stacks[s1][i1].outpoint != c.outpoint;
      assert At(stacks, s2, i2) ==> stacks[s2][i2].outpoint != c.outpoint;
    }
  }

  lemma PushKeepsGrown(p: Params, base: Stacks, stacks: Stacks, s: Slot, c: Ctip)
    requires Grown(p, base, stacks) && CtipOf(stacks, s).Some?
    requires MadeBy(p, s, c.outpoint, CtipOf(stacks, s).value.outpoint)
    ensures Grown(p, base, Push(stacks, s, c))
  {
    AtPush(stacks, s, c);
    var after, n := Push(stacks, s, c), |stacks[s]|;
    forall s1: Slot, i: nat | At(after, s1, i) && !At(base, s1, i) ensures MadeFromBelow(p, after, s1, i) {
      if s1 == s && i == n {
        assert At(stacks, s, n - 1);
      } else {
        assert MadeFromBelow(p, stacks, s1, i);
        assert At(stacks, s1, i - 1);
      }
    }
    forall s1: Slot, i: nat | At(base, s1, i) ensures KeptAt(base, after, s1, i) {
      assert KeptAt(base, stacks, s1, i);
    }
  }

  lemma PushRecords(stacks: Stacks, s: Slot, c: Ctip, o: OutPoint)
    ensures Recorded(Push(stacks, s, c), o) ==> Recorded(stacks, o) || o == c.outpoint
    ensures forall s': Slot :: CtipOf(Push(stacks, s, c), s') == if s' == s then Some(c) else CtipOf(stacks, s')
  {
    AtPush(stacks, s, c);
    var after := Push(stacks, s, c);
    if Recorded(after, o) {
      var s1: Slot, i: nat :| s1 in after && 0 <= i < |after[s1]| && after[s1][i].outpoint == o;
      assert At(after, s1, i);
    }
  }

  lemma WaitingPaid(uncon: Unconsolidated, s: Slot, waiting: seq<Ctip>, s': Slot, waiting': seq<Ctip>)
    requires MirrorsWaiting(uncon, s, waiting) && MirrorsWaiting(uncon, s', waiting')
    ensures MirrorsWaiting(uncon - Outpoints(waiting), s', if s' == s then [] else waiting')
  {
    var left := uncon - Outpoints(waiting);
    assert forall o | o in Outpoints(waiting) :: o in uncon && uncon[o].0 == s;
    assert s' != s ==> forall i | 0 <= i < |waiting'| :: waiting'[i].outpoint in left;
  }

  /** Paying keeps the two views the same. */
  lemma MirrorPaid(st: State, uncon: Unconsolidated, ctips: Ctips, s: Slot, c: Ctip, st': State)
    requires Mirror(st, uncon, ctips) && !Recorded(st.treasury, c.outpoint) && c.outpoint !in uncon
    requires st'.treasury == Push(st.treasury, s, c) && st'.active == st.active
    ensures Mirror(st', uncon - Outpoints(PurseOf(ctips, s).waiting), SetPurse(ctips, s, c))
  {
    var uncon' := uncon - Outpoints(PurseOf(ctips, s).waiting);
    PushKeepsUnique(st.treasury, s, c);
    PushRecords(st.treasury, s, c, c.outpoint);
    forall s': Slot
      ensures PurseOf(SetPurse(ctips, s, c), s').ctip == CtipOf(st'.treasury, s')
      ensures MirrorsWaiting(uncon', s', PurseOf(SetPurse(ctips, s, c), s').waiting)
    {
      PurseSet(ctips, s, c, s');
      assert MirrorsWaiting(uncon, s', PurseOf(ctips, s').waiting)
          && MirrorsWaiting(uncon, s, PurseOf(ctips, s).waiting);
      WaitingPaid(uncon, s, PurseOf(ctips, s).waiting, s', PurseOf(ctips, s').waiting);
    }
    forall o | o in uncon' ensures !Recorded(st'.treasury, o) {
      PushRecords(st.treasury, s, c, o);
    }
  }

  // ----- Running one sidechain's payouts

  /** An approved candidate is recognisable and pending with enough votes, and no
      two have the same id. */
  ghost predicate Ready(p: Params, st: State, slot: Slot, cands: seq<Candidate>, n: nat) {
    && slot in st.active && slot in st.pending && DistinctIds(st.pending[slot])
    && (forall i | n <= i < |cands| && Suffix.Approved(p, cands[i]) ::
          Recognisable(p, st, cands[i].bundle) && HasVotes(p, st, slot, cands[i].bundle))
    && (forall i, j | 0 <= i < j < |cands| && Suffix.Approved(p, cands[i]) && Suffix.Approved(p, cands[j]) ::
          p.txid(cands[i].bundle.tx) != p.txid(cands[j].bundle.tx))
  }

  ghost predicate HasVotes(p: Params, st: State, slot: Slot, b: BlindedM6.Bundle) {
    exists i: nat :: VotedAt(p, st, slot, b, i)
  }

  /** Everything the run of payouts keeps. */
  ghost predicate Inv(p: Params, base: Stacks, waiting: set<OutPoint>, at: TxProgress, ctips: Ctips) {
    && Mirror(at.st, at.uncon, ctips) && Grown(p, base, at.st.treasury) && at.uncon.Keys <= waiting
  }

  /** Only this sidechain's bundles changed. */
  ghost predicate OnlyPending(st: State, st': State, slot: Slot) {
    && st'.active == st.active && st'.pending.Keys == st.pending.Keys
    && forall s | s in st.pending && s != slot :: st'.pending[s] == st.pending[s]
  }

  lemma NoRequest(tx: Transaction, op: Byte, slot: Slot)
    requires tx.outputs != [] && tx.outputs[0].script == TreasuryScript(op, slot)
    ensures ParseM8(tx).None?
  {
  }

  lemma WithoutOther(pending: seq<Pending>, i: nat, j: nat)
    requires i < |pending| && j < |pending| && i != j && DistinctIds(pending)
    ensures DistinctIds(WithoutId(pending, pending[i].m6id))
    ensures exists k ::
        0 <= k < |WithoutId(pending, pending[i].m6id)| && WithoutId(pending, pending[i].m6id)[k] == pending[j]
  {
    WithoutIdAt(pending, i);
    var rest := pending[..i] + pending[i + 1..];
    assert rest[if j < i then j else j - 1] == pending[j];
    RemovedDistinct(pending, pending[i].m6id);
  }

  /** The bundles behind a paid one stay ready. */
  lemma StillReady(p: Params, st: State, st': State, slot: Slot, cands: seq<Candidate>, n: nat, k: nat)
    requires n < |cands| && Suffix.Approved(p, cands[n]) && Ready(p, st, slot, cands, n)
    requires VotedAt(p, st, slot, cands[n].bundle, k)
    requires OnlyPending(st, st', slot) && st'.pending[slot] == WithoutId(st.pending[slot], p.txid(cands[n].bundle.tx))
    ensures Ready(p, st', slot, cands, n + 1)
  {
    RemovedDistinct(st.pending[slot], p.txid(cands[n].bundle.tx));
    forall i | n + 1 <= i < |cands| && Suffix.Approved(p, cands[i])
      ensures Recognisable(p, st', cands[i].bundle) && HasVotes(p, st', slot, cands[i].bundle)
    {
      var b := cands[i].bundle;
      assert Recognisable(p, st, b) && HasVotes(p, st, slot, b);
      var j: nat :| VotedAt(p, st, slot, b, j);
      WithoutOther(st.pending[slot], k, j);
      var k': nat :| 0 <= k' < |st'.pending[slot]| && st'.pending[slot][k'] == st.pending[slot][j];
      assert VotedAt(p, st', slot, b, k');
    }
  }

  /** What a payout does to the validator. */
  lemma PayoutStep(p: Params, accepted: map<Slot, Bytes>, parent: Bytes, at: TxProgress, slot: Slot, purse: Purse,
                   b: BlindedM6.Bundle, k: nat)
    requires CollisionFree(p.txid) && Recognisable(p, at.st, b) && VotedAt(p, at.st, slot, b, k)
    requires purse.ctip.Some? && b.payout + b.fee <= PurseValue(purse) <= U64_MAX
    requires slot in at.st.active && KnownCoins(at.st, at.uncon, slot, purse)
    ensures var payment := Pay(p, slot, purse, b);
      var next := TxStep(p, accepted, parent, at, payment.tx);
      && next.Ok? && next.value.uncon == at.uncon - Outpoints(purse.waiting) && next.value.requested == at.requested
      && next.value.st == ApplyTx(M6(slot, payment.successor, k, at.st.pending[slot][k]), at.st)
  {
    PayOk(p, slot, purse, b);
    WithdrawalAccepted(p, at.st, at.uncon, slot, purse, b, k);
    FinalizedShape(p, at.st, slot, Coins(purse), b);
    NoRequest(Pay(p, slot, purse, b).tx, p.op, slot);
  }

  lemma PayoutMakes(p: Params, stacks: Stacks, slot: Slot, purse: Purse, b: BlindedM6.Bundle)
    requires BlindedM6.Valid(b) && purse.ctip.Some? && purse.ctip == CtipOf(stacks, slot)
    requires b.payout + b.fee <= PurseValue(purse)
    ensures var payment := Pay(p, slot, purse, b);
      && MakesTreasury(p, payment.tx, slot, CtipOf(stacks, slot).value.outpoint)
      && payment.successor.outpoint == OutPoint(p.txid(payment.tx), 0)
      && MadeBy(p, slot, payment.successor.outpoint, CtipOf(stacks, slot).value.outpoint)
  {
    BlindedM6.ValidBundle(b);
    var tx := Pay(p, slot, purse, b).tx;
    assert tx.inputs[0] == Spend(Coins(purse)[0].outpoint);
    assert MakesTreasury(p, tx, slot, CtipOf(stacks, slot).value.outpoint);
  }

  /** The new treasury keeps the invariant. */
  lemma PayoutKeeps(p: Params, base: Stacks, waiting: set<OutPoint>, at: TxProgress, next: TxProgress, ctips: Ctips,
                    slot: Slot, b: BlindedM6.Bundle)
    requires CollisionFree(p.txid) && Inv(p, base, waiting, at, ctips)
    requires BlindedM6.Valid(b) && PurseOf(ctips, slot).ctip.Some?
        && b.payout + b.fee <= PurseValue(PurseOf(ctips, slot))
    requires NewId(base, waiting, p.txid(Pay(p, slot, PurseOf(ctips, slot), b).tx))
    requires next.uncon == at.uncon - Outpoints(PurseOf(ctips, slot).waiting) && next.st.active == at.st.active
    requires next.st.treasury == Push(at.st.treasury, slot, Pay(p, slot, PurseOf(ctips, slot), b).successor)
    ensures Inv(p, base, waiting, next, SetPurse(ctips, slot, Pay(p, slot, PurseOf(ctips, slot), b).successor))
  {
    var payment := Pay(p, slot, PurseOf(ctips, slot), b);
    PayoutMakes(p, at.st.treasury, slot, PurseOf(ctips, slot), b);
    SuccessorIsNew(p, base, at.st.treasury, payment.tx, slot);
    MirrorPaid(at.st, at.uncon, ctips, slot, payment.successor, next.st);
    PushKeepsGrown(p, base, at.st.treasury, slot, payment.successor);
  }

  /** One payout is accepted and keeps everything. */
  lemma PayoutAccepted(p: Params, accepted: map<Slot, Bytes>, parent: Bytes, base: Stacks, waiting: set<OutPoint>,
                       at: TxProgress, ctips: Ctips, slot: Slot, cands: seq<Candidate>, n: nat)
    requires CollisionFree(p.txid) && Inv(p, base, waiting, at, ctips)
    requires n < |cands| && Ready(p, at.st, slot, cands, n) && Suffix.Payable(p, PurseOf(ctips, slot), cands[n])
    requires BlindedM6.Valid(cands[n].bundle) && PurseValue(PurseOf(ctips, slot)) <= U64_MAX
    requires NewId(base, waiting, p.txid(Pay(p, slot, PurseOf(ctips, slot), cands[n].bundle).tx))
    ensures var payment := Pay(p, slot, PurseOf(ctips, slot), cands[n].bundle);
      var next := TxStep(p, accepted, parent, at, payment.tx);
      && next.Ok? && Inv(p, base, waiting, next.value, SetPurse(ctips, slot, payment.successor))
      && Ready(p, next.value.st, slot, cands, n + 1) && OnlyPending(at.st, next.value.st, slot)
      && next.value.requested == at.requested
  {
    var purse, b := PurseOf(ctips, slot), cands[n].bundle;
    assert Recognisable(p, at.st, b) && HasVotes(p, at.st, slot, b);
    var k: nat :| VotedAt(p, at.st, slot, b, k);
    MirrorKnows(at.st, at.uncon, ctips, slot);
    PayoutStep(p, accepted, parent, at, slot, purse, b, k);
    var next := TxStep(p, accepted, parent, at, Pay(p, slot, purse, b).tx).value;
    PayoutKeeps(p, base, waiting, at, next, ctips, slot, b);
    StillReady(p, at.st, next.st, slot, cands, n, k);
  }
}
