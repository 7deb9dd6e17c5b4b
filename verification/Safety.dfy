/** What no block can do: count votes faster than one a block, pay out a bundle
    before it could have its votes, or shrink a treasury without paying out. */
module Safety {
  import opened Prelude
  import opened Runs
  import opened Transactions
  import opened Messages
  import opened CoinbaseList
  import opened Treasury
  import opened Ledger
  import opened Validator
  import opened TreasuryTxs
  import opened Accounting
  import opened Blocks

  // ----- Votes grow by at most one a block

  /** A bundle starts with one vote and gains at most one in each block from the
      one that proposes it on; `m4` is whether this block has voted already. */
  predicate BundleBounded(p: Params, b: Pending, height: nat, m4: bool) {
    && b.proposalHeight <= height <= b.proposalHeight + p.bundleMaxAge + 1
    && b.votes <= height - b.proposalHeight + (if m4 then 2 else 1)
    && b.votes <= U16_MAX
  }

  /** A proposal gains at most one vote in each block after the one that makes
      it; `acked` is whether this block has voted on its slot already. */
  predicate ProposalBounded(p: Params, s: Sidechain, height: nat, acked: bool) {
    && s.proposalHeight <= height <= s.proposalHeight + MaxAge(p) + 1
    && s.votes <= SatSub(height - s.proposalHeight, if acked then 0 else 1)
  }

  function MaxAge(p: Params): nat {
    if p.bundleMaxAge > p.slotMaxAge then p.bundleMaxAge else p.slotMaxAge
  }

  ghost predicate SeenM4(entries: seq<Entry>, n: nat)
    requires n <= |entries|
  {
    exists i | 0 <= i < n :: entries[i].message.M4?
  }

  ghost predicate SeenM2(entries: seq<Entry>, n: nat, slot: Slot)
    requires n <= |entries|
  {
    exists i | 0 <= i < n :: entries[i].message.M2AckSidechain? && entries[i].message.slot == slot
  }

  /** The bounds while the coinbase messages of the block at `height` are run. */
  ghost predicate BoundedAt(p: Params, st: State, height: nat, entries: seq<Entry>, n: nat)
    requires n <= |entries|
  {
    && (forall s, i | s in st.pending && 0 <= i < |st.pending[s]| ::
          BundleBounded(p, st.pending[s][i], height, SeenM4(entries, n)))
    && (forall id | id in st.proposals ::
          ProposalBounded(p, st.proposals[id], height, SeenM2(entries, n, id.slot)))
  }

  /** The bounds between blocks, when the block at `height` is next. */
  ghost predicate Bounded(p: Params, st: State, height: nat) {
    && (forall s, i | s in st.pending && 0 <= i < |st.pending[s]| ::
          st.pending[s][i].proposalHeight < height && BundleBounded(p, st.pending[s][i], height, false))
    && (forall id | id in st.proposals ::
          st.proposals[id].proposalHeight < height && ProposalBounded(p, st.proposals[id], height, false))
  }

  lemma VotedBounded(p: Params, a: AckAction, pending: seq<Pending>, height: nat)
    requires FitsAction(a, pending) && DistinctIds(pending)
    requires forall i | 0 <= i < |pending| :: BundleBounded(p, pending[i], height, false)
    ensures forall i | 0 <= i < |pending| :: BundleBounded(p, Vote(a, pending)[i], height, true)
  {
    forall i | 0 <= i < |pending| ensures BundleBounded(p, Voted(a, pending[i]), height, true) {
      if a.Upvote? && pending[i].m6id == a.m6id {
        var j :| 0 <= j < |pending| && pending[j].m6id == a.m6id && pending[j].votes < U16_MAX;
        assert i == j;
      }
    }
  }

  lemma ApplyMsgBounded(p: Params, d: MsgDiff, st: State, height: nat, entries: seq<Entry>, n: nat)
    requires n < |entries| && Valid(st) && FitsMsg(d, st) && BoundedAt(p, st, height, entries, n)
    requires d.AckBundles? ==> entries[n].message.M4? && !SeenM4(entries, n)
    requires d.AckProposal? ==>
      && entries[n].message.M2AckSidechain? && entries[n].message.slot == d.id.slot
      && !SeenM2(entries, n, d.id.slot) && st.proposals[d.id].proposalHeight != height
    requires d.NewProposal? ==> d.sidechain.votes == 0 && d.sidechain.proposalHeight == height
    ensures BoundedAt(p, ApplyMsg(d, st, height), height, entries, n + 1)
  {
    var st' := ApplyMsg(d, st, height);
    assert SeenM4(entries, n) ==> SeenM4(entries, n + 1);
    assert forall slot :: SeenM2(entries, n, slot) ==> SeenM2(entries, n + 1, slot);
    forall s, i | s in st'.pending && 0 <= i < |st'.pending[s]|
      ensures BundleBounded(p, st'.pending[s][i], height, SeenM4(entries, n + 1))
    {
      if d.AckBundles? {
        assert SeenM4(entries, n + 1);
        if s in d.actions { VotedBounded(p, d.actions[s], st.pending[s], height); }
      }
    }
    forall id | id in st'.proposals
      ensures ProposalBounded(p, st'.proposals[id], height, SeenM2(entries, n + 1, id.slot))
    {
      if d.AckProposal? && id == d.id { assert SeenM2(entries, n + 1, id.slot); }
    }
  }

  lemma StillBounded(p: Params, st: State, height: nat, entries: seq<Entry>, n: nat)
    requires n < |entries| && BoundedAt(p, st, height, entries, n)
    ensures BoundedAt(p, st, height, entries, n + 1)
  {
    assert SeenM4(entries, n) ==> SeenM4(entries, n + 1);
    forall id | id in st.proposals
      ensures ProposalBounded(p, st.proposals[id], height, SeenM2(entries, n + 1, id.slot))
    {
      assert SeenM2(entries, n, id.slot) ==> SeenM2(entries, n + 1, id.slot);
    }
  }

  /** What the diff of a message says about the message. */
  lemma DiffOfMessage(p: Params, st: State, previous: seq<MsgDiff>, height: nat, m: Message, d: MsgDiff)
    requires HandleMessage(p, st, previous, height, m) == Ok(Some(d))
    ensures d.AckBundles? ==> m.M4?
    ensures d.AckProposal? ==>
      m.M2AckSidechain? && m.slot == d.id.slot && d.id in st.proposals && st.proposals[d.id].proposalHeight != height
    ensures d.NewProposal? ==> d.sidechain.votes == 0 && d.sidechain.proposalHeight == height
  {
  }

  lemma ClashFreeUnseen(entries: seq<Entry>, n: nat)
    requires ClashFree(entries) && n < |entries|
    ensures entries[n].message.M4? ==> !SeenM4(entries, n)
    ensures entries[n].message.M2AckSidechain? ==> !SeenM2(entries, n, entries[n].message.slot)
  {
    forall i | 0 <= i < n ensures !Clash(entries[i].message, entries[n].message) {}
  }

  lemma BoundedStart(p: Params, st: State, height: nat, entries: seq<Entry>)
    requires Bounded(p, st, height)
    ensures BoundedAt(p, st, height, entries, 0)
  {
  }

  lemma RunMessagesBounded(p: Params, st: State, previous: seq<MsgDiff>, height: nat, entries: seq<Entry>,
                           at: MsgProgress)
    requires Valid(st) && ClashFree(entries) && Bounded(p, st, height)
    requires RunMessages(p, st, previous, height, entries, |entries|) == Ok(at)
    ensures BoundedAt(p, at.st, height, entries, |entries|)
  {
    var step, start := MessageStepper(p, previous, height), MsgProgress(st, [], map[]);
    var inv := (n: nat, b: MsgProgress) => Valid(b.st) && n <= |entries| && BoundedAt(p, b.st, height, entries, n);
    BoundedStart(p, st, height, entries);
    forall i | 0 <= i < |entries| ensures StepKeeps(step, start, entries, inv, i) {
      if Run(step, start, entries, i).Ok? {
        var b := Run(step, start, entries, i).value;
        if inv(i, b) && step(b, entries[i]).Ok? {
          MessageStepBounded(p, b, previous, height, entries, i, step(b, entries[i]).value);
        }
      }
    }
    RunKeeps(step, start, entries, |entries|, inv);
  }

  lemma MessageStepBounded(p: Params, at: MsgProgress, previous: seq<MsgDiff>, height: nat, entries: seq<Entry>, n: nat,
                           next: MsgProgress)
    requires Valid(at.st) && n < |entries| && ClashFree(entries) && BoundedAt(p, at.st, height, entries, n)
    requires MessageStep(p, previous, height, at, entries[n].message) == Ok(next)
    ensures BoundedAt(p, next.st, height, entries, n + 1)
  {
    var m := entries[n].message;
    StillBounded(p, at.st, height, entries, n);
    if !m.M7BmmAccept? {
      HandleMessageFits(p, at.st, previous, height, m);
      var diff := HandleMessage(p, at.st, previous, height, m).value;
      if diff.Some? {
        DiffOfMessage(p, at.st, previous, height, m, diff.value);
        ClashFreeUnseen(entries, n);
        ApplyMsgBounded(p, diff.value, at.st, height, entries, n);
      }
    }
  }

  // ----- Once the old ones have failed

  /** The bounds while the block's transactions are run. */
  ghost predicate Payable(p: Params, st: State, height: nat) {
    && (forall s, i | s in st.pending && 0 <= i < |st.pending[s]| ::
          BundleBounded(p, st.pending[s][i], height, true)
              && height - st.pending[s][i].proposalHeight <= p.bundleMaxAge)
    && (forall id | id in st.proposals ::
          ProposalBounded(p, st.proposals[id], height, true) && height - st.proposals[id].proposalHeight <= MaxAge(p))
  }

  lemma {:induction false} SurvivingKeeps(pending: seq<Pending>, failed: map<nat, Pending>, i: nat, j: nat)
    requires j < |Surviving(pending, failed, i)|
    ensures exists k | 0 <= k < |pending| :: i + k !in failed && pending[k] == Surviving(pending, failed, i)[j]
  {
    if i in failed {
      SurvivingKeeps(pending[1..], failed, i + 1, j);
      var k :| 0 <= k < |pending[1..]| && i + 1 + k !in failed
          && pending[1..][k] == Surviving(pending[1..], failed, i + 1)[j];
      assert i + (k + 1) !in failed && pending[k + 1] == pending[1..][k];
    } else if j == 0 {
      assert i + 0 !in failed;
    } else {
      SurvivingKeeps(pending[1..], failed, i + 1, j - 1);
      var k :| 0 <= k < |pending[1..]| && i + 1 + k !in failed
          && pending[1..][k] == Surviving(pending[1..], failed, i + 1)[j - 1];
      assert i + (k + 1) !in failed && pending[k + 1] == pending[1..][k];
    }
  }

  /** A bundle that is left was there, and is not too old. */
  lemma AgedBundle(p: Params, st: State, height: nat, s: Slot, j: nat) returns (k: nat)
    requires s in Aged(p, st, height).pending && j < |Aged(p, st, height).pending[s]|
    ensures s in st.pending && k < |st.pending[s]| && st.pending[s][k] == Aged(p, st, height).pending[s][j]
    ensures !BundleFails(p, st.pending[s][k], height)
  {
    var failed := FailedOf(p, st.pending[s], height);
    if s in FailedBundlesAt(p, st, height) {
      SurvivingKeeps(st.pending[s], failed, 0, j);
      k :| 0 <= k < |st.pending[s]| && 0 + k !in failed && st.pending[s][k] == Aged(p, st, height).pending[s][j];
    } else {
      k := j;
      assert failed == map[];
      assert BundleFails(p, st.pending[s][j], height) ==> j in failed;
    }
  }

  lemma AgedPayable(p: Params, st: State, height: nat, entries: seq<Entry>)
    requires BoundedAt(p, st, height, entries, |entries|)
    ensures Payable(p, Aged(p, st, height), height)
  {
    var st' := Aged(p, st, height);
    forall s, j | s in st'.pending && 0 <= j < |st'.pending[s]|
      ensures BundleBounded(p, st'.pending[s][j], height, true)
          && height - st'.pending[s][j].proposalHeight <= p.bundleMaxAge
    {
      var k := AgedBundle(p, st, height, s, j);
      assert BundleBounded(p, st.pending[s][k], height, SeenM4(entries, |entries|));
    }
    forall id | id in st'.proposals
      ensures ProposalBounded(p, st'.proposals[id], height, true)
          && height - st'.proposals[id].proposalHeight <= MaxAge(p)
    {
      assert !ProposalFails(p, st, st.proposals[id], height);
    }
  }

  // ----- Payouts

  /** A bundle is paid out with more than the threshold of votes, which takes at
      least that many blocks less one since its proposal, and never after its
      maximal age. */
  predicate Approved(p: Params, d: TxDiff, height: nat)
    requires d.M6?
  {
    && d.removed.votes > p.bundleThreshold
    && d.removed.proposalHeight + p.bundleThreshold <= height + 1
    && height <= d.removed.proposalHeight + p.bundleMaxAge
  }

  ghost predicate AllApproved(p: Params, diffs: seq<TxDiff>, height: nat) {
    forall d | d in diffs && d.M6? :: Approved(p, d, height)
  }

  lemma TxStepPayable(p: Params, at: TxProgress, accepted: map<Slot, Bytes>, parent: Bytes, tx: Transaction,
                      height: nat, next: TxProgress)
    requires Valid(at.st) && Payable(p, at.st, height) && AllApproved(p, at.diffs, height)
    requires TxStep(p, accepted, parent, at, tx) == Ok(next)
    ensures Payable(p, next.st, height) && AllApproved(p, next.diffs, height)
  {
    OutcomeExplained(p, at.st, at.uncon, tx);
    var diff := HandleTreasuryTx(p, at.st, at.uncon, tx).value.diff;
    if diff.Some? { ApplyTxPayable(p, diff.value, at.st, height); }
  }

  lemma ApplyTxPayable(p: Params, d: TxDiff, st: State, height: nat)
    requires Valid(st) && Payable(p, st, height) && FitsTx(d, st)
    requires d.M6? ==> d.removed.votes > p.bundleThreshold
    ensures Payable(p, ApplyTx(d, st), height) && (d.M6? ==> Approved(p, d, height))
  {
    if d.M6? { WithoutIdAt(st.pending[d.slot], d.index); }
  }

  lemma RunTxsPayable(p: Params, st: State, accepted: map<Slot, Bytes>, parent: Bytes, txs: seq<Transaction>,
                      height: nat, at: TxProgress)
    requires Valid(st) && Payable(p, st, height)
    requires RunTxs(p, st, accepted, parent, txs, |txs|) == Ok(at)
    ensures Payable(p, at.st, height) && AllApproved(p, at.diffs, height)
  {
    var step, start := TxStepper(p, accepted, parent), TxProgress(st, [], map[], {});
    var inv := (i: nat, b: TxProgress) => Valid(b.st) && Payable(p, b.st, height) && AllApproved(p, b.diffs, height);
    forall i | 0 <= i < |txs| ensures StepKeeps(step, start, txs, inv, i) {
      if Run(step, start, txs, i).Ok? {
        var b := Run(step, start, txs, i).value;
        if inv(i, b) && step(b, txs[i]).Ok? {
          TxStepPayable(p, b, accepted, parent, txs[i], height, step(b, txs[i]).value);
        }
      }
    }
    RunKeeps(step, start, txs, |txs|, inv);
  }

  /** Every block keeps the vote bounds, and pays out approved bundles only. */
  lemma ConnectBounded(p: Params, st: State, previous: seq<MsgDiff>, parent: Bytes, height: nat, block: Block,
                       c: Connected)
    requires Valid(st) && Bounded(p, st, height) && height >= p.activationHeight
    requires Connect(p, st, previous, parent, height, block) == Ok(c)
    ensures Bounded(p, c.st, height + 1) && AllApproved(p, c.diff.txs, height)
  {
    var parsed := ParseEach(block.coinbase.value);
    var entries := Scan(parsed).value;
    ScanFinds(parsed);
    var msgs := RunMessages(p, st, previous, height, entries, |entries|).value;
    RunMessagesUndone(p, st, previous, height, entries);
    RunMessagesBounded(p, st, previous, height, entries, msgs);
    AgedPayable(p, msgs.st, height, entries);
    AgedValid(p, msgs.st, height);
    var txs := RunTxs(p, Aged(p, msgs.st, height), msgs.accepted, parent, block.txs, |block.txs|).value;
    RunTxsPayable(p, Aged(p, msgs.st, height), msgs.accepted, parent, block.txs, height, txs);
    PayableBounded(p, txs.st, height);
  }

  lemma PayableBounded(p: Params, st: State, height: nat)
    requires Payable(p, st, height)
    ensures Bounded(p, st, height + 1)
  {
  }
}
