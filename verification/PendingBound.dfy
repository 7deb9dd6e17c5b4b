/** How many bundles can be pending: a block proposes at most one, and an old one
    fails, so votes never run out of positions. */
module PendingBound {
  import opened Prelude
  import opened Runs
  import opened Transactions
  import opened Messages
  import opened CoinbaseList
  import opened Ledger
  import opened Validator
  import TreasuryTxs
  import opened Accounting
  import opened Blocks
  import opened ConnectModes
  import opened Chain
  import opened ChainSafety
  import opened ProducerCoinbase
  import Votes

  /** The bundles are listed from the oldest on, no two of the same height. */
  ghost predicate Rising(q: seq<Pending>) {
    forall i, j | 0 <= i < j < |q| :: q[i].proposalHeight < q[j].proposalHeight
  }

  ghost predicate AllRising(st: State) {
    forall s | s in st.pending :: Rising(st.pending[s])
  }

  ghost predicate AllBelow(st: State, height: nat) {
    forall s, i | s in st.pending && 0 <= i < |st.pending[s]| :: st.pending[s][i].proposalHeight < height
  }

  /** At most one bundle for each height from `lo` up to `hi`. */
  lemma {:induction false} RisingLength(q: seq<Pending>, lo: int, hi: int)
    requires Rising(q) && lo <= hi && forall i | 0 <= i < |q| :: lo <= q[i].proposalHeight < hi
    ensures |q| <= hi - lo
  {
    if q != [] {
      var n := |q| - 1;
      assert forall i | 0 <= i < n :: q[..n][i] == q[i];
      RisingLength(q[..n], lo, q[n].proposalHeight);
    }
  }

  // ----- Messages

  ghost predicate SeenM3(entries: seq<Entry>, n: nat)
    requires n <= |entries|
  {
    exists i | 0 <= i < n :: entries[i].message.M3ProposeBundle?
  }

  ghost predicate RisingAt(st: State, height: nat, entries: seq<Entry>, n: nat)
    requires n <= |entries|
  {
    AllRising(st) && (!SeenM3(entries, n) ==> AllBelow(st, height))
  }

  lemma ApplyRising(d: MsgDiff, st: State, height: nat)
    requires FitsMsg(d, st) && AllRising(st) && (d.ProposeBundle? ==> AllBelow(st, height))
    ensures AllRising(ApplyMsg(d, st, height))
    ensures !d.ProposeBundle? && AllBelow(st, height) ==> AllBelow(ApplyMsg(d, st, height), height)
  {
    if d.AckBundles? {
      forall s | s in d.actions ensures Rising(Vote(d.actions[s], st.pending[s])) {
        VoteKeepsHeights(d.actions[s], st.pending[s]);
      }
    }
  }

  lemma VoteKeepsHeights(a: AckAction, q: seq<Pending>)
    ensures forall i | 0 <= i < |q| :: Vote(a, q)[i].proposalHeight == q[i].proposalHeight
  {
  }

  lemma NoM3Before(entries: seq<Entry>, n: nat)
    requires ClashFree(entries) && n < |entries|
    ensures entries[n].message.M3ProposeBundle? ==> !SeenM3(entries, n)
    ensures SeenM3(entries, n + 1) <==> SeenM3(entries, n) || entries[n].message.M3ProposeBundle?
  {
    forall i | 0 <= i < n ensures !Clash(entries[i].message, entries[n].message) {}
  }

  lemma ProposesBundle(p: Params, st: State, previous: seq<MsgDiff>, height: nat, m: Message, d: MsgDiff)
    requires HandleMessage(p, st, previous, height, m) == Ok(Some(d))
    ensures FitsMsg(d, st) && (d.ProposeBundle? ==> m.M3ProposeBundle?)
  {
    HandleMessageFits(p, st, previous, height, m);
  }

  lemma MessageStepRising(p: Params, at: MsgProgress, previous: seq<MsgDiff>, height: nat, entries: seq<Entry>, n: nat)
    requires n < |entries| && ClashFree(entries) && RisingAt(at.st, height, entries, n)
    requires MessageStep(p, previous, height, at, entries[n].message).Ok?
    ensures RisingAt(MessageStep(p, previous, height, at, entries[n].message).value.st, height, entries, n + 1)
  {
    var m := entries[n].message;
    NoM3Before(entries, n);
    if !m.M7BmmAccept? {
      var diff := HandleMessage(p, at.st, previous, height, m).value;
      if diff.Some? {
        ProposesBundle(p, at.st, previous, height, m, diff.value);
        ApplyRising(diff.value, at.st, height);
      }
    }
  }

  lemma RunMessagesRising(p: Params, st: State, previous: seq<MsgDiff>, height: nat, entries: seq<Entry>)
    requires ClashFree(entries) && AllRising(st) && AllBelow(st, height)
    ensures var r := RunMessages(p, st, previous, height, entries, |entries|);
      r.Ok? ==> AllRising(r.value.st)
  {
    var step, start := MessageStepper(p, previous, height), MsgProgress(st, [], map[]);
    var inv := (n: nat, b: MsgProgress) => n <= |entries| && RisingAt(b.st, height, entries, n);
    forall i | 0 <= i < |entries| ensures StepKeeps(step, start, entries, inv, i) {
      if Run(step, start, entries, i).Ok? {
        var b := Run(step, start, entries, i).value;
        if inv(i, b) && step(b, entries[i]).Ok? { MessageStepRising(p, b, previous, height, entries, i); }
      }
    }
    RunKeeps(step, start, entries, |entries|, inv);
  }

  // ----- Failures and transactions

  lemma {:induction false} SurvivingRising(q: seq<Pending>, failed: map<nat, Pending>, i: nat)
    requires Rising(q)
    ensures Rising(Surviving(q, failed, i))
  {
    if q != [] {
      SurvivingRising(q[1..], failed, i + 1);
      SurvivingFrom(q[1..], failed, i + 1);
      FirstIsOldest(q, Surviving(q[1..], failed, i + 1));
    }
  }

  lemma FirstIsOldest(q: seq<Pending>, rest: seq<Pending>)
    requires q != [] && Rising(q) && Rising(rest) && forall b | b in rest :: b in q[1..]
    ensures Rising([q[0]] + rest)
  {
    forall j | 0 <= j < |rest| ensures q[0].proposalHeight < rest[j].proposalHeight {
      assert rest[j] in q[1..];
      var k :| 0 <= k < |q[1..]| && q[1..][k] == rest[j];
      assert q[k + 1] == rest[j];
    }
  }

  lemma AgedRising(p: Params, st: State, height: nat)
    requires AllRising(st)
    ensures AllRising(Aged(p, st, height))
  {
    var failed := FailedBundlesAt(p, st, height);
    forall s | s in st.pending && s in failed ensures Rising(Surviving(st.pending[s], failed[s], 0)) {
      SurvivingRising(st.pending[s], failed[s], 0);
    }
  }

  lemma {:induction false} WithoutRising(q: seq<Pending>, m6id: Txid)
    requires Rising(q)
    ensures Rising(WithoutId(q, m6id))
  {
    if q != [] && q[0].m6id != m6id {
      WithoutRising(q[1..], m6id);
      WithoutFrom(q[1..], m6id);
      FirstIsOldest(q, WithoutId(q[1..], m6id));
    }
  }

  lemma TxStepRising(p: Params, accepted: map<Slot, Bytes>, parent: Bytes, at: TxProgress, tx: Transaction)
    requires AllRising(at.st) && TxStep(p, accepted, parent, at, tx).Ok?
    ensures AllRising(TxStep(p, accepted, parent, at, tx).value.st)
  {
    OutcomeExplained(p, at.st, at.uncon, tx);
    var diff := TreasuryTxs.HandleTreasuryTx(p, at.st, at.uncon, tx).value.diff;
    if diff.Some? && diff.value.M6? { WithoutRising(at.st.pending[diff.value.slot], diff.value.removed.m6id); }
  }

  lemma RunTxsRising(p: Params, st: State, accepted: map<Slot, Bytes>, parent: Bytes, txs: seq<Transaction>)
    requires AllRising(st)
    ensures var r := RunTxs(p, st, accepted, parent, txs, |txs|);
      r.Ok? ==> AllRising(r.value.st)
  {
    var step, start := TxStepper(p, accepted, parent), TxProgress(st, [], map[], {});
    var inv := (n: nat, b: TxProgress) => AllRising(b.st);
    forall i | 0 <= i < |txs| ensures StepKeeps(step, start, txs, inv, i) {
      if Run(step, start, txs, i).Ok? {
        var b := Run(step, start, txs, i).value;
        if inv(i, b) && step(b, txs[i]).Ok? { TxStepRising(p, accepted, parent, b, txs[i]); }
      }
    }
    RunKeeps(step, start, txs, |txs|, inv);
  }

  // ----- Blocks and chains

  lemma ConnectRising(p: Params, st: State, previous: seq<MsgDiff>, parent: Hash, height: nat, block: Block)
    requires AllRising(st) && AllBelow(st, height) && Whole(Rules(p)(st, previous, parent, height, block)).Ok?
    ensures AllRising(Whole(Rules(p)(st, previous, parent, height, block)).value.st)
  {
    if height >= p.activationHeight {
      var entries := Scan(ParseEach(block.coinbase.value)).value;
      ScanFinds(ParseEach(block.coinbase.value));
      RunMessagesRising(p, st, previous, height, entries);
      var msgs := RunMessages(p, st, previous, height, entries, |entries|).value;
      AgedRising(p, msgs.st, height);
      RunTxsRising(p, Aged(p, msgs.st, height), msgs.accepted, parent, block.txs);
    }
  }

  lemma {:induction false} ReplayRising(p: Params, c: seq<MainBlock>)
    requires Replay(Rules(p), c).Ok?
    ensures AllRising(Replay(Rules(p), c).value.st)
  {
    if c != [] {
      var n := |c| - 1;
      ReplayRising(p, c[..n]);
      ReplaySafe(p, c[..n]);
      var before := Replay(Rules(p), c[..n]).value;
      ConnectRising(p, before.st, before.diff.msgs, c[n].parent, n, c[n].body);
    }
  }

  ghost predicate FewPending(p: Params, st: State) {
    forall s | s in st.pending :: |st.pending[s]| <= p.bundleMaxAge + 1
  }

  /** On every chain, no sidechain has more bundles pending than a bundle's maximal
      age in blocks and one. */
  lemma ReplayFewPending(p: Params, c: seq<MainBlock>)
    requires Replay(Rules(p), c).Ok?
    ensures FewPending(p, Replay(Rules(p), c).value.st)
  {
    var st := Replay(Rules(p), c).value.st;
    ReplayRising(p, c);
    ReplaySafe(p, c);
    forall s | s in st.pending ensures |st.pending[s]| <= p.bundleMaxAge + 1 {
      RisingLength(st.pending[s], |c| - p.bundleMaxAge - 1, |c|);
    }
  }

  /** The same after every guarded run. */
  lemma EveryRunFewPending(p: Params, hash: HashFn, ops: seq<Op>)
    requires IdealHash(hash) && Guarded(Rules(p), hash, ops)
    ensures FewPending(p, RunOps(Rules(p), hash, ops).tables)
  {
    var c := EveryRunSafe(p, hash, ops);
    ReplayFewPending(p, c);
  }

  // ----- What the producer may count on

  lemma ViewsAreShort(p: Params, st: State, views: seq<Votes.View>)
    requires FewPending(p, st) && ViewsOf(st, views)
    ensures forall i | 0 <= i < |views| :: |views[i].pending| <= p.bundleMaxAge + 1
  {
    forall i | 0 <= i < |views| ensures |views[i].pending| <= p.bundleMaxAge + 1 {
      assert ActiveSlots(st)[i] in st.pending;
    }
  }

  /** So on top of every chain the producer's votes can be written down, and its M4
      is accepted exactly when the check lets it through, whatever the policy and
      the other messages; a maximal age below 0xFFFD blocks, as all networks have,
      is all that this takes. */
  lemma M4OnEveryChain(p: Params, c: seq<MainBlock>, entries: seq<Entry>, policy: Votes.Policy, views: seq<Votes.View>)
    requires p.bundleMaxAge < 0xFFFD && Replay(Rules(p), c).Ok?
    requires ViewsOf(Replay(Rules(p), c).value.st, views) && ClashFree(entries)
    ensures var done, votes := Replay(Rules(p), c).value, Votes.ChooseVotes(policy, views);
      && Votes.DecodeVotes(Votes.FromVotes(votes)) == votes
      && var r := RunMessages(p, done.st, done.diff.msgs, |c|, entries, |entries|);
         r.Ok? ==>
           (HandleM4(r.value.st, done.diff.msgs, Votes.FromVotes(votes)).Ok?
            <==> !MayActivate(p, done.st, |c|, entries))
  {
    var done, votes := Replay(Rules(p), c).value, Votes.ChooseVotes(policy, views);
    ReplayFewPending(p, c);
    ReplaySafe(p, c);
    ViewsAreShort(p, done.st, views);
    Votes.ChosenEncodable(policy, views);
    Votes.VotesRoundTrip(votes);
    if RunMessages(p, done.st, done.diff.msgs, |c|, entries, |entries|).Ok? {
      M4AcceptedExactly(p, done.st, done.diff.msgs, |c|, entries, policy, views);
    }
  }
}
