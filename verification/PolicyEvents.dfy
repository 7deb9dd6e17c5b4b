/** The policy database on top of the validator: the events that it reads are
    those of connected blocks, and a bundle is settled only once each time it is
    proposed. */
module PolicyEvents {
  import opened Prelude
  import opened Runs
  import opened Transactions
  import opened CoinbaseList
  import opened Ledger
  import opened Validator
  import TreasuryTxs
  import opened Accounting
  import opened Blocks
  import opened Safety
  import V = Chain
  import opened ConnectModes
  import opened ChainSafety
  import opened PolicyMarks
  import opened PolicyDb
  import opened PolicyRuns

  // ----- What a block's diff says

  ghost predicate Submits(diff: BlockDiff, k: BundleKey) {
    ProposeBundle(k.slot, k.m6id) in diff.msgs
  }

  ghost predicate FailsIn(failed: FailedBundles, k: BundleKey) {
    k.slot in failed && exists i | i in failed[k.slot] :: failed[k.slot][i].m6id == k.m6id
  }

  ghost predicate Fails(diff: BlockDiff, k: BundleKey) {
    FailsIn(diff.failedBundles, k)
  }

  ghost predicate PaidIn(diffs: seq<TxDiff>, k: BundleKey) {
    exists i | 0 <= i < |diffs| :: diffs[i].M6? && diffs[i].slot == k.slot && diffs[i].removed.m6id == k.m6id
  }

  ghost predicate Settles(diff: BlockDiff, k: BundleKey) {
    Fails(diff, k) || PaidIn(diff.txs, k)
  }

  function ProposedIds(msgs: seq<MsgDiff>): seq<ProposalId> {
    if msgs == [] then [] else
    var d := msgs[|msgs| - 1];
    ProposedIds(msgs[..|msgs| - 1]) + if d.NewProposal? then [d.id] else []
  }

  function SubmittedEvents(msgs: seq<MsgDiff>): seq<BundleEvent> {
    if msgs == [] then [] else
    var d := msgs[|msgs| - 1];
    SubmittedEvents(msgs[..|msgs| - 1])
      + if d.ProposeBundle? then [BundleEvent(BundleKey(d.slot, d.m6id), Submitted)] else []
  }

  function FailedEvents(keys: seq<BundleKey>): seq<BundleEvent> {
    seq(|keys|, i requires 0 <= i < |keys| => BundleEvent(keys[i], EventKind.Failed))
  }

  function PaidEvents(txs: seq<TxDiff>): seq<BundleEvent> {
    if txs == [] then [] else
    var d := txs[|txs| - 1];
    PaidEvents(txs[..|txs| - 1]) + if d.M6? then [BundleEvent(BundleKey(d.slot, d.removed.m6id), Succeeded)] else []
  }

  /** The events of a connected block: the bundles it proposes, those that fail, in
      some order, and those it pays out. */
  ghost predicate Describes(info: BlockInfo, diff: BlockDiff, failed: seq<BundleKey>) {
    && info.proposals == ProposedIds(diff.msgs)
    && info.bundles == SubmittedEvents(diff.msgs) + FailedEvents(failed) + PaidEvents(diff.txs)
    && forall k :: k in failed <==> Fails(diff, k)
  }

  lemma {:induction false} SettledBySplit(k: BundleKey, a: seq<BundleEvent>, b: seq<BundleEvent>, n: nat)
    requires n <= |b|
    ensures SettledBy(k, a + b, |a| + n)
         == if SettledBy(k, b, n).Some? then SettledBy(k, b, n) else SettledBy(k, a, |a|)
  {
    if n == 0 { SettledByPrefix(k, a, b, |a|); } else { SettledBySplit(k, a, b, n - 1); }
  }

  lemma {:induction false} SettledByPrefix(k: BundleKey, a: seq<BundleEvent>, b: seq<BundleEvent>, n: nat)
    requires n <= |a|
    ensures SettledBy(k, a + b, n) == SettledBy(k, a, n)
  {
    if n > 0 { SettledByPrefix(k, a, b, n - 1); }
  }

  lemma {:induction false} SubmissionsSettleNothing(k: BundleKey, msgs: seq<MsgDiff>)
    ensures SettledBy(k, SubmittedEvents(msgs), |SubmittedEvents(msgs)|) == None
  {
    if msgs != [] {
      var front := SubmittedEvents(msgs[..|msgs| - 1]);
      SubmissionsSettleNothing(k, msgs[..|msgs| - 1]);
      var last := SubmittedEvents(msgs)[|front|..];
      assert SubmittedEvents(msgs) == front + last;
      SettledBySplit(k, front, last, |last|);
    }
  }

  lemma {:induction false} FailuresSettle(k: BundleKey, keys: seq<BundleKey>, n: nat)
    requires n <= |keys|
    ensures SettledBy(k, FailedEvents(keys), n) == if k in keys[..n] then Some(false) else None
  {
    if n > 0 {
      FailuresSettle(k, keys, n - 1);
      assert keys[..n] == keys[..n - 1] + [keys[n - 1]];
    }
  }

  lemma {:induction false} PayoutsSettle(k: BundleKey, txs: seq<TxDiff>)
    ensures SettledBy(k, PaidEvents(txs), |PaidEvents(txs)|) == if PaidIn(txs, k) then Some(true) else None
  {
    if txs != [] {
      var n := |txs| - 1;
      var front := PaidEvents(txs[..n]);
      PayoutsSettle(k, txs[..n]);
      var last := PaidEvents(txs)[|front|..];
      assert PaidEvents(txs) == front + last;
      SettledBySplit(k, front, last, |last|);
      PaidInMore(txs, k);
    }
  }

  lemma PaidInMore(txs: seq<TxDiff>, k: BundleKey)
    requires txs != []
    ensures var d := txs[|txs| - 1];
      PaidIn(txs, k) <==> PaidIn(txs[..|txs| - 1], k) || (d.M6? && d.slot == k.slot && d.removed.m6id == k.m6id)
  {
    var n := |txs| - 1;
    assert forall i | 0 <= i < n :: txs[..n][i] == txs[i];
  }

  /** So what the policy database reads of a block about a bundle is whether the
      validator paid it out there or let it fail. */
  lemma HitMeans(info: BlockInfo, diff: BlockDiff, failed: seq<BundleKey>, k: BundleKey)
    requires Describes(info, diff, failed)
    ensures BundleHit(k)(info) ==
      if PaidIn(diff.txs, k) then Some(true) else if Fails(diff, k) then Some(false) else None
  {
    var a, b, c := SubmittedEvents(diff.msgs), FailedEvents(failed), PaidEvents(diff.txs);
    SubmissionsSettleNothing(k, diff.msgs);
    assert failed[..|failed|] == failed;
    FailuresSettle(k, failed, |failed|);
    PayoutsSettle(k, diff.txs);
    SettledBySplit(k, a, b, |b|);
    SettledBySplit(k, a + b, c, |c|);
  }

  // ----- A settled bundle is no longer pending

  ghost predicate IsPending(st: State, k: BundleKey) {
    k.slot in st.pending && HasId(st.pending[k.slot], k.m6id)
  }

  lemma ApplyPending(d: MsgDiff, st: State, height: nat, k: BundleKey)
    requires FitsMsg(d, st) && IsPending(ApplyMsg(d, st, height), k)
    ensures IsPending(st, k) || d == ProposeBundle(k.slot, k.m6id)
  {
    var st' := ApplyMsg(d, st, height);
    var i :| 0 <= i < |st'.pending[k.slot]| && st'.pending[k.slot][i].m6id == k.m6id;
    if k.slot in st.pending && i < |st.pending[k.slot]| { assert st.pending[k.slot][i].m6id == k.m6id; }
  }

  lemma RunMessagesPending(p: Params, st: State, previous: seq<MsgDiff>, height: nat, entries: seq<Entry>,
                           k: BundleKey)
    ensures var r := RunMessages(p, st, previous, height, entries, |entries|);
      r.Ok? && IsPending(r.value.st, k) ==> IsPending(st, k) || ProposeBundle(k.slot, k.m6id) in r.value.diffs
  {
    var step, start := MessageStepper(p, previous, height), MsgProgress(st, [], map[]);
    var inv := (n: nat, b: MsgProgress) =>
      IsPending(b.st, k) ==> IsPending(st, k) || ProposeBundle(k.slot, k.m6id) in b.diffs;
    forall i | 0 <= i < |entries| ensures StepKeeps(step, start, entries, inv, i) {
      if Run(step, start, entries, i).Ok? {
        var b := Run(step, start, entries, i).value;
        if step(b, entries[i]).Ok? { MessageStepPending(p, previous, height, b, entries[i], k); }
      }
    }
    RunKeeps(step, start, entries, |entries|, inv);
  }

  lemma MessageStepPending(p: Params, previous: seq<MsgDiff>, height: nat, at: MsgProgress, e: Entry, k: BundleKey)
    requires MessageStep(p, previous, height, at, e.message).Ok?
    ensures var next := MessageStep(p, previous, height, at, e.message).value;
      && (IsPending(next.st, k) ==> IsPending(at.st, k) || ProposeBundle(k.slot, k.m6id) in next.diffs)
      && (forall d | d in at.diffs :: d in next.diffs)
  {
    if !e.message.M7BmmAccept? {
      HandleMessageFits(p, at.st, previous, height, e.message);
      var diff := HandleMessage(p, at.st, previous, height, e.message).value;
      if diff.Some? && IsPending(ApplyMsg(diff.value, at.st, height), k) { ApplyPending(diff.value, at.st, height, k); }
    }
  }

  /** Failing takes bundles that are pending, and leaves the others. */
  lemma AgedPending(p: Params, st: State, height: nat, k: BundleKey)
    requires Valid(st)
    ensures IsPending(Aged(p, st, height), k) ==> IsPending(st, k)
    ensures FailsIn(FailedBundlesAt(p, st, height), k) ==> IsPending(st, k) && !IsPending(Aged(p, st, height), k)
  {
    var failed: FailedBundles := FailedBundlesAt(p, st, height);
    FailuresFit(p, st, height);
    if IsPending(Aged(p, st, height), k) {
      var j :| 0 <= j < |Aged(p, st, height).pending[k.slot]|
          && Aged(p, st, height).pending[k.slot][j].m6id == k.m6id;
      var at := AgedBundle(p, st, height, k.slot, j);
      assert st.pending[k.slot][at].m6id == k.m6id;
      assert !FailsIn(failed, k);
    }
  }

  /** Transactions propose nothing, and what they pay out was pending and is not
      any more. */
  ghost predicate OnlyPaysOut(from: State, at: TxProgress, k: BundleKey) {
    && Valid(at.st) && (IsPending(at.st, k) ==> IsPending(from, k))
    && (PaidIn(at.diffs, k) ==> IsPending(from, k) && !IsPending(at.st, k))
  }

  lemma ApplyTxPending(d: TxDiff, st: State, k: BundleKey)
    requires Valid(st) && FitsTx(d, st)
    ensures IsPending(ApplyTx(d, st), k) ==> IsPending(st, k)
    ensures d.M6? && d.slot == k.slot && d.removed.m6id == k.m6id ==> IsPending(st, k) && !IsPending(ApplyTx(d, st), k)
  {
    if d.M6? {
      var q := st.pending[d.slot];
      WithoutIdAt(q, d.index);
      assert q[d.index] == d.removed;
      var left := WithoutId(q, d.removed.m6id);
      forall i | 0 <= i < |left| ensures left[i] in q && left[i].m6id != d.removed.m6id {
        assert left[i] == if i < d.index then q[i] else q[i + 1];
      }
      if k.slot == d.slot && HasId(left, k.m6id) {
        var i :| 0 <= i < |left| && left[i].m6id == k.m6id;
        assert left[i] in q;
      }
    }
  }

  lemma TxStepPending(p: Params, accepted: map<Slot, Bytes>, parent: Bytes, from: State, at: TxProgress,
                      tx: Transaction, k: BundleKey)
    requires TxStep(p, accepted, parent, at, tx).Ok? && OnlyPaysOut(from, at, k)
    ensures OnlyPaysOut(from, TxStep(p, accepted, parent, at, tx).value, k)
  {
    OutcomeExplained(p, at.st, at.uncon, tx);
    var diff := TreasuryTxs.HandleTreasuryTx(p, at.st, at.uncon, tx).value.diff;
    if diff.Some? {
      ApplyTxPending(diff.value, at.st, k);
      var diffs := at.diffs + [diff.value];
      PaidInMore(diffs, k);
      assert diffs[..|at.diffs|] == at.diffs;
    }
  }

  lemma RunTxsPending(p: Params, st: State, accepted: map<Slot, Bytes>, parent: Bytes, txs: seq<Transaction>,
                      k: BundleKey)
    requires Valid(st)
    ensures var r := RunTxs(p, st, accepted, parent, txs, |txs|);
      r.Ok? ==> OnlyPaysOut(st, r.value, k)
  {
    var step, start := TxStepper(p, accepted, parent), TxProgress(st, [], map[], {});
    var inv := (n: nat, b: TxProgress) => OnlyPaysOut(st, b, k);
    forall i | 0 <= i < |txs| ensures StepKeeps(step, start, txs, inv, i) {
      if Run(step, start, txs, i).Ok? {
        var b := Run(step, start, txs, i).value;
        if inv(i, b) && step(b, txs[i]).Ok? { TxStepPending(p, accepted, parent, st, b, txs[i], k); }
      }
    }
    RunKeeps(step, start, txs, |txs|, inv);
  }

  /** A block settles only what was pending or what it proposes itself, and what it
      settles is not pending behind it; and what is pending behind it was pending
      before or is proposed by it. */
  lemma BlockSettles(p: Params, before: State, previous: seq<MsgDiff>, parent: Hash, height: nat, block: Block,
                     after: Connected, k: BundleKey)
    requires Valid(before) && V.Whole(Rules(p)(before, previous, parent, height, block)).Ok?
    requires V.Whole(Rules(p)(before, previous, parent, height, block)).value == after
    ensures Settles(after.diff, k) ==> !IsPending(after.st, k)
    ensures Settles(after.diff, k) || IsPending(after.st, k) ==> IsPending(before, k) || Submits(after.diff, k)
  {
    if height >= p.activationHeight {
      var entries := Scan(ParseEach(block.coinbase.value)).value;
      RunMessagesUndone(p, before, previous, height, entries);
      RunMessagesPending(p, before, previous, height, entries, k);
      var msgs := RunMessages(p, before, previous, height, entries, |entries|).value;
      AgedValid(p, msgs.st, height);
      AgedPending(p, msgs.st, height, k);
      RunTxsPending(p, Aged(p, msgs.st, height), msgs.accepted, parent, block.txs, k);
    }
  }

  // ----- Chains

  lemma {:induction false} ReplayPrefix(p: Params, c: seq<MainBlock>, n: nat)
    requires n <= |c| && V.Replay(Rules(p), c).Ok?
    ensures V.Replay(Rules(p), c[..n]).Ok?
  {
    if n == |c| {
      assert c[..n] == c;
    } else {
      ReplayPrefix(p, c[..|c| - 1], n);
      assert c[..|c| - 1][..n] == c[..n];
    }
  }

  lemma ReplayStep(run: V.BlockFn, c: seq<MainBlock>, i: nat)
    requires i < |c| && V.Replay(run, c[..i + 1]).Ok?
    ensures V.Replay(run, c[..i]).Ok?
    ensures var before := V.Replay(run, c[..i]).value;
      var r := V.Whole(run(before.st, before.diff.msgs, c[i].parent, i, c[i].body));
      r.Ok? && r.value == V.Replay(run, c[..i + 1]).value
  {
    assert c[..i + 1][..i] == c[..i];
  }

  /** The diff of the block at height `i`. */
  ghost function DiffAt(p: Params, c: seq<MainBlock>, i: nat): BlockDiff
    requires i < |c|
  {
    match V.Replay(Rules(p), c[..i + 1]) case Ok(done) => done.diff case Err(_) => EMPTY_DIFF
  }

  /** The tables below height `n`. */
  ghost function TablesAt(p: Params, c: seq<MainBlock>, n: nat): State
    requires n <= |c|
  {
    match V.Replay(Rules(p), c[..n]) case Ok(done) => done.st case Err(_) => EMPTY
  }

  /** The policy database's view of a chain that the validator accepts: the events
      of each block are those of its diff. */
  ghost predicate DescribesAt(p: Params, c: seq<MainBlock>, infos: seq<BlockInfo>, i: nat)
    requires |infos| == |c| && i < |c|
  {
    exists failed :: Describes(infos[i], DiffAt(p, c, i), failed)
  }

  ghost predicate DescribesChain(p: Params, c: seq<MainBlock>, infos: seq<BlockInfo>) {
    V.Replay(Rules(p), c).Ok? && |infos| == |c| && forall i | 0 <= i < |c| :: DescribesAt(p, c, infos, i)
  }

  /** One block of the chain. */
  lemma ChainSettles(p: Params, c: seq<MainBlock>, i: nat, k: BundleKey)
    requires i < |c| && V.Replay(Rules(p), c).Ok?
    ensures Settles(DiffAt(p, c, i), k) ==> !IsPending(TablesAt(p, c, i + 1), k)
    ensures Settles(DiffAt(p, c, i), k) || IsPending(TablesAt(p, c, i + 1), k) ==>
      IsPending(TablesAt(p, c, i), k) || Submits(DiffAt(p, c, i), k)
  {
    ReplayPrefix(p, c, i + 1);
    ReplayStep(Rules(p), c, i);
    ReplaySafe(p, c[..i]);
    var before := V.Replay(Rules(p), c[..i]).value;
    BlockSettles(p, before.st, before.diff.msgs, c[i].parent, i, c[i].body, V.Replay(Rules(p), c[..i + 1]).value, k);
  }

  /** What the blocks of a chain do with one bundle: `pending` is about the tables
      below a block, the others about the block. */
  ghost predicate Lifecycle(pending: nat -> bool, submits: nat -> bool, settles: nat -> bool, n: nat) {
    !pending(0) && forall i | 0 <= i < n :: OneBlock(pending, submits, settles, i)
  }

  ghost predicate OneBlock(pending: nat -> bool, submits: nat -> bool, settles: nat -> bool, i: nat) {
    && (settles(i) ==> !pending(i + 1))
    && (settles(i) || pending(i + 1) ==> pending(i) || submits(i))
  }

  lemma {:induction false} WasSubmitted(pending: nat -> bool, submits: nat -> bool, settles: nat -> bool, n: nat)
    requires Lifecycle(pending, submits, settles, n) && pending(n)
    ensures exists m | 0 <= m < n :: submits(m)
  {
    assert n > 0 ==> OneBlock(pending, submits, settles, n - 1);
    if n > 0 && !submits(n - 1) { WasSubmitted(pending, submits, settles, n - 1); }
  }

  lemma {:induction false} WasSubmittedSince(pending: nat -> bool, submits: nat -> bool, settles: nat -> bool, i: nat,
                                             n: nat)
    requires Lifecycle(pending, submits, settles, n) && i < n && settles(i) && pending(n)
    ensures exists m | i < m < n :: submits(m)
  {
    assert OneBlock(pending, submits, settles, n - 1);
    if n > i + 1 && !submits(n - 1) { WasSubmittedSince(pending, submits, settles, i, n - 1); }
  }

  /** Every settlement has a proposal of its own. */
  lemma SettledTwice(pending: nat -> bool, submits: nat -> bool, settles: nat -> bool, i: nat, j: nat)
    returns (m: nat, n: nat)
    requires Lifecycle(pending, submits, settles, j + 1) && i < j && settles(i) && settles(j)
    ensures m <= i < n <= j && submits(m) && submits(n)
  {
    assert OneBlock(pending, submits, settles, i) && OneBlock(pending, submits, settles, j);
    if submits(i) {
      m := i;
    } else {
      WasSubmitted(pending, submits, settles, i);
      m :| m < i && submits(m);
    }
    if submits(j) {
      n := j;
    } else {
      WasSubmittedSince(pending, submits, settles, i, j);
      n :| i < n < j && submits(n);
    }
  }

  /** On every chain, a bundle that is settled twice is proposed twice, and the
      second time after the first settlement. */
  lemma ProposedEachTime(p: Params, c: seq<MainBlock>, k: BundleKey, i: nat, j: nat) returns (m: nat, n: nat)
    requires V.Replay(Rules(p), c).Ok?
    requires i < j < |c| && Settles(DiffAt(p, c, i), k) && Settles(DiffAt(p, c, j), k)
    ensures m <= i < n <= j && Submits(DiffAt(p, c, m), k) && Submits(DiffAt(p, c, n), k)
  {
    var pending := (h: nat) => h <= |c| && IsPending(TablesAt(p, c, h), k);
    var submits := (h: nat) => h < |c| && Submits(DiffAt(p, c, h), k);
    var settles := (h: nat) => h < |c| && Settles(DiffAt(p, c, h), k);
    forall h: nat | h < |c| ensures OneBlock(pending, submits, settles, h) {
      ChainSettles(p, c, h, k);
    }
    assert TablesAt(p, c, 0) == EMPTY;
    m, n := SettledTwice(pending, submits, settles, i, j);
  }

  /** No bundle and no sidechain is proposed in two blocks of the chain. */
  ghost predicate NoRepeats(p: Params, c: seq<MainBlock>) {
    && (forall i, j, k | 0 <= i < j < |c| :: !(Submits(DiffAt(p, c, i), k) && Submits(DiffAt(p, c, j), k)))
    && (forall i, j, id | 0 <= i < j < |c| ::
          !(id in ProposedIds(DiffAt(p, c, i).msgs) && id in ProposedIds(DiffAt(p, c, j).msgs)))
  }

  /** Where bundles are proposed once, they are settled once. */
  lemma OneMatchPerBundle(p: Params, c: seq<MainBlock>, infos: seq<BlockInfo>, k: BundleKey, q: Option<nat>)
    requires DescribesChain(p, c, infos) && NoRepeats(p, c)
    ensures AtMostOne(BundleHit(k), q, infos)
  {
    forall i: nat, j: nat | i < j < |infos| && Matches(BundleHit(k), q, infos, i) && Matches(BundleHit(k), q, infos, j)
      ensures false
    {
      MatchSettles(p, c, infos, k, q, i);
      MatchSettles(p, c, infos, k, q, j);
      var m, n := ProposedEachTime(p, c, k, i, j);
    }
  }

  lemma MatchSettles(p: Params, c: seq<MainBlock>, infos: seq<BlockInfo>, k: BundleKey, q: Option<nat>, i: nat)
    requires DescribesChain(p, c, infos) && i < |infos| && Matches(BundleHit(k), q, infos, i)
    ensures Settles(DiffAt(p, c, i), k)
  {
    assert DescribesAt(p, c, infos, i);
    var failed :| Describes(infos[i], DiffAt(p, c, i), failed);
    HitMeans(infos[i], DiffAt(p, c, i), failed, k);
  }

  lemma OneMatchPerProposal(p: Params, c: seq<MainBlock>, infos: seq<BlockInfo>, id: ProposalId, q: Option<nat>)
    requires DescribesChain(p, c, infos) && NoRepeats(p, c)
    ensures AtMostOne(ProposalHit(id), q, infos)
  {
    forall i: nat | i < |infos| ensures ProposalHit(id)(infos[i]).Some? ==> id in ProposedIds(DiffAt(p, c, i).msgs) {
      assert DescribesAt(p, c, infos, i);
    }
  }

  // ----- Runs on top of the validator

  /** A view of some chain that the validator accepts and on which nothing is
      proposed twice. */
  ghost predicate OnValidator(p: Params, view: View) {
    view.chain != [] && view.chain in view.known && exists c :: DescribesChain(p, c, view.chain) && NoRepeats(p, c)
  }

  ghost predicate AllOnValidator(p: Params, ops: seq<Op>) {
    forall op | op in ops :: OnValidator(p, op.view)
  }

  lemma SomeListed<T>(s: seq<T>)
    ensures s != [] ==> exists x :: x in s
  {
    if s != [] { assert s[0] in s; }
  }

  /** Below the activation height there are no events. */
  lemma QuietBelow(p: Params, c: seq<MainBlock>, infos: seq<BlockInfo>, i: nat)
    requires DescribesChain(p, c, infos) && i < |c| && i < p.activationHeight
    ensures infos[i].proposals == [] && infos[i].bundles == []
  {
    ReplayPrefix(p, c, i + 1);
    ReplayStep(Rules(p), c, i);
    assert DiffAt(p, c, i) == EMPTY_DIFF;
    assert DescribesAt(p, c, infos, i);
    var failed :| Describes(infos[i], EMPTY_DIFF, failed);
    SomeListed(failed);
    assert forall k :: !Fails(EMPTY_DIFF, k);
  }

  lemma ViewsWellFormed(p: Params, view: View)
    requires OnValidator(p, view)
    ensures WellFormed(view, p.activationHeight)
  {
    var c :| DescribesChain(p, c, view.chain) && NoRepeats(p, c);
    forall i | 0 <= i < |view.chain| && i < p.activationHeight
      ensures view.chain[i].proposals == [] && view.chain[i].bundles == []
    {
      QuietBelow(p, c, view.chain, i);
    }
  }

  lemma OneMatchOnView(p: Params, view: View, t: Tables)
    requires OnValidator(p, view) && CursorChain(t) == view.chain
    ensures OnePerBranch(t)
  {
    var c :| DescribesChain(p, c, view.chain) && NoRepeats(p, c);
    forall k | k in t.proposals ensures AtMostOne(ProposalHit(k), t.proposals[k].queuedAt, view.chain) {
      OneMatchPerProposal(p, c, view.chain, k, t.proposals[k].queuedAt);
    }
    forall k | k in t.bundles ensures AtMostOne(BundleHit(k), t.bundles[k].queuedAt, view.chain) {
      OneMatchPerBundle(p, c, view.chain, k, t.bundles[k].queuedAt);
    }
  }

  lemma CursorMoves(t: Tables, op: Op, activation: nat)
    requires op.view.chain != []
    ensures var t' := Step(t, op, activation);
      t'.policyTip == t.policyTip || t'.policyTip == Some(op.view.chain)
  {
  }

  lemma {:induction false} RunsOnValidator(p: Params, ops: seq<Op>)
    requires AllOnValidator(p, ops)
    ensures AllWellFormed(ops, p.activationHeight) && OneMatchRun(ops, p.activationHeight)
    ensures OnePerBranch(RunOps(ops, p.activationHeight))
  {
    forall op | op in ops ensures WellFormed(op.view, p.activationHeight) { ViewsWellFormed(p, op.view); }
    CursorOnValidator(p, ops);
    var t := RunOps(ops, p.activationHeight);
    if t.policyTip.Some? {
      var view :| OnValidator(p, view) && view.chain == t.policyTip.value;
      OneMatchOnView(p, view, t);
    }
    if ops != [] { RunsOnValidator(p, ops[..|ops| - 1]); }
  }

  lemma {:induction false} CursorOnValidator(p: Params, ops: seq<Op>)
    requires AllOnValidator(p, ops)
    ensures var t := RunOps(ops, p.activationHeight);
      t.policyTip.Some? ==> exists view :: OnValidator(p, view) && view.chain == t.policyTip.value
  {
    if ops != [] {
      var front, op := ops[..|ops| - 1], ops[|ops| - 1];
      CursorOnValidator(p, front);
      assert op in ops;
      CursorMoves(RunOps(front, p.activationHeight), op, p.activationHeight);
    }
  }

  /** The block at height `i` pays the bundle out. */
  ghost predicate PaidAt(p: Params, c: seq<MainBlock>, k: BundleKey, i: nat) {
    i < |c| && PaidIn(DiffAt(p, c, i).txs, k)
  }

  lemma PaidHit(p: Params, c: seq<MainBlock>, infos: seq<BlockInfo>, k: BundleKey, i: nat)
    requires DescribesChain(p, c, infos) && i < |c|
    ensures BundleHit(k)(infos[i]) == Some(true) <==> PaidAt(p, c, k, i)
  {
    assert DescribesAt(p, c, infos, i);
    var failed :| Describes(infos[i], DiffAt(p, c, i), failed);
    HitMeans(infos[i], DiffAt(p, c, i), failed, k);
  }

  /** The two halves together: let the policy database follow the validator through
      any reorgs and rebuilds, on chains on which nothing is proposed twice. Then it
      refuses a bundle exactly when this node queued it and a block of the
      validator's chain above the height it was queued at pays it out. */
  lemma RefusedOnValidator(p: Params, ops: seq<Op>, view: View, c: seq<MainBlock>, k: BundleKey)
    requires AllOnValidator(p, ops) && view.chain != [] && view.chain in view.known
    requires DescribesChain(p, c, view.chain) && NoRepeats(p, c)
    ensures var t := RunOps(ops, p.activationHeight);
      Put(t, view, p.activationHeight, k).Err? <==>
        k in t.bundles && exists i: nat :: Above(t.bundles[k].queuedAt, i) && PaidAt(p, c, k, i)
  {
    var t := RunOps(ops, p.activationHeight);
    var more := ops + [Submit(view, k)];
    assert AllOnValidator(p, more);
    RunsOnValidator(p, more);
    RunsOnValidator(p, ops);
    ViewsWellFormed(p, view);
    OneMatchOnView(p, view, Reconciled(t, view, p.activationHeight));
    RefusedExactlyWhenPaid(ops, view, p.activationHeight, k);
    forall i: nat | i < |c| ensures BundleHit(k)(view.chain[i]) == Some(true) <==> PaidAt(p, c, k, i) {
      PaidHit(p, c, view.chain, k, i);
    }
  }
}
