/** Every state that the validator reaches is one that a summary describes: its
    sidechains are filed under their own slot and hash, and its bundles have
    distinct ids of 32 bytes. */
module SyncReachable {
  import opened Prelude
  import opened Runs
  import opened Transactions
  import opened Messages
  import opened CoinbaseList
  import opened Ledger
  import opened Validator
  import Script
  import TreasuryTxs
  import opened Accounting
  import opened Blocks
  import opened ConnectModes
  import opened Chain
  import opened ChainSafety
  import opened PendingSort
  import opened SyncStates

  ghost predicate WideIds(pending: seq<Pending>) {
    forall b | b in pending :: |b.m6id| == 32
  }

  ghost predicate Filed(p: Params, st: State) {
    && (forall s | s in st.active :: st.active[s].proposal.slot == s && st.active[s].activationHeight.Some?)
    && (forall id | id in st.proposals :: FiledAs(p, id, st.proposals[id]))
    && (forall s | s in st.pending :: WideIds(st.pending[s]))
  }

  predicate FiledAs(p: Params, id: ProposalId, sc: Sidechain) {
    id == ProposalId(sc.proposal.slot, p.descriptionHash(sc.proposal.description))
  }

  // ----- Messages

  ghost predicate DiffFiles(p: Params, d: MsgDiff) {
    match d
    case NewProposal(id, sc) => FiledAs(p, id, sc)
    case ProposeBundle(_, m6id) => |m6id| == 32
    case _ => true
  }

  lemma HandleFiles(p: Params, st: State, previous: seq<MsgDiff>, height: nat, m: Message)
    requires WellTyped(m)
    ensures var r := HandleMessage(p, st, previous, height, m);
      r.Ok? && r.value.Some? ==> DiffFiles(p, r.value.value)
  {
  }

  lemma VoteWide(a: AckAction, pending: seq<Pending>)
    requires WideIds(pending)
    ensures WideIds(Vote(a, pending))
  {
    forall b | b in Vote(a, pending) ensures |b.m6id| == 32 {
      var i :| 0 <= i < |pending| && b == Voted(a, pending[i]);
      assert pending[i] in pending;
    }
  }

  lemma ApplyFiled(p: Params, d: MsgDiff, st: State, height: nat)
    requires FitsMsg(d, st) && Filed(p, st) && DiffFiles(p, d)
    ensures Filed(p, ApplyMsg(d, st, height))
  {
    if d.AckBundles? {
      forall s | s in d.actions ensures WideIds(Vote(d.actions[s], st.pending[s])) {
          VoteWide(d.actions[s], st.pending[s]); }
    }
  }

  lemma MessageStepFiled(p: Params, previous: seq<MsgDiff>, height: nat, at: MsgProgress, m: Message)
    requires WellTyped(m) && Filed(p, at.st) && MessageStep(p, previous, height, at, m).Ok?
    ensures Filed(p, MessageStep(p, previous, height, at, m).value.st)
  {
    if !m.M7BmmAccept? {
      HandleMessageFits(p, at.st, previous, height, m);
      HandleFiles(p, at.st, previous, height, m);
      var diff := HandleMessage(p, at.st, previous, height, m).value;
      if diff.Some? { ApplyFiled(p, diff.value, at.st, height); }
    }
  }

  lemma ParsedWellTyped(outputs: seq<TxOut>)
    requires Scan(ParseEach(outputs)).Some?
    ensures forall i | 0 <= i < |Scan(ParseEach(outputs)).value| :: WellTyped(Scan(ParseEach(outputs)).value[i].message)
  {
    var parsed := ParseEach(outputs);
    var entries := Scan(parsed).value;
    ScanFinds(parsed);
    forall i | 0 <= i < |entries| ensures WellTyped(entries[i].message) {
      assert parsed[entries[i].vout] == Some(entries[i].message);
      ParsesWellTyped(outputs[entries[i].vout].script);
    }
  }

  lemma ParsesWellTyped(script: Bytes)
    ensures Parse(script).Some? ==> WellTyped(Parse(script).value)
  {
    if Script.ParseOpReturn(script).Some? { ParseDataExact(Script.ParseOpReturn(script).value); }
  }

  lemma RunMessagesFiled(p: Params, st: State, previous: seq<MsgDiff>, height: nat, entries: seq<Entry>)
    requires Filed(p, st) && forall i | 0 <= i < |entries| :: WellTyped(entries[i].message)
    ensures var r := RunMessages(p, st, previous, height, entries, |entries|);
      r.Ok? ==> Filed(p, r.value.st)
  {
    var step, start := MessageStepper(p, previous, height), MsgProgress(st, [], map[]);
    var inv := (n: nat, b: MsgProgress) => Filed(p, b.st);
    forall i | 0 <= i < |entries| ensures StepKeeps(step, start, entries, inv, i) {
      if Run(step, start, entries, i).Ok? {
        var b := Run(step, start, entries, i).value;
        if inv(i, b) && step(b, entries[i]).Ok? { MessageStepFiled(p, previous, height, b, entries[i].message); }
      }
    }
    RunKeeps(step, start, entries, |entries|, inv);
  }

  // ----- Failures and transactions

  lemma AgedFiled(p: Params, st: State, height: nat)
    requires Filed(p, st)
    ensures Filed(p, Aged(p, st, height))
  {
    var failed := FailedBundlesAt(p, st, height);
    forall s | s in st.pending && s in failed ensures WideIds(Surviving(st.pending[s], failed[s], 0)) {
      SurvivingFrom(st.pending[s], failed[s], 0);
    }
  }

  lemma ApplyTxFiled(p: Params, d: TxDiff, st: State)
    requires FitsTx(d, st) && Filed(p, st)
    ensures Filed(p, ApplyTx(d, st))
  {
    if d.M6? { WithoutFrom(st.pending[d.slot], d.removed.m6id); }
  }

  lemma TxStepFiled(p: Params, accepted: map<Slot, Bytes>, parent: Bytes, at: TxProgress, tx: Transaction)
    requires Filed(p, at.st) && TxStep(p, accepted, parent, at, tx).Ok?
    ensures Filed(p, TxStep(p, accepted, parent, at, tx).value.st)
  {
    OutcomeExplained(p, at.st, at.uncon, tx);
    var diff := TreasuryTxs.HandleTreasuryTx(p, at.st, at.uncon, tx).value.diff;
    if diff.Some? { ApplyTxFiled(p, diff.value, at.st); }
  }

  lemma RunTxsFiled(p: Params, st: State, accepted: map<Slot, Bytes>, parent: Bytes, txs: seq<Transaction>)
    requires Filed(p, st)
    ensures var r := RunTxs(p, st, accepted, parent, txs, |txs|);
      r.Ok? ==> Filed(p, r.value.st)
  {
    var step, start := TxStepper(p, accepted, parent), TxProgress(st, [], map[], {});
    var inv := (n: nat, b: TxProgress) => Filed(p, b.st);
    forall i | 0 <= i < |txs| ensures StepKeeps(step, start, txs, inv, i) {
      if Run(step, start, txs, i).Ok? {
        var b := Run(step, start, txs, i).value;
        if inv(i, b) && step(b, txs[i]).Ok? { TxStepFiled(p, accepted, parent, b, txs[i]); }
      }
    }
    RunKeeps(step, start, txs, |txs|, inv);
  }

  // ----- Blocks and chains

  lemma ConnectFiled(p: Params, st: State, previous: seq<MsgDiff>, parent: Hash, height: nat, block: Block)
    requires Filed(p, st) && Whole(Rules(p)(st, previous, parent, height, block)).Ok?
    ensures Filed(p, Whole(Rules(p)(st, previous, parent, height, block)).value.st)
  {
    if height >= p.activationHeight {
      var entries := Scan(ParseEach(block.coinbase.value)).value;
      ParsedWellTyped(block.coinbase.value);
      RunMessagesFiled(p, st, previous, height, entries);
      var msgs := RunMessages(p, st, previous, height, entries, |entries|).value;
      AgedFiled(p, msgs.st, height);
      RunTxsFiled(p, Aged(p, msgs.st, height), msgs.accepted, parent, block.txs);
    }
  }

  lemma {:induction false} ReplayFiled(p: Params, c: seq<MainBlock>)
    requires Replay(Rules(p), c).Ok?
    ensures Filed(p, Replay(Rules(p), c).value.st)
  {
    if c != [] {
      var n := |c| - 1;
      ReplayFiled(p, c[..n]);
      var before := Replay(Rules(p), c[..n]).value;
      ConnectFiled(p, before.st, before.diff.msgs, c[n].parent, n, c[n].body);
    }
  }

  /** After every guarded run, the tables are ones that a summary describes. */
  lemma EveryRunSummarizable(p: Params, hash: HashFn, r: Reader, ops: seq<Op>)
    requires IdealHash(hash) && Guarded(Rules(p), hash, ops)
    requires r.hash == p.descriptionHash && forall d :: |p.descriptionHash(d)| == 32
    ensures WellKeyed(r, RunOps(Rules(p), hash, ops).tables) && PlainPending(RunOps(Rules(p), hash, ops).tables)
  {
    var c := EveryRunSafe(p, hash, ops);
    ReplayFiled(p, c);
    FiledIsKeyed(p, r, RunOps(Rules(p), hash, ops).tables);
  }

  lemma FiledIsKeyed(p: Params, r: Reader, st: State)
    requires Valid(st) && Filed(p, st) && r.hash == p.descriptionHash && forall d :: |p.descriptionHash(d)| == 32
    ensures WellKeyed(r, st) && PlainPending(st)
  {
    forall s: Slot ensures PlainIds(PendingOf(st, s)) {
      assert forall i | 0 <= i < |PendingOf(st, s)| :: PendingOf(st, s)[i] in PendingOf(st, s);
    }
  }
}
