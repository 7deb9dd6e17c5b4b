/** Connecting and disconnecting one block: the coinbase messages in order, the
    failures that its height brings, then the transactions; and the diff that
    takes all of it back. */
module Blocks {
  import opened Prelude
  import opened Runs
  import opened Script
  import opened Transactions
  import opened Messages
  import opened CoinbaseList
  import opened Ledger
  import opened Validator
  import opened TreasuryTxs
  import opened Accounting

  /** A block: its coinbase outputs, if it has a coinbase, and the rest. */
  datatype Block = Block(coinbase: Option<seq<TxOut>>, txs: seq<Transaction>)

  // ----- BMM requests

  datatype BmmRequest = BmmRequest(slot: Slot, commitment: Bytes, parent: Bytes)

  /** `OP_RETURN <0x00BF00 slot commitment parent>` in the first output. */
  function ParseM8(tx: Transaction): Option<BmmRequest> {
    if tx.outputs == [] then None else
    var s := tx.outputs[0].script;
    if |s| == 70 && s[0] == OP_RETURN && s[1] == 68 && s[2] == 0x00 && s[3] == 0xBF && s[4] == 0x00
    then Some(BmmRequest(s[5], s[6..38], s[38..70])) else None
  }

  /** A request must have been accepted in this coinbase and build on this
      block's parent. */
  predicate AcceptableM8(tx: Transaction, accepted: map<Slot, Bytes>, parent: Bytes) {
    match ParseM8(tx)
    case None => true
    case Some(r) => r.slot in accepted && accepted[r.slot] == r.commitment && r.parent == parent
  }

  // ----- Taking diffs back, newest first

  function UndoMsgs(diffs: seq<MsgDiff>, st: State): Option<State> {
    if diffs == [] then Some(st) else
    match UndoMsg(diffs[|diffs| - 1], st)
    case None => None
    case Some(st') => UndoMsgs(diffs[..|diffs| - 1], st')
  }

  function UndoTxs(diffs: seq<TxDiff>, st: State): Option<State> {
    if diffs == [] then Some(st) else
    match UndoTx(diffs[|diffs| - 1], st)
    case None => None
    case Some(st') => UndoTxs(diffs[..|diffs| - 1], st')
  }

  // ----- Coinbase messages

  datatype MsgProgress = MsgProgress(st: State, diffs: seq<MsgDiff>, accepted: map<Slot, Bytes>)

  function MessageStep(p: Params, previous: seq<MsgDiff>, height: nat, at: MsgProgress, m: Message)
    : (r: Result<MsgProgress, Reject>)
    ensures Valid(at.st) && r.Ok? ==>
        Valid(r.value.st) && UndoMsgs(r.value.diffs, r.value.st) == UndoMsgs(at.diffs, at.st)
  {
    if m.M7BmmAccept? then
      if m.slot in at.accepted then Err(DuplicateMessage)
      else Ok(at.(accepted := at.accepted[m.slot := m.commitment]))
    else
      HandleMessageFits(p, at.st, previous, height, m);
      var diff :- HandleMessage(p, at.st, previous, height, m);
      match diff
      case None => Ok(at)
      case Some(d) =>
        MessageStepUndone(d, at, height);
        Ok(at.(st := ApplyMsg(d, at.st, height), diffs := at.diffs + [d]))
  }

  lemma MessageStepUndone(d: MsgDiff, at: MsgProgress, height: nat)
    requires FitsMsg(d, at.st)
    ensures Valid(at.st) ==> Valid(ApplyMsg(d, at.st, height))
    ensures Valid(at.st) ==> UndoMsgs(at.diffs + [d], ApplyMsg(d, at.st, height)) == UndoMsgs(at.diffs, at.st)
  {
    if Valid(at.st) {
      ApplyMsgValid(d, at.st, height);
      UndoApplyMsg(d, at.st, height);
      assert (at.diffs + [d])[..|at.diffs|] == at.diffs;
    }
  }

  function MessageStepper(p: Params, previous: seq<MsgDiff>, height: nat)
    : (MsgProgress, Entry) -> Result<MsgProgress, Reject> {
    (at: MsgProgress, e: Entry) => MessageStep(p, previous, height, at, e.message)
  }

  /** Runs the first `n` messages. */
  function RunMessages(p: Params, st: State, previous: seq<MsgDiff>, height: nat, entries: seq<Entry>, n: nat)
    : Result<MsgProgress, Reject>
    requires n <= |entries|
  {
    Run(MessageStepper(p, previous, height), MsgProgress(st, [], map[]), entries, n)
  }

  lemma RunMessagesUndone(p: Params, st: State, previous: seq<MsgDiff>, height: nat, entries: seq<Entry>)
    requires Valid(st)
    ensures var r := RunMessages(p, st, previous, height, entries, |entries|);
      r.Ok? ==> Valid(r.value.st) && UndoMsgs(r.value.diffs, r.value.st) == Some(st)
  {
    var inv := (i: nat, b: MsgProgress) => Valid(b.st) && UndoMsgs(b.diffs, b.st) == Some(st);
    RunKeeps(MessageStepper(p, previous, height), MsgProgress(st, [], map[]), entries, |entries|, inv);
  }

  // ----- Transactions

  datatype TxProgress = TxProgress(st: State, diffs: seq<TxDiff>, uncon: Unconsolidated, requested: set<Slot>)

  ghost function TxStep(p: Params, accepted: map<Slot, Bytes>, parent: Bytes, at: TxProgress, tx: Transaction)
    : (r: Result<TxProgress, Reject>)
    ensures Valid(at.st) && r.Ok? ==>
        Valid(r.value.st) && UndoTxs(r.value.diffs, r.value.st) == UndoTxs(at.diffs, at.st)
  {
    var out :- HandleTreasuryTx(p, at.st, at.uncon, tx);
    if !AcceptableM8(tx, accepted, parent) then Err(BadBmmRequest) else
    var request := ParseM8(tx);
    if request.Some? && request.value.slot in at.requested then Err(MultipleBmmRequests) else
    var requested := if request.Some? then at.requested + {request.value.slot} else at.requested;
    match out.diff
    case None => Ok(at.(uncon := out.uncon, requested := requested))
    case Some(d) =>
      OutcomeExplained(p, at.st, at.uncon, tx);
      TxStepUndone(d, at);
      Ok(TxProgress(ApplyTx(d, at.st), at.diffs + [d], out.uncon, requested))
  }

  lemma TxStepUndone(d: TxDiff, at: TxProgress)
    requires FitsTx(d, at.st)
    ensures Valid(at.st) ==> Valid(ApplyTx(d, at.st))
    ensures Valid(at.st) ==> UndoTxs(at.diffs + [d], ApplyTx(d, at.st)) == UndoTxs(at.diffs, at.st)
  {
    if Valid(at.st) {
      ApplyTxValid(d, at.st);
      UndoApplyTx(d, at.st);
      assert (at.diffs + [d])[..|at.diffs|] == at.diffs;
    }
  }

  ghost function TxStepper(p: Params, accepted: map<Slot, Bytes>, parent: Bytes)
    : (TxProgress, Transaction) -> Result<TxProgress, Reject> {
    (at: TxProgress, tx: Transaction) => TxStep(p, accepted, parent, at, tx)
  }

  /** Runs the first `n` transactions. */
  ghost function RunTxs(p: Params, st: State, accepted: map<Slot, Bytes>, parent: Bytes, txs: seq<Transaction>, n: nat)
    : Result<TxProgress, Reject>
    requires n <= |txs|
  {
    Run(TxStepper(p, accepted, parent), TxProgress(st, [], map[], {}), txs, n)
  }

  lemma RunTxsUndone(p: Params, st: State, accepted: map<Slot, Bytes>, parent: Bytes, txs: seq<Transaction>)
    requires Valid(st)
    ensures var r := RunTxs(p, st, accepted, parent, txs, |txs|);
      r.Ok? ==> Valid(r.value.st) && UndoTxs(r.value.diffs, r.value.st) == Some(st)
  {
    var inv := (i: nat, b: TxProgress) => Valid(b.st) && UndoTxs(b.diffs, b.st) == Some(st);
    RunKeeps(TxStepper(p, accepted, parent), TxProgress(st, [], map[], {}), txs, |txs|, inv);
  }

  // ----- Connecting

  datatype Connected = Connected(st: State, diff: BlockDiff)

  const EMPTY_DIFF := BlockDiff([], map[], map[], [])

  /** The state once the messages are run and what is too old has failed. */
  function Aged(p: Params, st: State, height: nat): State {
    ApplyFailed(FailedProposals(p, st, height), FailedBundlesAt(p, st, height), st)
  }

  lemma AgedValid(p: Params, st: State, height: nat)
    requires Valid(st)
    ensures Valid(Aged(p, st, height))
  {
    ApplyFailedValid(FailedProposals(p, st, height), FailedBundlesAt(p, st, height), st);
  }

  /** Connects a block on top of `st`, leaving deposits to be consolidated.
      `previous` is the parent's message diffs. Below the activation height a
      block is plain history. A coinbase without an M4 abstains everywhere, which
      changes nothing. */
  ghost function PartialConnect(p: Params, st: State, previous: seq<MsgDiff>, parent: Bytes, height: nat, block: Block)
    : (r: Result<(Connected, Unconsolidated), Reject>)
    ensures Valid(st) && r.Ok? ==> Valid(r.value.0.st)
  {
    if block.coinbase.None? then Err(NoCoinbase)
    else if height < p.activationHeight then Ok((Connected(st, EMPTY_DIFF), map[]))
    else
      match Scan(ParseEach(block.coinbase.value))
      case None => Err(DuplicateMessage)
      case Some(entries) =>
        var msgs :- RunMessages(p, st, previous, height, entries, |entries|);
        ConnectValid(p, st, previous, parent, height, entries, block.txs);
        var txs :- RunTxs(p, Aged(p, msgs.st, height), msgs.accepted, parent, block.txs, |block.txs|);
        Ok((Connected(txs.st, BlockDiff(msgs.diffs, FailedProposals(p, msgs.st, height),
                                        FailedBundlesAt(p, msgs.st, height), txs.diffs)), txs.uncon))
  }

  lemma ConnectValid(p: Params, st: State, previous: seq<MsgDiff>, parent: Bytes, height: nat, entries: seq<Entry>,
                     txs: seq<Transaction>)
    requires RunMessages(p, st, previous, height, entries, |entries|).Ok?
    ensures var msgs := RunMessages(p, st, previous, height, entries, |entries|).value;
      var r := RunTxs(p, Aged(p, msgs.st, height), msgs.accepted, parent, txs, |txs|);
      Valid(st) && r.Ok? ==> Valid(r.value.st)
  {
    if Valid(st) {
      RunMessagesUndone(p, st, previous, height, entries);
      var msgs := RunMessages(p, st, previous, height, entries, |entries|).value;
      AgedValid(p, msgs.st, height);
      RunTxsUndone(p, Aged(p, msgs.st, height), msgs.accepted, parent, txs);
    }
  }

  /** Connects a block, which must consolidate every deposit it holds. */
  ghost function Connect(p: Params, st: State, previous: seq<MsgDiff>, parent: Bytes, height: nat, block: Block)
    : (r: Result<Connected, Reject>)
    ensures Valid(st) && r.Ok? ==> Valid(r.value.st)
  {
    var done :- PartialConnect(p, st, previous, parent, height, block);
    if done.1 != map[] then Err(UnconsolidatedCtip) else Ok(done.0)
  }

  lemma {:induction false} AllAbstain(st: State, slots: seq<Slot>, codes: seq<U16>, n: nat)
    requires n <= |slots| == |codes|
    requires forall i | 0 <= i < |codes| :: slots[i] in st.pending && codes[i] == 0xFFFF
    ensures VoteActions(st, slots, codes, n).Ok? && VoteActions(st, slots, codes, n).value == map[]
  {
    if n > 0 { AllAbstain(st, slots, codes, n - 1); }
  }

  /** An absent M4 stands for one abstention per active sidechain. */
  lemma AbstainChangesNothing(st: State, codes: seq<U16>)
    requires |codes| == |ActiveSlots(st)| && st.pending.Keys == st.active.Keys
    requires forall i | 0 <= i < |codes| :: codes[i] == 0xFFFF
    ensures HandleCodes(st, codes).Ok? && HandleCodes(st, codes).value == map[]
  {
    var slots := ActiveSlots(st);
    forall i | 0 <= i < |codes| ensures slots[i] in st.pending {
      SlotsFromListed(st.active.Keys, 0);
      assert slots[i] in slots;
    }
    AllAbstain(st, slots, codes, |codes|);
  }

  // ----- Disconnecting

  /** Takes a block back, newest change first. */
  function Undo(diff: BlockDiff, st: State): Option<State> {
    match UndoTxs(diff.txs, st)
    case None => None
    case Some(st1) =>
      match UndoFailed(diff.failedProposals, diff.failedBundles, st1)
      case None => None
      case Some(st2) => UndoMsgs(diff.msgs, st2)
  }

  /** Disconnecting undoes connecting: for every valid state and every block that
      connects, undoing the block's diff succeeds and restores every table. */
  lemma UndoConnect(p: Params, st: State, previous: seq<MsgDiff>, parent: Bytes, height: nat, block: Block)
    requires Valid(st) && Connect(p, st, previous, parent, height, block).Ok?
    ensures var c := Connect(p, st, previous, parent, height, block).value;
      Undo(c.diff, c.st) == Some(st)
  {
    if height >= p.activationHeight {
      var entries := Scan(ParseEach(block.coinbase.value)).value;
      var msgs := RunMessages(p, st, previous, height, entries, |entries|).value;
      RunMessagesUndone(p, st, previous, height, entries);
      FailuresFit(p, msgs.st, height);
      UndoApplyFailed(FailedProposals(p, msgs.st, height), FailedBundlesAt(p, msgs.st, height), msgs.st);
      AgedValid(p, msgs.st, height);
      RunTxsUndone(p, Aged(p, msgs.st, height), msgs.accepted, parent, block.txs);
    } else {
      UndoEmpty(st);
    }
  }

  lemma UndoEmpty(st: State)
    ensures Undo(EMPTY_DIFF, st) == Some(st)
  {
    var undone := UndoFailed(map[], map[], st).value;
    assert undone.pending == st.pending && undone.proposals == st.proposals;
  }
}
