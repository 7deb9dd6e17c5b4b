/** BMM requests (M8): what their script is, and that a block holds only requests
    that its coinbase accepts. */
module BmmRequests {
  import opened Prelude
  import opened Runs
  import opened Script
  import opened Transactions
  import opened Messages
  import opened CoinbaseList
  import opened Ledger
  import opened Validator
  import opened TreasuryTxs
  import opened Blocks

  /** The data of a request: the tag, the slot, the sidechain's block and the
      mainchain block it builds on. */
  function RequestData(r: BmmRequest): Bytes {
    [0x00, 0xBF, 0x00] + [r.slot] + r.commitment + r.parent
  }

  ghost predicate IsRequest(tx: Transaction, r: BmmRequest) {
    && |r.commitment| == 32 && |r.parent| == 32
    && tx.outputs != [] && tx.outputs[0].script == OpReturn(RequestData(r))
  }

  lemma RequestScript(r: BmmRequest)
    requires |r.commitment| == 32 && |r.parent| == 32
    ensures var s := OpReturn(RequestData(r));
      && |s| == 70 && s[0] == OP_RETURN && s[1] == 68 && s[2] == 0x00 && s[3] == 0xBF && s[4] == 0x00
      && s[5] == r.slot && s[6..38] == r.commitment && s[38..70] == r.parent
  {
    var data := RequestData(r);
    var s := OpReturn(data);
    assert |data| == 68 && PushSlice(data) == [68] + data;
    assert forall i | 0 <= i < 68 :: s[i + 2] == data[i];
    forall i | 0 <= i < 32 ensures s[6..38][i] == r.commitment[i] && s[38..70][i] == r.parent[i] {
      assert data[i + 4] == r.commitment[i] && data[i + 36] == r.parent[i];
      assert s[6..38][i] == s[(i + 4) + 2] && s[38..70][i] == s[(i + 36) + 2];
    }
  }

  lemma ParsedRequest(tx: Transaction)
    requires ParseM8(tx).Some?
    ensures IsRequest(tx, ParseM8(tx).value)
  {
    var s, r := tx.outputs[0].script, ParseM8(tx).value;
    var data := RequestData(r);
    assert |data| == 68 && PushSlice(data) == [68] + data;
    forall i | 0 <= i < 70 ensures s[i] == OpReturn(data)[i] {
      if 6 <= i < 38 { assert data[i - 2] == r.commitment[i - 6] == s[6..38][i - 6]; }
      if 38 <= i { assert data[i - 2] == r.parent[i - 38] == s[38..70][i - 38]; }
    }
  }

  /** A transaction parses to a request exactly when its first output is the
      request's script. */
  lemma RequestRoundTrip(tx: Transaction, r: BmmRequest)
    ensures ParseM8(tx) == Some(r) <==> IsRequest(tx, r)
  {
    if ParseM8(tx).Some? { ParsedRequest(tx); }
    if IsRequest(tx, r) { RequestScript(r); }
  }

  // ----- Requests in a block

  /** The request that a transaction carries, if any, was accepted, builds on the
      parent, and is the first of its slot. */
  ghost predicate RequestFits(tx: Transaction, accepted: map<Slot, Bytes>, parent: Bytes, requested: set<Slot>) {
    forall r | IsRequest(tx, r) ::
      r.slot in accepted && accepted[r.slot] == r.commitment && r.parent == parent && r.slot !in requested
  }

  /** A transaction is accepted exactly when its treasury part and its request
      are. */
  lemma TxAcceptedExactly(p: Params, accepted: map<Slot, Bytes>, parent: Bytes, at: TxProgress, tx: Transaction)
    ensures TxStep(p, accepted, parent, at, tx).Ok? <==>
      HandleTreasuryTx(p, at.st, at.uncon, tx).Ok? && RequestFits(tx, accepted, parent, at.requested)
    ensures TxStep(p, accepted, parent, at, tx).Ok? ==>
      forall s :: s in TxStep(p, accepted, parent, at, tx).value.requested <==>
        s in at.requested || exists r :: IsRequest(tx, r) && r.slot == s
  {
    forall r ensures ParseM8(tx) == Some(r) <==> IsRequest(tx, r) { RequestRoundTrip(tx, r); }
    if ParseM8(tx).Some? { assert IsRequest(tx, ParseM8(tx).value); }
  }

  /** The slots with a request among the first `n` transactions. */
  ghost predicate RequestedBelow(txs: seq<Transaction>, n: nat, s: Slot)
    requires n <= |txs|
  {
    exists i, r | 0 <= i < n :: IsRequest(txs[i], r) && r.slot == s
  }

  ghost predicate RequestsKept(txs: seq<Transaction>, accepted: map<Slot, Bytes>, parent: Bytes, n: nat,
                               requested: set<Slot>) {
    && n <= |txs| && (forall s :: s in requested <==> RequestedBelow(txs, n, s))
    && (forall i | 0 <= i < n :: RequestAlone(txs, accepted, parent, i))
  }

  ghost predicate RequestAlone(txs: seq<Transaction>, accepted: map<Slot, Bytes>, parent: Bytes, i: nat)
    requires i < |txs|
  {
    forall r | IsRequest(txs[i], r) ::
      r.slot in accepted && accepted[r.slot] == r.commitment && r.parent == parent && !RequestedBelow(txs, i, r.slot)
  }

  lemma RequestStep(p: Params, accepted: map<Slot, Bytes>, parent: Bytes, txs: seq<Transaction>, n: nat,
                    at: TxProgress)
    requires n < |txs| && RequestsKept(txs, accepted, parent, n, at.requested)
    requires TxStep(p, accepted, parent, at, txs[n]).Ok?
    ensures RequestsKept(txs, accepted, parent, n + 1, TxStep(p, accepted, parent, at, txs[n]).value.requested)
  {
    TxAcceptedExactly(p, accepted, parent, at, txs[n]);
    var m := n + 1;
    forall s ensures
      RequestedBelow(txs, m, s) <==> (RequestedBelow(txs, n, s) || exists r :: IsRequest(txs[n], r) && r.slot == s)
    {
    }
  }

  lemma RunRequests(p: Params, st: State, accepted: map<Slot, Bytes>, parent: Bytes, txs: seq<Transaction>)
    ensures var r := RunTxs(p, st, accepted, parent, txs, |txs|);
      r.Ok? ==> RequestsKept(txs, accepted, parent, |txs|, r.value.requested)
  {
    var step, start := TxStepper(p, accepted, parent), TxProgress(st, [], map[], {});
    var inv := (n: nat, b: TxProgress) => RequestsKept(txs, accepted, parent, n, b.requested);
    forall i | 0 <= i < |txs| ensures StepKeeps(step, start, txs, inv, i) {
      if Run(step, start, txs, i).Ok? {
        var b := Run(step, start, txs, i).value;
        if inv(i, b) && step(b, txs[i]).Ok? { RequestStep(p, accepted, parent, txs, i, b); }
      }
    }
    RunKeeps(step, start, txs, |txs|, inv);
  }

  /** The accepts are those of the coinbase. */
  ghost predicate AcceptsOf(entries: seq<Entry>, n: nat, accepted: map<Slot, Bytes>) {
    n <= |entries| && forall s, c ::
      (s in accepted && accepted[s] == c) <==> exists i | 0 <= i < n :: entries[i].message == M7BmmAccept(s, c)
  }

  lemma AcceptStep(p: Params, previous: seq<MsgDiff>, height: nat, entries: seq<Entry>, n: nat, at: MsgProgress)
    requires n < |entries| && AcceptsOf(entries, n, at.accepted)
    requires MessageStep(p, previous, height, at, entries[n].message).Ok?
    ensures AcceptsOf(entries, n + 1, MessageStep(p, previous, height, at, entries[n].message).value.accepted)
  {
    var accepted := MessageStep(p, previous, height, at, entries[n].message).value.accepted;
    forall s, c ensures (s in accepted && accepted[s] == c)
        <==> exists i | 0 <= i < n + 1 :: entries[i].message == M7BmmAccept(s, c) {
      if entries[n].message == M7BmmAccept(s, c) { assert s in accepted && accepted[s] == c; }
    }
  }

  lemma RunAccepts(p: Params, st: State, previous: seq<MsgDiff>, height: nat, entries: seq<Entry>)
    ensures var r := RunMessages(p, st, previous, height, entries, |entries|);
      r.Ok? ==> AcceptsOf(entries, |entries|, r.value.accepted)
  {
    var step, start := MessageStepper(p, previous, height), MsgProgress(st, [], map[]);
    var inv := (n: nat, b: MsgProgress) => AcceptsOf(entries, n, b.accepted);
    forall i | 0 <= i < |entries| ensures StepKeeps(step, start, entries, inv, i) {
      if Run(step, start, entries, i).Ok? {
        var b := Run(step, start, entries, i).value;
        if inv(i, b) && step(b, entries[i]).Ok? { AcceptStep(p, previous, height, entries, i, b); }
      }
    }
    RunKeeps(step, start, entries, |entries|, inv);
  }

  /** In every block that connects, each request has an accept with its commitment
      in the coinbase and builds on the parent, and no slot has two. */
  lemma RequestsHonoured(p: Params, st: State, previous: seq<MsgDiff>, parent: Bytes, height: nat, block: Block,
                         i: nat, r: BmmRequest)
    requires height >= p.activationHeight && Connect(p, st, previous, parent, height, block).Ok?
    requires i < |block.txs| && IsRequest(block.txs[i], r)
    ensures Scan(ParseEach(block.coinbase.value)).Some?
    ensures var entries := Scan(ParseEach(block.coinbase.value)).value;
      exists k | 0 <= k < |entries| :: entries[k].message == M7BmmAccept(r.slot, r.commitment)
    ensures r.parent == parent && !RequestedBelow(block.txs, i, r.slot)
  {
    var entries := Scan(ParseEach(block.coinbase.value)).value;
    var msgs := RunMessages(p, st, previous, height, entries, |entries|).value;
    RunAccepts(p, st, previous, height, entries);
    RunRequests(p, Aged(p, msgs.st, height), msgs.accepted, parent, block.txs);
    assert RequestAlone(block.txs, msgs.accepted, parent, i);
  }
}
