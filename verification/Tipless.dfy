/** Taking a block back on empty tables instead of its own: what that gives, and
    when it gives the tables that the block was connected on. */
module Tipless {
  import opened Prelude
  import opened Ledger
  import opened Blocks

  /** There are proposals at most. */
  predicate Bare(st: State) {
    st.active == map[] && st.pending == map[] && st.treasury == map[]
  }

  /** Tables that hold nothing but proposals which the block makes fail. */
  predicate OnlyFailing(st: State, diff: BlockDiff) {
    Bare(st) && st.proposals.Keys <= diff.failedProposals.Keys
  }

  /** The tables `x` have the proposals of `y` among `ids`, and nothing else. */
  ghost predicate Shadows(x: State, y: State, ids: set<ProposalId>) {
    && Bare(x) && x.proposals.Keys <= ids
    && forall id | id in ids ::
      && (id in x.proposals <==> id in y.proposals)
      && (id in x.proposals ==> x.proposals[id] == y.proposals[id])
  }

  lemma {:induction false} UndoTxsShadows(diffs: seq<TxDiff>, x: State, y: State)
    requires Bare(x) && UndoTxs(diffs, x).Some? && UndoTxs(diffs, y).Some?
    ensures UndoTxs(diffs, x).value == x && UndoTxs(diffs, y).value.proposals == y.proposals
  {
    if diffs != [] {
      var d := diffs[|diffs| - 1];
      assert UndoTx(d, x).value == x;
      assert UndoTx(d, y).value.proposals == y.proposals;
      UndoTxsShadows(diffs[..|diffs| - 1], x, UndoTx(d, y).value);
    }
  }

  lemma UndoMsgShadows(d: MsgDiff, x: State, y: State, ids: set<ProposalId>)
    requires Shadows(x, y, ids) && UndoMsg(d, x).Some? && UndoMsg(d, y).Some?
    ensures Shadows(UndoMsg(d, x).value, UndoMsg(d, y).value, ids)
  {
    if d.AckBundles? { assert UnvotePending(d.actions, x.pending) == map[]; }
  }

  lemma {:induction false} UndoMsgsShadows(diffs: seq<MsgDiff>, x: State, y: State, ids: set<ProposalId>)
    requires Shadows(x, y, ids) && UndoMsgs(diffs, x).Some? && UndoMsgs(diffs, y).Some?
    ensures Shadows(UndoMsgs(diffs, x).value, UndoMsgs(diffs, y).value, ids)
  {
    if diffs != [] {
      var d := diffs[|diffs| - 1];
      UndoMsgShadows(d, x, y, ids);
      UndoMsgsShadows(diffs[..|diffs| - 1], UndoMsg(d, x).value, UndoMsg(d, y).value, ids);
    }
  }

  /** On empty tables a diff brings back some of the proposals that failed, as it
      does on the block's own tables, and nothing else. */
  lemma UndoShadows(diff: BlockDiff, st: State)
    requires Undo(diff, EMPTY).Some? && Undo(diff, st).Some?
    ensures Shadows(Undo(diff, EMPTY).value, Undo(diff, st).value, diff.failedProposals.Keys)
  {
    UndoTxsShadows(diff.txs, EMPTY, st);
    var y := UndoTxs(diff.txs, st).value;
    var x' := UndoFailed(diff.failedProposals, diff.failedBundles, EMPTY).value;
    var y' := UndoFailed(diff.failedProposals, diff.failedBundles, y).value;
    assert x'.pending == map[] && x'.proposals == diff.failedProposals;
    UndoMsgsShadows(diff.msgs, x', y', diff.failedProposals.Keys);
  }

  /** So it gives the tables that the block was connected on exactly when they
      hold nothing but proposals which the block makes fail. */
  lemma UndoOnEmptyExactly(diff: BlockDiff, st: State, parent: State)
    requires Undo(diff, EMPTY).Some? && Undo(diff, st) == Some(parent)
    ensures Undo(diff, EMPTY).value == parent <==> OnlyFailing(parent, diff)
  {
    UndoShadows(diff, st);
    var x := Undo(diff, EMPTY).value;
    if OnlyFailing(parent, diff) { assert x.proposals == parent.proposals; }
  }
}
