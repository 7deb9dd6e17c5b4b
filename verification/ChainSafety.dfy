/** What holds of the validator's tables after any run. */
module ChainSafety {
  import opened Prelude
  import opened Transactions
  import opened Messages
  import opened CoinbaseList
  import opened Ledger
  import opened Validator
  import opened Runs
  import opened Blocks
  import opened Safety
  import opened ConnectModes
  import opened Chain

  /** The consensus rules as a step over blocks. */
  ghost function Rules(p: Params): BlockFn {
    (st: State, previous: seq<MsgDiff>, parent: Hash, height: nat, block: Block) =>
      PartialConnect(p, st, previous, parent, height, block)
  }

  lemma RulesReversible(p: Params)
    ensures Reversible(Rules(p))
  {
    forall st, previous, parent, height, block | Valid(st) && Whole(Rules(p)(st, previous, parent, height, block)).Ok?
      ensures var c := Whole(Rules(p)(st, previous, parent, height, block)).value;
        Valid(c.st) && Undo(c.diff, c.st) == Some(st)
    {
      UndoConnect(p, st, previous, parent, height, block);
    }
  }

  lemma NoEarlyFailure(p: Params, st: State)
    ensures FailedProposals(p, st, 0) == map[]
  {
  }

  // ----- Safety over whole chains

  /** What a replay leaves behind: valid tables, votes within their bounds, and
      only approved payouts; before the activation height, nothing at all. */
  ghost predicate Safe(p: Params, done: Connected, length: nat) {
    && Valid(done.st) && Bounded(p, done.st, length)
    && (length > 0 ==> AllApproved(p, done.diff.txs, length - 1))
    && (length <= p.activationHeight ==> done.st == EMPTY)
  }

  lemma ConnectSafe(p: Params, before: Connected, parent: Hash, length: nat, block: Block)
    requires Safe(p, before, length)
    requires Whole(Rules(p)(before.st, before.diff.msgs, parent, length, block)).Ok?
    ensures Safe(p, Whole(Rules(p)(before.st, before.diff.msgs, parent, length, block)).value, length + 1)
  {
    if length >= p.activationHeight {
      ConnectBounded(p, before.st, before.diff.msgs, parent, length, block,
                     Whole(Rules(p)(before.st, before.diff.msgs, parent, length, block)).value);
    }
  }

  lemma {:induction false} ReplaySafe(p: Params, c: seq<MainBlock>)
    requires Replay(Rules(p), c).Ok?
    ensures Safe(p, Replay(Rules(p), c).value, |c|)
  {
    if c != [] {
      ReplaySafe(p, c[..|c| - 1]);
      ConnectSafe(p, Replay(Rules(p), c[..|c| - 1]).value, c[|c| - 1].parent, |c| - 1, c[|c| - 1].body);
    }
  }

  /** The main theorem: after any guarded run of connects and disconnects, the
      tables are those of replaying the active chain from nothing, every vote
      count is within its bound, and every payout on any connected chain had
      more votes than the threshold and was neither too early nor too late. */
  lemma EveryRunSafe(p: Params, hash: HashFn, ops: seq<Op>) returns (c: seq<MainBlock>)
    requires IdealHash(hash) && Guarded(Rules(p), hash, ops)
    ensures Consistent(Rules(p), hash, RunOps(Rules(p), hash, ops), c)
    ensures Safe(p, Connected(RunOps(Rules(p), hash, ops).tables, Replay(Rules(p), c).value.diff), |c|)
    ensures forall k | k != [] && Linked(hash, k) && TipHash(hash, k) in RunOps(Rules(p), hash, ops).infos ::
      AllApproved(p, RunOps(Rules(p), hash, ops).infos[TipHash(hash, k)].diff.txs, |k| - 1)
  {
    RulesReversible(p);
    c := RunConsistent(Rules(p), hash, ops);
    ReplaySafe(p, c);
    var db := RunOps(Rules(p), hash, ops);
    forall k | k != [] && Linked(hash, k) && TipHash(hash, k) in db.infos
      ensures AllApproved(p, db.infos[TipHash(hash, k)].diff.txs, |k| - 1)
    {
      assert InfoOf(Rules(p), hash, db, k);
      ReplaySafe(p, k);
    }
  }

  // ----- A run that is not guarded

  function Proposing(slot: Slot, description: Bytes): Block
    requires Printable(M1ProposeSidechain(slot, description))
  {
    Block(Some([TxOut(0, Print(M1ProposeSidechain(slot, description)))]), [])
  }

  const QUIET_BLOCK := Block(Some([]), [])

  lemma ProposingConnects(p: Params, slot: Slot, description: Bytes)
    requires p.activationHeight == 0 && Printable(M1ProposeSidechain(slot, description))
    ensures var r := Whole(Rules(p)(EMPTY, [], ZERO, 0, Proposing(slot, description)));
      && r.Ok? && r.value.st.pending == map[]
      && r.value.st.proposals == map[ProposalId(slot, p.descriptionHash(description)) :=
          Sidechain(Proposal(slot, description), 0, 0, None)]
  {
    var m := M1ProposeSidechain(slot, description);
    ProposingScans(slot, description);
    var start := MsgProgress(EMPTY, [], map[]);
    assert Run(MessageStepper(p, [], 0), start, [Entry(m, 0)], 0) == Ok(start);
    var st := RunMessages(p, EMPTY, [], 0, [Entry(m, 0)], 1).value.st;
    NoEarlyFailure(p, st);
    assert FailedBundlesAt(p, st, 0) == map[];
    assert Aged(p, st, 0).proposals == st.proposals;
  }

  lemma ProposingScans(slot: Slot, description: Bytes)
    requires Printable(M1ProposeSidechain(slot, description))
    ensures Scan(ParseEach(Proposing(slot, description).coinbase.value))
        == Some([Entry(M1ProposeSidechain(slot, description), 0)])
  {
    var m := M1ProposeSidechain(slot, description);
    var parsed := ParseEach(Proposing(slot, description).coinbase.value);
    PrintRoundTrip(m);
    assert parsed == [Some(m)] && parsed[..0] == [];
    assert [] + [Entry(m, 0)] == [Entry(m, 0)];
  }

  lemma QuietConnects(p: Params, st: State, previous: seq<MsgDiff>, parent: Hash, height: nat)
    requires FailedProposals(p, st, height) == map[] && FailedBundlesAt(p, st, height) == map[]
    ensures var r := Whole(Rules(p)(st, previous, parent, height, QUIET_BLOCK));
      r.Ok? && r.value.diff == EMPTY_DIFF
  {
    assert ParseEach([]) == [];
    assert RunMessages(p, st, previous, height, [], 0) == Ok(MsgProgress(st, [], map[]));
  }

  /** With no tip, disconnecting a block that is not a first one corrupts the
      tables: after this run the tip is a block that proposed a sidechain, and
      the proposal is not in the tables. */
  lemma LostProposal(p: Params, hash: HashFn, slot: Slot, description: Bytes) returns (ops: seq<Op>)
    requires IdealHash(hash) && p.activationHeight == 0 && p.slotMaxAge > p.slotThreshold
    requires Printable(M1ProposeSidechain(slot, description))
    ensures !exists c :: Consistent(Rules(p), hash, RunOps(Rules(p), hash, ops), c)
  {
    var b0 := MainBlock(ZERO, 1, Proposing(slot, description));
    var b1 := MainBlock(hash(b0), 1, QUIET_BLOCK);
    ProposingConnects(p, slot, description);
    var st := Whole(Rules(p)(EMPTY, [], ZERO, 0, b0.body)).value.st;
    SurvivesOneBlock(p, st);
    TwoReplay(p, hash, b0, b1);
    var db := BothTakenBack(p, hash, b0, b1);
    var id := ProposalId(slot, p.descriptionHash(description));
    assert id in st.proposals && id !in EMPTY.proposals;
    RulesReversible(p);
    NowCorrupt(Rules(p), hash, db, b0, b1);
    var four := [ConnectOp(b0), ConnectOp(b1), DisconnectOp(hash(b1)), DisconnectOp(hash(b0))];
    OneMore(Rules(p), hash, four, DisconnectOp(hash(b1)));
    ops := four + [DisconnectOp(hash(b1))];
  }

  lemma OneMore(run: BlockFn, hash: HashFn, ops: seq<Op>, op: Op)
    ensures RunOps(run, hash, ops + [op]) == Step(run, hash, RunOps(run, hash, ops), op)
  {
    assert (ops + [op])[..|ops|] == ops;
  }

  lemma NowCorrupt(run: BlockFn, hash: HashFn, db: Db, b0: MainBlock, b1: MainBlock)
    requires IdealHash(hash) && Reversible(run) && Consistent(run, hash, db, []) && Linked(hash, [b0, b1])
    requires hash(b1) in db.infos && db.infos[hash(b1)].diff == EMPTY_DIFF
    requires Replay(run, [b0]).Ok? && Replay(run, [b0]).value.st != EMPTY
    ensures !exists c :: Consistent(run, hash, Step(run, hash, db, DisconnectOp(hash(b1))), c)
  {
    UndoEmpty(EMPTY);
    assert [b0, b1][..1] == [b0];
    DisconnectWithoutTip(run, hash, db, [b0, b1]);
  }

  lemma SurvivesOneBlock(p: Params, st: State)
    requires p.slotMaxAge > p.slotThreshold && st.pending == map[] && st.active == map[]
    requires forall id | id in st.proposals :: st.proposals[id].votes == 0 && st.proposals[id].proposalHeight == 0
    ensures FailedProposals(p, st, 1) == map[] && FailedBundlesAt(p, st, 1) == map[]
  {
  }

  lemma TwoReplay(p: Params, hash: HashFn, b0: MainBlock, b1: MainBlock)
    requires b0.parent == ZERO && b1.parent == hash(b0) && b1.body == QUIET_BLOCK
    requires Whole(Rules(p)(EMPTY, [], ZERO, 0, b0.body)).Ok?
    requires var st := Whole(Rules(p)(EMPTY, [], ZERO, 0, b0.body)).value.st;
      FailedProposals(p, st, 1) == map[] && FailedBundlesAt(p, st, 1) == map[]
    ensures Linked(hash, [b0]) && Linked(hash, [b0, b1])
    ensures Replay(Rules(p), [b0]).Ok?
    ensures Replay(Rules(p), [b0]).value.st == Whole(Rules(p)(EMPTY, [], ZERO, 0, b0.body)).value.st
    ensures Replay(Rules(p), [b0, b1]).Ok? && Replay(Rules(p), [b0, b1]).value.diff == EMPTY_DIFF
  {
    var run := Rules(p);
    ReplayAppend(run, [], b0);
    assert [] + [b0] == [b0] && [b0] + [b1] == [b0, b1];
    var one := Replay(run, [b0]).value;
    ReplayAppend(run, [b0], b1);
    QuietConnects(p, one.st, one.diff.msgs, hash(b0), 1);
    LinkedAppend(hash, [], b0);
    LinkedAppend(hash, [b0], b1);
  }

  /** Two blocks connected and then disconnected again. */
  lemma BothTakenBack(p: Params, hash: HashFn, b0: MainBlock, b1: MainBlock) returns (db: Db)
    requires IdealHash(hash) && b0.parent == ZERO && b1.parent == hash(b0)
    requires Linked(hash, [b0]) && Linked(hash, [b0, b1])
    requires Replay(Rules(p), [b0]).Ok? && Replay(Rules(p), [b0, b1]).Ok?
        && Replay(Rules(p), [b0, b1]).value.diff == EMPTY_DIFF
    ensures db == RunOps(Rules(p), hash, [ConnectOp(b0), ConnectOp(b1), DisconnectOp(hash(b1)), DisconnectOp(hash(b0))])
    ensures Consistent(Rules(p), hash, db, [])
    ensures hash(b1) in db.infos && db.infos[hash(b1)].diff == EMPTY_DIFF
  {
    var run := Rules(p);
    RulesReversible(p);
    assert [] + [b0] == [b0] && [b0] + [b1] == [b0, b1] && [b0, b1][..1] == [b0] && [b0][..0] == [];
    var db0 := RunOps(run, hash, []);
    var db1 := Step(run, hash, db0, ConnectOp(b0));
    var db2 := Step(run, hash, db1, ConnectOp(b1));
    var db3 := Step(run, hash, db2, DisconnectOp(hash(b1)));
    db := Step(run, hash, db3, DisconnectOp(hash(b0)));
    ConnectKeeps(run, hash, db0, [], b0);
    ConnectKeeps(run, hash, db1, [b0], b1);
    assert InfoOf(run, hash, db2, [b0, b1]);
    DisconnectTip(run, hash, db2, [b0, b1]);
    DisconnectTip(run, hash, db3, [b0]);
    FourSteps(run, hash, ConnectOp(b0), ConnectOp(b1), DisconnectOp(hash(b1)), DisconnectOp(hash(b0)));
  }

  lemma FourSteps(run: BlockFn, hash: HashFn, a: Op, b: Op, c: Op, d: Op)
    ensures RunOps(run, hash, [a, b, c, d])
         == Step(run, hash, Step(run, hash, Step(run, hash, Step(run, hash, RunOps(run, hash, []), a), b), c), d)
  {
    assert [a, b, c, d][..3] == [a, b, c] && [a, b, c][..2] == [a, b] && [a, b][..1] == [a] && [a][..0] == [];
    assert RunOps(run, hash, [a]) == Step(run, hash, RunOps(run, hash, []), a);
    assert RunOps(run, hash, [a, b]) == Step(run, hash, RunOps(run, hash, [a]), b);
    assert RunOps(run, hash, [a, b, c]) == Step(run, hash, RunOps(run, hash, [a, b]), c);
  }
}
