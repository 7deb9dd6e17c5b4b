/** The books of a treasury over a whole chain: it holds exactly what was ever
    added to it less what voted bundles took out. */
module ChainBooks {
  import opened Prelude
  import opened Runs
  import opened Transactions
  import opened Treasury
  import opened Ledger
  import opened Validator
  import opened CoinbaseList
  import opened TreasuryTxs
  import opened Accounting
  import opened Blocks
  import opened Books
  import opened ConnectModes
  import opened Chain
  import opened ChainSafety

  /** The amounts of some gains that were added, and those that were taken. */
  function Positive(f: nat -> int): nat -> int {
    (i: nat) => if f(i) > 0 then f(i) else 0
  }

  function Negative(f: nat -> int): nat -> int {
    (i: nat) => if f(i) < 0 then -f(i) else 0
  }

  lemma {:induction false} SplitSum(f: nat -> int, n: nat)
    ensures SumBelow(f, n) == SumBelow(Positive(f), n) - SumBelow(Negative(f), n)
    ensures SumBelow(Positive(f), n) >= 0 && SumBelow(Negative(f), n) >= 0
  {
    if n > 0 { SplitSum(f, n - 1); }
  }

  /** What the transactions of a block add and take, one by one. */
  ghost function BlockGains(p: Params, before: Connected, height: nat, b: MainBlock, slot: Slot): nat -> int {
    match TxsStart(p, before.st, before.diff.msgs, height, b.body)
    case None => (i: nat) => 0
    case Some(start) => Gains(p, start.st, start.accepted, b.parent, b.body.txs, slot)
  }

  ghost function BlockAdds(p: Params, before: Connected, height: nat, b: MainBlock, slot: Slot): int {
    if height < p.activationHeight then 0
    else SumBelow(Positive(BlockGains(p, before, height, b, slot)), |b.body.txs|)
  }

  ghost function BlockTakes(p: Params, before: Connected, height: nat, b: MainBlock, slot: Slot): int {
    if height < p.activationHeight then 0
    else SumBelow(Negative(BlockGains(p, before, height, b, slot)), |b.body.txs|)
  }

  /** Everything that the transactions of a chain add to a sidechain. */
  ghost function Added(p: Params, c: seq<MainBlock>, slot: Slot): int {
    if c == [] then 0 else
    var n := |c| - 1;
    Added(p, c[..n], slot)
      + match Replay(Rules(p), c[..n]) case Err(_) => 0 case Ok(before) => BlockAdds(p, before, n, c[n], slot)
  }

  /** Everything that they take from it. */
  ghost function Taken(p: Params, c: seq<MainBlock>, slot: Slot): int {
    if c == [] then 0 else
    var n := |c| - 1;
    Taken(p, c[..n], slot)
      + match Replay(Rules(p), c[..n]) case Err(_) => 0 case Ok(before) => BlockTakes(p, before, n, c[n], slot)
  }

  ghost predicate BlockMainchainValid(p: Params, before: Connected, height: nat, b: MainBlock) {
    var start := TxsStart(p, before.st, before.diff.msgs, height, b.body);
    start.Some? ==> MainchainValid(p, start.value.st, start.value.accepted, b.parent, b.body.txs)
  }

  /** The mainchain guarantees, for every block, that inputs are unspent and ids
      are new. */
  ghost predicate ChainMainchainValid(p: Params, c: seq<MainBlock>) {
    c == [] ||
    var n := |c| - 1;
    && ChainMainchainValid(p, c[..n])
    && match Replay(Rules(p), c[..n]) case Err(_) => true case Ok(before) => BlockMainchainValid(p, before, n, c[n])
  }

  lemma BlockBooks(p: Params, before: Connected, height: nat, b: MainBlock, slot: Slot)
    requires Valid(before.st) && BlockMainchainValid(p, before, height, b)
    requires Whole(Rules(p)(before.st, before.diff.msgs, b.parent, height, b.body)).Ok?
    ensures var after := Whole(Rules(p)(before.st, before.diff.msgs, b.parent, height, b.body)).value;
      && CurrentValue(after.st.treasury, slot)
         == CurrentValue(before.st.treasury, slot) + BlockAdds(p, before, height, b, slot)
            - BlockTakes(p, before, height, b, slot)
  {
    if height >= p.activationHeight {
      ConnectBooks(p, before.st, before.diff.msgs, b.parent, height, b.body, slot);
      SplitSum(BlockGains(p, before, height, b, slot), |b.body.txs|);
    }
  }

  /** On every chain, a treasury holds exactly what was added less what was taken;
      so over all its life a sidechain never pays out more than was paid in. */
  lemma {:induction false} ReplayBooks(p: Params, c: seq<MainBlock>, slot: Slot)
    requires Replay(Rules(p), c).Ok? && ChainMainchainValid(p, c)
    ensures CurrentValue(Replay(Rules(p), c).value.st.treasury, slot) == Added(p, c, slot) - Taken(p, c, slot)
    ensures 0 <= Taken(p, c, slot) <= Added(p, c, slot)
  {
    if c != [] {
      var n := |c| - 1;
      ReplayBooks(p, c[..n], slot);
      ReplaySafe(p, c[..n]);
      var before := Replay(Rules(p), c[..n]).value;
      BlockBooks(p, before, n, c[n], slot);
      SplitSum(BlockGains(p, before, n, c[n], slot), |c[n].body.txs|);
    }
  }

  /** The same for the treasuries that the validator holds after any guarded run. */
  lemma EveryRunBooks(p: Params, hash: HashFn, ops: seq<Op>, slot: Slot) returns (c: seq<MainBlock>)
    requires IdealHash(hash) && Guarded(Rules(p), hash, ops)
    ensures Consistent(Rules(p), hash, RunOps(Rules(p), hash, ops), c)
    ensures ChainMainchainValid(p, c) ==>
      CurrentValue(RunOps(Rules(p), hash, ops).tables.treasury, slot) == Added(p, c, slot) - Taken(p, c, slot)
  {
    c := EveryRunSafe(p, hash, ops);
    if ChainMainchainValid(p, c) { ReplayBooks(p, c, slot); }
  }

  // ----- The histories

  /** Every UTXO on record says what the treasury held before it. */
  ghost predicate Unbroken(stack: seq<TreasuryUtxo>) {
    forall i | 0 <= i < |stack| :: stack[i].previous == HeldBefore(stack, i)
  }

  function HeldBefore(stack: seq<TreasuryUtxo>, i: nat): nat
    requires i <= |stack|
  {
    if i == 0 then 0 else stack[i - 1].value
  }

  ghost predicate Chained(stacks: Stacks) {
    forall s | s in stacks :: Unbroken(stacks[s])
  }

  lemma PushUnbroken(stacks: Stacks, slot: Slot, ctip: Ctip)
    requires Chained(stacks)
    ensures Unbroken(Push(stacks, slot, ctip)[slot])
  {
    var stack := StackOf(stacks, slot);
    var pushed := Push(stacks, slot, ctip)[slot];
    forall i | 0 <= i < |pushed| ensures pushed[i].previous == HeldBefore(pushed, i) {
      if i < |stack| { assert pushed[i] == stack[i] && HeldBefore(pushed, i) == HeldBefore(stack, i); }
    }
  }

  lemma PushAllChained(stacks: Stacks, newCtips: map<Slot, Ctip>)
    requires Chained(stacks)
    ensures Chained(PushAll(stacks, newCtips))
  {
    forall s | s in newCtips ensures Unbroken(Push(stacks, s, newCtips[s])[s]) { PushUnbroken(stacks, s, newCtips[s]); }
  }

  lemma TxStepChained(p: Params, accepted: map<Slot, Bytes>, parent: Bytes, at: TxProgress, tx: Transaction)
    requires Chained(at.st.treasury) && TxStep(p, accepted, parent, at, tx).Ok?
    ensures Chained(TxStep(p, accepted, parent, at, tx).value.st.treasury)
  {
    OutcomeExplained(p, at.st, at.uncon, tx);
    match HandleTreasuryTx(p, at.st, at.uncon, tx).value.diff
    case Some(M5(newCtips)) => PushAllChained(at.st.treasury, newCtips);
    case Some(M6(slot, newCtip, _, _)) => PushUnbroken(at.st.treasury, slot, newCtip);
    case None =>
  }

  lemma RunTxsChained(p: Params, st: State, accepted: map<Slot, Bytes>, parent: Bytes, txs: seq<Transaction>)
    requires Chained(st.treasury)
    ensures var r := RunTxs(p, st, accepted, parent, txs, |txs|);
      r.Ok? ==> Chained(r.value.st.treasury)
  {
    var step, start := TxStepper(p, accepted, parent), StartOf(st);
    var inv := (n: nat, b: TxProgress) => Chained(b.st.treasury);
    forall i | 0 <= i < |txs| ensures StepKeeps(step, start, txs, inv, i) {
      if Run(step, start, txs, i).Ok? {
        var b := Run(step, start, txs, i).value;
        if inv(i, b) && step(b, txs[i]).Ok? { TxStepChained(p, accepted, parent, b, txs[i]); }
      }
    }
    RunKeeps(step, start, txs, |txs|, inv);
  }

  lemma ConnectChained(p: Params, st: State, previous: seq<MsgDiff>, parent: Hash, height: nat, block: Block)
    requires Chained(st.treasury) && Whole(Rules(p)(st, previous, parent, height, block)).Ok?
    ensures Chained(Whole(Rules(p)(st, previous, parent, height, block)).value.st.treasury)
  {
    if height >= p.activationHeight {
      var start := TxsStart(p, st, previous, height, block).value;
      MessagesKeepTreasury(p, st, previous, height, Scan(ParseEach(block.coinbase.value)).value);
      RunTxsChained(p, start.st, start.accepted, parent, block.txs);
    }
  }

  /** On every chain, the recorded history of a treasury is unbroken. */
  lemma {:induction false} ReplayChained(p: Params, c: seq<MainBlock>)
    requires Replay(Rules(p), c).Ok?
    ensures Chained(Replay(Rules(p), c).value.st.treasury)
  {
    if c != [] {
      var n := |c| - 1;
      ReplayChained(p, c[..n]);
      var before := Replay(Rules(p), c[..n]).value;
      ConnectChained(p, before.st, before.diff.msgs, c[n].parent, n, c[n].body);
    }
  }

  lemma DiffStays(p: Params, accepted: map<Slot, Bytes>, parent: Bytes, at: TxProgress, tx: Transaction, d: TxDiff)
    requires d in at.diffs && TxStep(p, accepted, parent, at, tx).Ok?
    ensures d in TxStep(p, accepted, parent, at, tx).value.diffs
  {
  }

  /** A diff that takes `amount` from a sidechain by paying out a bundle that has
      the votes. */
  ghost predicate PaysVotedBundle(p: Params, tx: Transaction, d: TxDiff, slot: Slot, amount: int) {
    d.M6? && d.slot == slot && d.removed.votes > p.bundleThreshold && TakesBundle(p, tx, d, amount)
  }

  type Stepper = (TxProgress, Transaction) -> Result<TxProgress, Reject>

  /** Some diff accounts for the amount. */
  ghost predicate Explained(diffs: seq<TxDiff>, pays: (TxDiff, int) -> bool, amount: int) {
    exists d :: d in diffs && pays(d, amount)
  }

  lemma ExplainedAtEnd(step: Stepper, start: TxProgress, txs: seq<Transaction>, i: nat, gain: TxProgress -> int,
                       pays: (TxDiff, int) -> bool)
    requires i < |txs| && Run(step, start, txs, |txs|).Ok?
    requires forall at: TxProgress, tx, d | d in at.diffs && step(at, tx).Ok? :: d in step(at, tx).value.diffs
    requires forall at | step(at, txs[i]).Ok? && gain(at) < 0 ::
      Explained(step(at, txs[i]).value.diffs, pays, -gain(at))
    ensures Run(step, start, txs, i).Ok?
    ensures var at := Run(step, start, txs, i).value;
      gain(at) < 0 ==> Explained(Run(step, start, txs, |txs|).value.diffs, pays, -gain(at))
  {
    RunThrough(step, start, txs, i);
    var at, amount := Run(step, start, txs, i).value, -gain(Run(step, start, txs, i).value);
    if gain(at) < 0 {
      RunStays(step, start, txs, i + 1, |txs|, (b: TxProgress) => Explained(b.diffs, pays, amount));
    }
  }

  lemma StepTakesVotedBundle(p: Params, at: TxProgress, accepted: map<Slot, Bytes>, parent: Bytes, tx: Transaction,
                             slot: Slot)
    requires TxStep(p, accepted, parent, at, tx).Ok? && StepGain(p, at, tx, slot) < 0
    ensures Explained(TxStep(p, accepted, parent, at, tx).value.diffs,
                      (d: TxDiff, n: int) => PaysVotedBundle(p, tx, d, slot, n), -StepGain(p, at, tx, slot))
  {
    var d := OnlyBundlesTake(p, at, accepted, parent, tx, slot);
    assert d in TxStep(p, accepted, parent, at, tx).value.diffs;
  }

  lemma TxTakesVotedBundle(p: Params, st: State, accepted: map<Slot, Bytes>, parent: Bytes, txs: seq<Transaction>,
                           i: nat, slot: Slot)
    requires i < |txs| && RunTxs(p, st, accepted, parent, txs, |txs|).Ok?
    requires GainAt(p, st, accepted, parent, txs, slot, i) < 0
    ensures Explained(RunTxs(p, st, accepted, parent, txs, |txs|).value.diffs,
                      (d: TxDiff, n: int) => PaysVotedBundle(p, txs[i], d, slot, n),
                      -GainAt(p, st, accepted, parent, txs, slot, i))
  {
    var step, tx := TxStepper(p, accepted, parent), txs[i];
    forall at: TxProgress, tx, d | d in at.diffs && step(at, tx).Ok? ensures d in step(at, tx).value.diffs {
      DiffStays(p, accepted, parent, at, tx, d);
    }
    forall at | step(at, tx).Ok? && StepGain(p, at, tx, slot) < 0
      ensures Explained(step(at, tx).value.diffs, (d: TxDiff, n: int) => PaysVotedBundle(p, tx, d, slot, n),
                        -StepGain(p, at, tx, slot))
    {
      StepTakesVotedBundle(p, at, accepted, parent, tx, slot);
    }
    ExplainedAtEnd(step, StartOf(st), txs, i, at => StepGain(p, at, tx, slot),
                   (d: TxDiff, n: int) => PaysVotedBundle(p, tx, d, slot, n));
  }

  /** And whatever transaction of a block takes something, it pays out a bundle
      that has the votes, and the block's diff says so. */
  lemma OnlyVotedBundlesTake(p: Params, before: Connected, height: nat, b: MainBlock, slot: Slot, i: nat)
    returns (d: TxDiff)
    requires Whole(Rules(p)(before.st, before.diff.msgs, b.parent, height, b.body)).Ok?
    requires height >= p.activationHeight && i < |b.body.txs| && BlockGains(p, before, height, b, slot)(i) < 0
    ensures PaysVotedBundle(p, b.body.txs[i], d, slot, -BlockGains(p, before, height, b, slot)(i))
    ensures d in Whole(Rules(p)(before.st, before.diff.msgs, b.parent, height, b.body)).value.diff.txs
  {
    var start := TxsStart(p, before.st, before.diff.msgs, height, b.body).value;
    TxTakesVotedBundle(p, start.st, start.accepted, b.parent, b.body.txs, i, slot);
    d :| d in Whole(Rules(p)(before.st, before.diff.msgs, b.parent, height, b.body)).value.diff.txs
      && PaysVotedBundle(p, b.body.txs[i], d, slot, -BlockGains(p, before, height, b, slot)(i));
  }
}
