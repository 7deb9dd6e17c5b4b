/** The validator over whole runs: whatever blocks are offered and whatever
    blocks are disconnected, its tables are those of the active chain, replayed
    from nothing. */
module Chain {
  import opened Prelude
  import opened Ledger
  import opened Validator
  import opened TreasuryTxs
  import opened Blocks
  import opened Tipless
  import opened ConnectModes

  // ----- The validator's steps

  /** Runs a block on top of some tables, given the parent's message diffs, the
      parent's hash and the block's height. */
  type BlockFn = (State, seq<MsgDiff>, Hash, nat, Block) -> Result<(Connected, Unconsolidated), Reject>

  /** A block must consolidate every deposit it holds. */
  function Whole(r: Result<(Connected, Unconsolidated), Reject>): Result<Connected, Reject> {
    var done :- r;
    if done.1 != map[] then Err(UnconsolidatedCtip) else Ok(done.0)
  }

  predicate OnTip(db: Db, block: MainBlock) {
    match db.tip case None => block.parent == ZERO case Some(tip) => block.parent == tip
  }

  function PreviousMsgs(db: Db, parent: Hash): seq<MsgDiff> {
    if parent in db.infos then db.infos[parent].diff.msgs else []
  }

  /** Runs a block that builds on the tip. */
  ghost function Attempt(run: BlockFn, hash: HashFn, db: Db, block: MainBlock): Result<Partial, Refusal> {
    if !OnTip(db, block) then Err(NotOnTip)
    else if hash(block) !in db.heights then Err(MissingHeight)
    else
      match run(db.tables, PreviousMsgs(db, block.parent), block.parent, db.heights[hash(block)], block.body)
      case Err(reason) => Err(Invalid(reason))
      case Ok((done, uncon)) => Ok(Partial(done.st, done.diff, uncon))
  }

  ghost function HandlerOf(run: BlockFn, hash: HashFn): Handler {
    (db: Db, block: MainBlock) => Attempt(run, hash, db, block)
  }

  datatype Op = ConnectOp(block: MainBlock) | DisconnectOp(hash: Hash)

  /** One request; an error changes nothing. */
  ghost function Step(run: BlockFn, hash: HashFn, db: Db, op: Op): Db {
    match op
    case ConnectOp(block) => AfterConnect(HandlerOf(run, hash), hash, db, block)
    case DisconnectOp(h) => (match Disconnect(db, h) case Ok(after) => after case Err(_) => db)
  }

  ghost function RunOps(run: BlockFn, hash: HashFn, ops: seq<Op>): Db {
    if ops == [] then NEW_DB
    else Step(run, hash, RunOps(run, hash, ops[..|ops| - 1]), ops[|ops| - 1])
  }

  // ----- Chains

  /** No two blocks share a hash, and no block has the hash of none. */
  ghost predicate IdealHash(hash: HashFn) {
    && (forall a, b :: hash(a) == hash(b) ==> a == b)
    && (forall a :: hash(a) != ZERO)
  }

  function TipHash(hash: HashFn, c: seq<MainBlock>): Hash {
    if c == [] then ZERO else hash(c[|c| - 1])
  }

  ghost predicate Linked(hash: HashFn, c: seq<MainBlock>) {
    c == [] || (Linked(hash, c[..|c| - 1]) && c[|c| - 1].parent == TipHash(hash, c[..|c| - 1]))
  }

  /** The tables after a chain, from nothing, and the last block's diff. */
  ghost function Replay(run: BlockFn, c: seq<MainBlock>): Result<Connected, Reject> {
    if c == [] then Ok(Connected(EMPTY, EMPTY_DIFF)) else
    var before :- Replay(run, c[..|c| - 1]);
    var b := c[|c| - 1];
    Whole(run(before.st, before.diff.msgs, b.parent, |c| - 1, b.body))
  }

  function TotalWork(c: seq<MainBlock>): nat {
    if c == [] then 0 else TotalWork(c[..|c| - 1]) + c[|c| - 1].work
  }

  lemma {:induction false} SameTipSameChain(hash: HashFn, a: seq<MainBlock>, b: seq<MainBlock>)
    requires IdealHash(hash) && Linked(hash, a) && Linked(hash, b) && TipHash(hash, a) == TipHash(hash, b)
    ensures a == b
  {
    if a != [] && b != [] {
      assert a[|a| - 1] == b[|b| - 1];
      SameTipSameChain(hash, a[..|a| - 1], b[..|b| - 1]);
      assert a == a[..|a| - 1] + [a[|a| - 1]] && b == b[..|b| - 1] + [b[|b| - 1]];
    }
  }

  lemma LinkedAppend(hash: HashFn, c: seq<MainBlock>, b: MainBlock)
    requires Linked(hash, c) && b.parent == TipHash(hash, c)
    ensures Linked(hash, c + [b]) && TipHash(hash, c + [b]) == hash(b)
  {
    assert (c + [b])[..|c|] == c;
  }

  /** A chain that ends in `b` is the chain before it and `b`. */
  lemma EndsIn(hash: HashFn, k: seq<MainBlock>, b: MainBlock, c: seq<MainBlock>)
    requires IdealHash(hash) && k != [] && Linked(hash, k) && Linked(hash, c)
    requires TipHash(hash, k) == hash(b) && b.parent == TipHash(hash, c)
    ensures k == c + [b]
  {
    LinkedAppend(hash, c, b);
    SameTipSameChain(hash, k, c + [b]);
  }

  // ----- What every step keeps

  /** Headers are stored with the height that their chain gives them. */
  ghost predicate HeadersOk(hash: HashFn, db: Db) {
    && db.headers.Keys == db.heights.Keys
    && forall k | k != [] && Linked(hash, k) && TipHash(hash, k) in db.headers :: HeaderOf(hash, db, k)
  }

  ghost predicate HeaderOf(hash: HashFn, db: Db, k: seq<MainBlock>)
    requires k != [] && TipHash(hash, k) in db.headers && db.headers.Keys == db.heights.Keys
  {
    && db.heights[TipHash(hash, k)] == |k| - 1
    && db.headers[TipHash(hash, k)] == Header(k[|k| - 1].parent, k[|k| - 1].work)
  }

  /** A connected block is stored with all its ancestors, and with the diff and
      the work that replaying its chain gives. */
  ghost predicate InfoOf(run: BlockFn, hash: HashFn, db: Db, k: seq<MainBlock>)
    requires k != [] && TipHash(hash, k) in db.infos
  {
    && Replay(run, k).Ok?
    && db.infos[TipHash(hash, k)] == Info(TotalWork(k), Replay(run, k).value.diff)
    && (|k| > 1 ==> TipHash(hash, k[..|k| - 1]) in db.infos)
  }

  ghost predicate InfosOk(run: BlockFn, hash: HashFn, db: Db) {
    && db.infos.Keys <= db.headers.Keys && ZERO !in db.infos
    && forall k | k != [] && Linked(hash, k) && TipHash(hash, k) in db.infos :: InfoOf(run, hash, db, k)
  }

  /** `c` is the active chain, and the tables are its replay. */
  ghost predicate Active(run: BlockFn, hash: HashFn, db: Db, c: seq<MainBlock>) {
    && Linked(hash, c)
    && db.tip == (if c == [] then None else Some(TipHash(hash, c)))
    && (c != [] ==> TipHash(hash, c) in db.infos)
    && Replay(run, c).Ok? && db.tables == Replay(run, c).value.st
  }

  ghost predicate Consistent(run: BlockFn, hash: HashFn, db: Db, c: seq<MainBlock>) {
    HeadersOk(hash, db) && InfosOk(run, hash, db) && Active(run, hash, db, c)
  }

  // ----- Connecting

  lemma PutHeaderOk(hash: HashFn, db: Db, b: MainBlock)
    requires IdealHash(hash) && HeadersOk(hash, db) && hash(b) !in db.headers && ParentKnown(db, b)
    ensures HeadersOk(hash, PutHeader(hash, db, b))
  {
    var db' := PutHeader(hash, db, b);
    assert b.parent != ZERO ==> db'.heights[b.parent] == db.heights[b.parent];
    forall k | k != [] && Linked(hash, k) && TipHash(hash, k) in db'.headers ensures HeaderOf(hash, db', k) {
      if TipHash(hash, k) == hash(b) {
        var front := k[..|k| - 1];
        assert k[|k| - 1] == b;
        if front != [] {
          assert Linked(hash, front) && TipHash(hash, front) in db.headers;
          assert HeaderOf(hash, db, front);
        }
      } else {
        assert HeaderOf(hash, db, k);
      }
    }
  }

  /** Storing the header keeps the invariant, whatever happens next. */
  lemma WithHeaderKeeps(run: BlockFn, hash: HashFn, db: Db, c: seq<MainBlock>, b: MainBlock)
    requires IdealHash(hash) && Consistent(run, hash, db, c) && WithHeader(hash, db, b).Ok?
    ensures var db' := WithHeader(hash, db, b).value;
      && Consistent(run, hash, db', c) && hash(b) in db'.headers
      && db' == db.(headers := db'.headers, heights := db'.heights)
  {
    if hash(b) !in db.headers {
      var db' := PutHeader(hash, db, b);
      PutHeaderOk(hash, db, b);
      forall k | k != [] && Linked(hash, k) && TipHash(hash, k) in db'.infos ensures InfoOf(run, hash, db', k) {
        assert InfoOf(run, hash, db, k);
      }
    }
  }

  lemma OnTipKnown(run: BlockFn, hash: HashFn, db: Db, c: seq<MainBlock>, b: MainBlock)
    requires IdealHash(hash) && Consistent(run, hash, db, c)
    ensures OnTip(db, b) <==> b.parent == TipHash(hash, c)
    ensures OnTip(db, b) ==> ParentKnown(db, b) && PreviousMsgs(db, b.parent) == Replay(run, c).value.diff.msgs
    ensures OnTip(db, b) && b.parent != ZERO ==>
        b.parent in db.infos && db.infos[b.parent].cumulativeWork == TotalWork(c)
  {
    if c != [] { assert InfoOf(run, hash, db, c); }
  }

  lemma ReplayAppend(run: BlockFn, c: seq<MainBlock>, b: MainBlock)
    requires Replay(run, c).Ok?
    ensures Replay(run, c + [b]) == Whole(run(Replay(run, c).value.st, Replay(run, c).value.diff.msgs, b.parent, |c|,
        b.body))
    ensures TotalWork(c + [b]) == TotalWork(c) + b.work
  {
    assert (c + [b])[..|c|] == c;
  }

  /** What a block on the tip is run on. */
  lemma AttemptRuns(run: BlockFn, hash: HashFn, db: Db, b: MainBlock, before: Connected, height: nat)
    requires OnTip(db, b) && hash(b) in db.heights && db.heights[hash(b)] == height
    requires db.tables == before.st && PreviousMsgs(db, b.parent) == before.diff.msgs
    ensures var r := HandlerOf(run, hash)(db, b);
      var done := Whole(run(before.st, before.diff.msgs, b.parent, height, b.body));
      && (r.Ok? && r.value.uncon == map[] <==> done.Ok?)
      && (done.Ok? ==> r.value.tables == done.value.st && r.value.diff == done.value.diff)
  {
  }

  lemma HeightOnTip(run: BlockFn, hash: HashFn, db: Db, c: seq<MainBlock>, b: MainBlock)
    requires Consistent(run, hash, db, c) && hash(b) in db.headers && b.parent == TipHash(hash, c)
    ensures hash(b) in db.heights && db.heights[hash(b)] == |c|
  {
    LinkedAppend(hash, c, b);
    assert HeaderOf(hash, db, c + [b]);
  }

  /** Running a block whose header is stored succeeds and leaves nothing to
      consolidate exactly when it builds on the tip and its chain replays. */
  lemma AttemptExact(run: BlockFn, hash: HashFn, db: Db, c: seq<MainBlock>, b: MainBlock)
    requires IdealHash(hash) && Consistent(run, hash, db, c) && hash(b) in db.headers
    ensures var r := HandlerOf(run, hash)(db, b);
      && (r.Ok? && r.value.uncon == map[] <==> b.parent == TipHash(hash, c) && Replay(run, c + [b]).Ok?)
      && (r.Ok? && r.value.uncon == map[] ==>
            r.value.tables == Replay(run, c + [b]).value.st && r.value.diff == Replay(run, c + [b]).value.diff)
  {
    OnTipKnown(run, hash, db, c, b);
    if b.parent == TipHash(hash, c) {
      HeightOnTip(run, hash, db, c, b);
      ReplayAppend(run, c, b);
      AttemptRuns(run, hash, db, b, Replay(run, c).value, |c|);
    }
  }

  ghost predicate Recorded(db: Db, db': Db, h: Hash, info: Info, tables: State) {
    && db'.headers == db.headers && db'.heights == db.heights && db'.seen == db.seen
    && db'.infos == db.infos[h := info] && db'.tip == Some(h) && db'.tables == tables
  }

  /** A handler's success is recorded on top of a tip that has `work`. */
  lemma FinishRecords(handler: Handler, hash: HashFn, db: Db, b: MainBlock, work: nat, done: Option<Connected>)
    requires done.Some? <==> handler(db, b).Ok? && handler(db, b).value.uncon == map[]
    requires done.Some? ==>
      && handler(db, b).value.tables == done.value.st && handler(db, b).value.diff == done.value.diff
      && (b.parent != ZERO ==> b.parent in db.infos)
      && work == (if b.parent == ZERO then 0 else db.infos[b.parent].cumulativeWork)
      && (db.tip.Some? ==>
            db.tip.value != hash(b) && db.tip.value in db.infos && db.infos[db.tip.value].cumulativeWork == work)
    ensures Finish(handler, hash, db, b).Ok? <==> done.Some?
    ensures done.Some? ==>
      Recorded(db, Finish(handler, hash, db, b).value, hash(b), Info(work + b.work, done.value.diff), done.value.st)
  {
  }

  /** The database once `b` is connected on top of `c`. */
  ghost predicate Extended(run: BlockFn, hash: HashFn, db: Db, c: seq<MainBlock>, b: MainBlock, db': Db)
    requires Replay(run, c + [b]).Ok?
  {
    Recorded(db, db', hash(b), Info(TotalWork(c) + b.work, Replay(run, c + [b]).value.diff),
        Replay(run, c + [b]).value.st)
  }

  /** A block whose header is stored connects exactly when it builds on the tip
      and its chain replays. */
  lemma FinishExact(run: BlockFn, hash: HashFn, db: Db, c: seq<MainBlock>, b: MainBlock)
    requires IdealHash(hash) && Consistent(run, hash, db, c) && hash(b) in db.headers
    ensures Finish(HandlerOf(run, hash), hash, db, b).Ok? <==> b.parent == TipHash(hash, c) && Replay(run, c + [b]).Ok?
    ensures Finish(HandlerOf(run, hash), hash, db, b).Ok? ==>
      Extended(run, hash, db, c, b, Finish(HandlerOf(run, hash), hash, db, b).value)
  {
    AttemptExact(run, hash, db, c, b);
    if b.parent == TipHash(hash, c) && Replay(run, c + [b]).Ok? {
      OnTipKnown(run, hash, db, c, b);
      WorkAhead(run, hash, db, c, b);
      FinishRecords(HandlerOf(run, hash), hash, db, b, TotalWork(c), Some(Replay(run, c + [b]).value));
    } else {
      FinishRecords(HandlerOf(run, hash), hash, db, b, TotalWork(c), None);
    }
  }

  /** The new block always has more work behind it than the tip. */
  lemma WorkAhead(run: BlockFn, hash: HashFn, db: Db, c: seq<MainBlock>, b: MainBlock)
    requires IdealHash(hash) && Consistent(run, hash, db, c) && b.parent == TipHash(hash, c)
    ensures db.tip.Some? ==>
        db.tip.value != hash(b) && db.tip.value in db.infos && db.infos[db.tip.value].cumulativeWork == TotalWork(c)
  {
    if c != [] {
      assert InfoOf(run, hash, db, c);
      if TipHash(hash, c) == hash(b) {
        EndsIn(hash, c, b, c);
        assert false;
      }
    }
  }

  lemma RecordKeeps(run: BlockFn, hash: HashFn, db: Db, c: seq<MainBlock>, b: MainBlock, db': Db)
    requires IdealHash(hash) && Consistent(run, hash, db, c) && hash(b) in db.headers
    requires b.parent == TipHash(hash, c) && Replay(run, c + [b]).Ok?
    requires Extended(run, hash, db, c, b, db')
    ensures Consistent(run, hash, db', c + [b])
  {
    LinkedAppend(hash, c, b);
    ReplayAppend(run, c, b);
    forall k | k != [] && Linked(hash, k) && TipHash(hash, k) in db'.headers ensures HeaderOf(hash, db', k) {
      assert HeaderOf(hash, db, k);
    }
    forall k | k != [] && Linked(hash, k) && TipHash(hash, k) in db'.infos ensures InfoOf(run, hash, db', k) {
      if TipHash(hash, k) == hash(b) {
        EndsIn(hash, k, b, c);
        assert k[..|k| - 1] == c;
      } else {
        assert InfoOf(run, hash, db, k);
      }
    }
  }

  /** Connecting keeps the invariant, and accepts a block exactly when it builds
      on the tip and replaying its chain accepts it. */
  lemma ConnectKeeps(run: BlockFn, hash: HashFn, db: Db, c: seq<MainBlock>, b: MainBlock)
    requires IdealHash(hash) && Consistent(run, hash, db, c)
    ensures Verdict(HandlerOf(run, hash), hash, db, b).Ok? <==> b.parent == TipHash(hash, c) && Replay(run, c + [b]).Ok?
    ensures Consistent(run, hash, AfterConnect(HandlerOf(run, hash), hash, db, b),
                       if Verdict(HandlerOf(run, hash), hash, db, b).Ok? then c + [b] else c)
  {
    if WithHeader(hash, db, b).Ok? {
      var stored := WithHeader(hash, db, b).value;
      WithHeaderKeeps(run, hash, db, c, b);
      FinishExact(run, hash, stored, c, b);
      if Finish(HandlerOf(run, hash), hash, stored, b).Ok? {
        RecordKeeps(run, hash, stored, c, b, Finish(HandlerOf(run, hash), hash, stored, b).value);
      }
    } else {
      OnTipKnown(run, hash, db, c, b);
    }
  }

  // ----- Disconnecting

  /** Every block that connects on valid tables leaves valid tables and can be
      undone. */
  ghost predicate Reversible(run: BlockFn) {
    forall st, previous, parent, height, block :: Valid(st) && Whole(run(st, previous, parent, height, block)).Ok? ==>
      var c := Whole(run(st, previous, parent, height, block)).value;
      Valid(c.st) && Undo(c.diff, c.st) == Some(st)
  }

  lemma {:induction false} ReplayValid(run: BlockFn, c: seq<MainBlock>)
    requires Reversible(run) && Replay(run, c).Ok?
    ensures Valid(Replay(run, c).value.st)
  {
    if c != [] { ReplayValid(run, c[..|c| - 1]); }
  }

  /** Only what disconnecting changes. */
  lemma MovedKeeps(run: BlockFn, hash: HashFn, db: Db, db': Db, c: seq<MainBlock>)
    requires HeadersOk(hash, db) && InfosOk(run, hash, db) && Active(run, hash, db', c)
    requires db'.headers == db.headers && db'.heights == db.heights && db'.infos == db.infos
    ensures Consistent(run, hash, db', c)
  {
    forall k | k != [] && Linked(hash, k) && TipHash(hash, k) in db'.headers ensures HeaderOf(hash, db', k) {
      assert HeaderOf(hash, db, k);
    }
    forall k | k != [] && Linked(hash, k) && TipHash(hash, k) in db'.infos ensures InfoOf(run, hash, db', k) {
      assert InfoOf(run, hash, db, k);
    }
  }

  /** Disconnecting the tip never fails and steps back to the chain before it. */
  lemma DisconnectTip(run: BlockFn, hash: HashFn, db: Db, c: seq<MainBlock>)
    requires IdealHash(hash) && Reversible(run) && Consistent(run, hash, db, c) && c != []
    ensures Disconnect(db, TipHash(hash, c)).Ok?
    ensures Consistent(run, hash, Disconnect(db, TipHash(hash, c)).value, c[..|c| - 1])
  {
    var front := c[..|c| - 1];
    ReplayValid(run, front);
    assert InfoOf(run, hash, db, c) && HeaderOf(hash, db, c);
    MovedKeeps(run, hash, db, Disconnect(db, TipHash(hash, c)).value, front);
  }

  /** Every connected block has a chain. */
  ghost predicate AllKnown(hash: HashFn, db: Db) {
    forall h | h in db.infos :: Known(hash, h)
  }

  ghost predicate Known(hash: HashFn, h: Hash) {
    exists k :: k != [] && Linked(hash, k) && TipHash(hash, k) == h
  }

  lemma KnownTip(hash: HashFn, c: seq<MainBlock>)
    requires c != [] && Linked(hash, c)
    ensures Known(hash, TipHash(hash, c))
  {
  }

  // ----- Disconnecting without a tip

  /** The tables before the last block of `k` hold nothing but proposals which
      that block makes fail. */
  ghost predicate OnlyFailingBefore(run: BlockFn, k: seq<MainBlock>, diff: BlockDiff) {
    k != [] && Replay(run, k[..|k| - 1]).Ok? && OnlyFailing(Replay(run, k[..|k| - 1]).value.st, diff)
  }

  ghost predicate Healthy(run: BlockFn, hash: HashFn, db: Db) {
    exists c :: Consistent(run, hash, db, c)
  }

  /** The tip is compared only if there is one. Without a tip any connected block
      can be disconnected, and its parent becomes the tip. That is right exactly
      when the diff does not fit empty tables, which is an error and changes
      nothing, or when the parent's tables hold nothing but proposals which the
      block makes fail. */
  lemma DisconnectWithoutTip(run: BlockFn, hash: HashFn, db: Db, k: seq<MainBlock>)
    requires IdealHash(hash) && Reversible(run) && Consistent(run, hash, db, [])
    requires k != [] && Linked(hash, k) && TipHash(hash, k) in db.infos
    ensures var diff := db.infos[TipHash(hash, k)].diff;
      var db' := Step(run, hash, db, DisconnectOp(TipHash(hash, k)));
      && (Healthy(run, hash, db') <==> Undo(diff, EMPTY).None? || OnlyFailingBefore(run, k, diff))
      && (Undo(diff, EMPTY).None? ==> db' == db)
      && (Undo(diff, EMPTY).Some? && Healthy(run, hash, db') ==> Consistent(run, hash, db', k[..|k| - 1]))
  {
    var front, diff := k[..|k| - 1], db.infos[TipHash(hash, k)].diff;
    assert InfoOf(run, hash, db, k) && HeaderOf(hash, db, k);
    ReplayValid(run, front);
    if Undo(diff, EMPTY).Some? {
      UndoOnEmptyExactly(diff, Replay(run, k).value.st, Replay(run, front).value.st);
      var db' := Disconnect(db, TipHash(hash, k)).value;
      MovedExactly(run, hash, db, db', front);
    }
  }

  lemma MovedExactly(run: BlockFn, hash: HashFn, db: Db, db': Db, front: seq<MainBlock>)
    requires IdealHash(hash) && HeadersOk(hash, db) && InfosOk(run, hash, db)
    requires Linked(hash, front) && Replay(run, front).Ok? && (front != [] ==> TipHash(hash, front) in db.infos)
    requires db'.headers == db.headers && db'.heights == db.heights && db'.infos == db.infos
    requires db'.tip == (if front == [] then None else Some(TipHash(hash, front)))
    ensures Healthy(run, hash, db') <==> db'.tables == Replay(run, front).value.st
    ensures Healthy(run, hash, db') ==> Consistent(run, hash, db', front)
  {
    if Healthy(run, hash, db') {
      var c :| Consistent(run, hash, db', c);
      SameTipSameChain(hash, c, front);
    }
    if db'.tables == Replay(run, front).value.st { MovedKeeps(run, hash, db, db', front); }
  }

  // ----- Runs

  /** What the validator does not guard against: disconnecting a block when there
      is no tip, although its parent's tables are not those that its diff brings
      back on empty ones. */
  ghost predicate Guard(run: BlockFn, hash: HashFn, db: Db, op: Op) {
    op.DisconnectOp? && db.tip.None? && op.hash in db.infos ==>
      var diff := db.infos[op.hash].diff;
      Undo(diff, EMPTY).None?
      || exists k :: Linked(hash, k) && TipHash(hash, k) == op.hash && OnlyFailingBefore(run, k, diff)
  }

  ghost predicate Guarded(run: BlockFn, hash: HashFn, ops: seq<Op>) {
    ops == [] ||
    var front := ops[..|ops| - 1];
    Guarded(run, hash, front) && Guard(run, hash, RunOps(run, hash, front), ops[|ops| - 1])
  }

  lemma InfosGrow(handler: Handler, hash: HashFn, db: Db, b: MainBlock)
    ensures AfterConnect(handler, hash, db, b).infos.Keys
         <= db.infos.Keys + if Verdict(handler, hash, db, b).Ok? then {hash(b)} else {}
  {
  }

  lemma KnownGrow(hash: HashFn, db: Db, db': Db, c: seq<MainBlock>)
    requires AllKnown(hash, db) && Linked(hash, c)
    requires db'.infos.Keys <= db.infos.Keys + if c != [] then {TipHash(hash, c)} else {}
    ensures AllKnown(hash, db')
  {
    if c != [] { KnownTip(hash, c); }
  }

  lemma StepConnect(run: BlockFn, hash: HashFn, db: Db, c: seq<MainBlock>, b: MainBlock) returns (c': seq<MainBlock>)
    requires IdealHash(hash) && Consistent(run, hash, db, c) && AllKnown(hash, db)
    ensures Consistent(run, hash, Step(run, hash, db, ConnectOp(b)), c')
    ensures AllKnown(hash, Step(run, hash, db, ConnectOp(b)))
  {
    ConnectKeeps(run, hash, db, c, b);
    InfosGrow(HandlerOf(run, hash), hash, db, b);
    c' := if Verdict(HandlerOf(run, hash), hash, db, b).Ok? then c + [b] else c;
    KnownGrow(hash, db, Step(run, hash, db, ConnectOp(b)), c');
  }

  lemma StepDisconnect(run: BlockFn, hash: HashFn, db: Db, c: seq<MainBlock>, h: Hash)
    requires IdealHash(hash) && Reversible(run) && Consistent(run, hash, db, c) && AllKnown(hash, db)
    ensures Healthy(run, hash, Step(run, hash, db, DisconnectOp(h))) <==> Guard(run, hash, db, DisconnectOp(h))
    ensures AllKnown(hash, Step(run, hash, db, DisconnectOp(h)))
  {
    if h !in db.infos || (c != [] && h != TipHash(hash, c)) {
      assert Step(run, hash, db, DisconnectOp(h)) == db;
    } else if c != [] {
      DisconnectTip(run, hash, db, c);
    } else {
      assert Known(hash, h);
      var k :| k != [] && Linked(hash, k) && TipHash(hash, k) == h;
      DisconnectWithoutTip(run, hash, db, k);
      GuardIsAbout(run, hash, db, k);
    }
  }

  /** There is only one chain that ends in a block. */
  lemma GuardIsAbout(run: BlockFn, hash: HashFn, db: Db, k: seq<MainBlock>)
    requires IdealHash(hash) && db.tip.None? && k != [] && Linked(hash, k) && TipHash(hash, k) in db.infos
    ensures var diff := db.infos[TipHash(hash, k)].diff;
      Guard(run, hash, db, DisconnectOp(TipHash(hash, k)))
      <==> Undo(diff, EMPTY).None? || OnlyFailingBefore(run, k, diff)
  {
    var h := TipHash(hash, k);
    var diff := db.infos[h].diff;
    if k' :| Linked(hash, k') && TipHash(hash, k') == h && OnlyFailingBefore(run, k', diff) {
      SameTipSameChain(hash, k, k');
    }
  }

  /** From a consistent database, a step leads to a consistent one exactly when it
      is guarded. */
  lemma StepExactly(run: BlockFn, hash: HashFn, db: Db, op: Op)
    requires IdealHash(hash) && Reversible(run) && Healthy(run, hash, db) && AllKnown(hash, db)
    ensures Healthy(run, hash, Step(run, hash, db, op)) <==> Guard(run, hash, db, op)
    ensures AllKnown(hash, Step(run, hash, db, op))
  {
    var c :| Consistent(run, hash, db, c);
    match op
    case ConnectOp(b) => var _ := StepConnect(run, hash, db, c, b);
    case DisconnectOp(h) => StepDisconnect(run, hash, db, c, h);
  }

  /** Over every guarded run, the tables are the replay of one chain, which ends
      at the tip. */
  lemma {:induction false} RunConsistent(run: BlockFn, hash: HashFn, ops: seq<Op>) returns (c: seq<MainBlock>)
    requires IdealHash(hash) && Reversible(run) && Guarded(run, hash, ops)
    ensures Consistent(run, hash, RunOps(run, hash, ops), c) && AllKnown(hash, RunOps(run, hash, ops))
  {
    if ops == [] {
      c := [];
    } else {
      var front, op := ops[..|ops| - 1], ops[|ops| - 1];
      var before := RunConsistent(run, hash, front);
      assert Healthy(run, hash, RunOps(run, hash, front));
      StepExactly(run, hash, RunOps(run, hash, front), op);
      c :| Consistent(run, hash, RunOps(run, hash, ops), c);
    }
  }

  ghost predicate AlwaysHealthy(run: BlockFn, hash: HashFn, ops: seq<Op>) {
    && Healthy(run, hash, RunOps(run, hash, ops))
    && (ops == [] || AlwaysHealthy(run, hash, ops[..|ops| - 1]))
  }

  lemma GuardedStep(run: BlockFn, hash: HashFn, ops: seq<Op>, op: Op)
    requires IdealHash(hash) && Reversible(run) && Guarded(run, hash, ops)
    ensures var db := RunOps(run, hash, ops);
      Healthy(run, hash, Step(run, hash, db, op)) <==> Guard(run, hash, db, op)
  {
    var c := RunConsistent(run, hash, ops);
    StepExactly(run, hash, RunOps(run, hash, ops), op);
  }

  /** And only over those: a run stays consistent throughout exactly when every
      step of it is guarded. */
  lemma {:induction false} ConsistentExactlyWhenGuarded(run: BlockFn, hash: HashFn, ops: seq<Op>)
    requires IdealHash(hash) && Reversible(run)
    ensures AlwaysHealthy(run, hash, ops) <==> Guarded(run, hash, ops)
  {
    if ops == [] {
      var c := RunConsistent(run, hash, ops);
    } else {
      ConsistentExactlyWhenGuarded(run, hash, ops[..|ops| - 1]);
      if Guarded(run, hash, ops[..|ops| - 1]) { GuardedStep(run, hash, ops[..|ops| - 1], ops[|ops| - 1]); }
    }
  }

  /** The path does not matter: runs that end at the same tip have the same
      tables. */
  lemma SameTipSameTables(run: BlockFn, hash: HashFn, ops1: seq<Op>, ops2: seq<Op>)
    requires IdealHash(hash) && Reversible(run)
    requires Guarded(run, hash, ops1) && Guarded(run, hash, ops2)
    requires RunOps(run, hash, ops1).tip == RunOps(run, hash, ops2).tip
    ensures RunOps(run, hash, ops1).tables == RunOps(run, hash, ops2).tables
  {
    var c1 := RunConsistent(run, hash, ops1);
    var c2 := RunConsistent(run, hash, ops2);
    SameTipSameChain(hash, c1, c2);
  }
}
