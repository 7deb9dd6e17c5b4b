/** How the validator connects a block inside nested write transactions, for real
    or as a dry run. */
module ConnectModes {
  import opened Prelude
  import opened Transactions
  import opened Ledger
  import Validator
  import opened TreasuryTxs
  import opened Blocks

  type Hash = Bytes

  /** The hash that stands for "no block". */
  const ZERO: Hash := []

  /** The work of one block is never zero. */
  type Work = w: nat | w > 0 witness 1

  /** A mainchain block: the part of its header that matters here, and its
      transactions. */
  datatype MainBlock = MainBlock(parent: Hash, work: Work, body: Block)

  type HashFn = MainBlock -> Hash

  datatype Header = Header(parent: Hash, work: Work)

  /** What is stored once a block is connected. */
  datatype Info = Info(cumulativeWork: nat, diff: BlockDiff)

  datatype Db = Db(
    headers: map<Hash, Header>,
    heights: map<Hash, nat>,
    infos: map<Hash, Info>,
    tip: Option<Hash>,
    tables: State,
    /** The BMM requests seen on top of each block. */
    seen: map<Hash, set<Txid>>)

  const NEW_DB := Db(map[], map[], map[], None, EMPTY, map[])

  datatype Event = ConnectedBlock(hash: Hash) | DisconnectedBlock(hash: Hash)

  datatype Refusal =
    | MissingParentHeight
    | NotOnTip
    | Invalid(reason: Validator.Reject)
    | Unconsolidated
    | MissingHeight
    | MissingParentInfo

  /** Errors of the database, as opposed to faults of the block: they end the call
      and leave nothing behind. */
  predicate Fatal(e: Refusal) {
    e == MissingHeight || e == MissingParentInfo || e == Invalid(Validator.MissingPending)
  }

  // ----- Storing the header

  predicate ParentKnown(db: Db, block: MainBlock) {
    block.parent == ZERO || block.parent in db.heights
  }

  /** Stores the header with its height; the parent's height is written again. */
  function PutHeader(hash: HashFn, db: Db, block: MainBlock): Db
    requires ParentKnown(db, block)
  {
    var h := hash(block);
    var height := if block.parent == ZERO then 0 else db.heights[block.parent] + 1;
    var heights := db.heights[h := height];
    db.(headers := db.headers[h := Header(block.parent, block.work)],
        heights := if block.parent == ZERO then heights else heights[block.parent := height - 1])
  }

  /** Stores the header unless it is there already. */
  function WithHeader(hash: HashFn, db: Db, block: MainBlock): Result<Db, Refusal> {
    if hash(block) in db.headers then Ok(db)
    else if !ParentKnown(db, block) then Err(MissingParentHeight)
    else Ok(PutHeader(hash, db, block))
  }

  // ----- The handler

  /** The result of running a block's messages and transactions. */
  datatype Partial = Partial(tables: State, diff: BlockDiff, uncon: TreasuryTxs.Unconsolidated)

  /** Runs a block whose header is stored against the tables. */
  type Handler = (Db, MainBlock) -> Result<Partial, Refusal>

  /** Stores what a connected block did and moves the tip to it, if it has more
      work behind it. */
  function Record(hash: HashFn, db: Db, block: MainBlock, done: Partial): Result<Db, Refusal> {
    var h := hash(block);
    if block.parent != ZERO && block.parent !in db.infos then Err(MissingParentInfo) else
    var work := block.work + if block.parent == ZERO then 0 else db.infos[block.parent].cumulativeWork;
    var infos := db.infos[h := Info(work, done.diff)];
    var best := db.tip.None? || (db.tip.value in infos && infos[db.tip.value].cumulativeWork < work);
    Ok(db.(infos := infos, tables := done.tables, tip := if best then Some(h) else db.tip))
  }

  /** Connects a block whose header is stored. */
  function Finish(handler: Handler, hash: HashFn, db: Db, block: MainBlock): Result<Db, Refusal> {
    var done :- handler(db, block);
    if done.uncon != map[] then Err(Unconsolidated) else Record(hash, db, block, done)
  }

  /** What connecting a block would leave behind, or why it is refused. */
  function Verdict(handler: Handler, hash: HashFn, db: Db, block: MainBlock): Result<Db, Refusal> {
    var stored :- WithHeader(hash, db, block);
    Finish(handler, hash, stored, block)
  }

  /** The database after connecting a block for real: a refused block still
      keeps its header, unless an error is fatal. */
  function AfterConnect(handler: Handler, hash: HashFn, db: Db, block: MainBlock): Db {
    match Verdict(handler, hash, db, block)
    case Ok(after) => after
    case Err(e) =>
      if Fatal(e) then db else match WithHeader(hash, db, block) case Ok(stored) => stored case Err(_) => db
  }

  function SeenOn(db: Db, parent: Hash): set<Txid> {
    if parent in db.seen then db.seen[parent] else {}
  }

  // ----- Disconnecting

  datatype DisconnectError = NotTheTip | MissingHeader | CannotUndo

  /** Disconnects a block. A block without a diff was refused, and there is
      nothing to do. The tip is compared only if there is one. */
  function Disconnect(db: Db, h: Hash): Result<Db, DisconnectError> {
    if h !in db.infos then Ok(db)
    else if db.tip.Some? && db.tip.value != h then Err(NotTheTip)
    else if h !in db.headers then Err(MissingHeader)
    else
      match Undo(db.infos[h].diff, db.tables)
      case None => Err(CannotUndo)
      case Some(tables) =>
        var parent := db.headers[h].parent;
        Ok(db.(tables := tables, tip := if parent == ZERO then None else Some(parent)))
  }

  // ----- Transactions over the database

  datatype Mode = Commit | DryRun

  datatype Outcome<+O> =
    | Accepted(removeMempoolTxs: set<Txid>)
    | Rejected
    | Viewed(output: O)
    | Refused(reason: Refusal)
    | Failed(reason: Refusal)

  class Environment {
    /** The committed database, then the open write transactions, each nested in
        the one before. */
    var layers: seq<Db>
    var sent: seq<Event>

    predicate Open(depth: nat)
      reads this
    {
      |layers| == 1 + depth
    }

    function Committed(): Db
      requires layers != []
      reads this
    {
      layers[0]
    }

    constructor ()
      ensures Open(0) && Committed() == NEW_DB && sent == []
    {
      layers, sent := [NEW_DB], [];
    }

    method Begin()
      requires layers != []
      modifies this`layers
      ensures layers == old(layers) + [old(layers[|layers| - 1])]
    {
      layers := layers + [layers[|layers| - 1]];
    }

    /** Hands the innermost transaction's writes to the one around it. */
    method CommitTxn()
      requires |layers| > 1
      modifies this`layers
      ensures layers == old(layers[..|layers| - 2] + [layers[|layers| - 1]])
    {
      layers := layers[..|layers| - 2] + [layers[|layers| - 1]];
    }

    method AbortTxn()
      requires |layers| > 1
      modifies this`layers
      ensures layers == old(layers[..|layers| - 1])
    {
      layers := layers[..|layers| - 1];
    }

    method Write(db: Db)
      requires |layers| > 1
      modifies this`layers
      ensures layers == old(layers[..|layers| - 1]) + [db]
    {
      layers := layers[..|layers| - 1] + [db];
    }

    /** Connects a block in a transaction nested in the one that stores its
        header. Committing keeps the writes, tells the listeners, and keeps the
        header of a refused block; a fatal error keeps nothing; a dry run shows
        `view` the database that committing would leave, and keeps nothing. */
    method ConnectBlock<O>(mode: Mode, handler: Handler, hash: HashFn, block: MainBlock, view: Db -> O)
      returns (r: Outcome<O>)
      requires Open(0)
      modifies this
      ensures Open(0)
      ensures var v := Verdict(handler, hash, old(Committed()), block);
        match mode
        case Commit =>
          && Committed() == AfterConnect(handler, hash, old(Committed()), block)
          && sent == old(sent) + (if v.Ok? then [ConnectedBlock(hash(block))] else [])
          && r == (match v
                   case Ok(_) => Accepted(SeenOn(old(Committed()), block.parent))
                   case Err(e) => if Fatal(e) then Failed(e) else Rejected)
        case DryRun =>
          && Committed() == old(Committed()) && sent == old(sent)
          && r == (match v case Ok(after) => Viewed(view(after)) case Err(e) => if Fatal(e) then Failed(e)
              else Refused(e))
    {
      Begin();
      ghost var before := layers[0];
      if hash(block) !in layers[1].headers {
        if !ParentKnown(layers[1], block) {
          r := RejectBlock(mode, MissingParentHeight);
          return;
        }
        Write(PutHeader(hash, layers[1], block));
      }
      assert Ok(layers[1]) == WithHeader(hash, before, block);
      Begin();
      match Finish(handler, hash, layers[2], block) {
        case Ok(after) =>
          Write(after);
          var removed := SeenOn(layers[2], block.parent);
          SeenKept(handler, hash, before, block);
          r := AcceptBlock(mode, hash(block), removed, view);
        case Err(reason) =>
          AbortTxn();
          if Fatal(reason) {
            AbortTxn();
            r := Failed(reason);
          } else {
            r := RejectBlock(mode, reason);
          }
      }
    }

    /** Ends the two transactions of a block that connects. */
    method AcceptBlock<O>(mode: Mode, h: Hash, removed: set<Txid>, view: Db -> O) returns (r: Outcome<O>)
      requires Open(2)
      modifies this
      ensures layers == [if mode == Commit then old(layers[2]) else old(layers[0])]
      ensures sent == old(sent) + if mode == Commit then [ConnectedBlock(h)] else []
      ensures r == if mode == Commit then Accepted(removed) else Viewed(view(old(layers[2])))
    {
      if mode == Commit {
        CommitTxn();
        CommitTxn();
        sent := sent + [ConnectedBlock(h)];
        r := Accepted(removed);
      } else {
        var output := view(layers[2]);
        AbortTxn();
        AbortTxn();
        r := Viewed(output);
      }
    }

    /** Ends the transaction that holds the header of a refused block. */
    method RejectBlock<O>(mode: Mode, reason: Refusal) returns (r: Outcome<O>)
      requires Open(1)
      modifies this`layers
      ensures layers == [if mode == Commit then old(layers[1]) else old(layers[0])]
      ensures r == if mode == Commit then Rejected else Refused(reason)
    {
      if mode == Commit {
        CommitTxn();
        r := Rejected;
      } else {
        AbortTxn();
        r := Refused(reason);
      }
    }

    /** Disconnects a block in one transaction, which an error leaves without a
        trace; the listeners hear of it only if the block had been connected. */
    method DisconnectBlock(h: Hash) returns (r: Result<set<Txid>, DisconnectError>)
      requires Open(0)
      modifies this
      ensures Open(0)
      ensures match Disconnect(old(Committed()), h)
        case Ok(after) =>
          && Committed() == after && r == Ok(SeenOn(old(Committed()), h))
          && sent == old(sent) + (if h in old(Committed()).infos then [DisconnectedBlock(h)] else [])
        case Err(e) => Committed() == old(Committed()) && sent == old(sent) && r == Err(e)
    {
      Begin();
      var db := layers[1];
      var events := [];
      if h in db.infos {
        if db.tip.Some? && db.tip.value != h { AbortTxn(); return Err(NotTheTip); }
        if h !in db.headers { AbortTxn(); return Err(MissingHeader); }
        var undone := Undo(db.infos[h].diff, db.tables);
        if undone.None? { AbortTxn(); return Err(CannotUndo); }
        var parent := db.headers[h].parent;
        Write(db.(tables := undone.value, tip := if parent == ZERO then None else Some(parent)));
        events := [DisconnectedBlock(h)];
      }
      var removed := SeenOn(layers[1], h);
      CommitTxn();
      sent := sent + events;
      r := Ok(removed);
    }

    /** Runs a block without the rule that deposits are consolidated, shows `view`
        the database and what is left to consolidate, and keeps nothing. */
    method PartialDryRun<O>(handler: Handler, hash: HashFn, block: MainBlock, view: (Db, Partial) -> O)
      returns (r: Result<O, Refusal>)
      requires Open(0)
      modifies this`layers
      ensures layers == old(layers)
      ensures r == PartialView(handler, hash, old(Committed()), block, view)
    {
      Begin();
      if hash(block) !in layers[1].headers {
        if !ParentKnown(layers[1], block) {
          AbortTxn();
          return Err(MissingParentHeight);
        }
        Write(PutHeader(hash, layers[1], block));
      }
      Begin();
      match handler(layers[2], block) {
        case Ok(done) =>
          Write(layers[2].(tables := done.tables));
          r := Ok(view(layers[2], done));
          AbortTxn();
          AbortTxn();
        case Err(reason) =>
          AbortTxn();
          AbortTxn();
          r := Err(reason);
      }
    }
  }

  /** What a partial dry run reports. */
  function PartialView<O>(handler: Handler, hash: HashFn, db: Db, block: MainBlock, view: (Db, Partial) -> O)
    : Result<O, Refusal> {
    var stored :- WithHeader(hash, db, block);
    var done :- handler(stored, block);
    Ok(view(stored.(tables := done.tables), done))
  }

  /** Connecting leaves the seen requests alone. */
  lemma SeenKept(handler: Handler, hash: HashFn, db: Db, block: MainBlock)
    ensures Verdict(handler, hash, db, block).Ok? ==> Verdict(handler, hash, db, block).value.seen == db.seen
  {
  }

  /** A refused block adds its own header and height at most: connected blocks,
      tip, tables, seen requests and every other header stay. A parent that is
      known keeps its height. */
  lemma RefusalAddsHeaderOnly(handler: Handler, hash: HashFn, db: Db, block: MainBlock)
    requires Verdict(handler, hash, db, block).Err?
    requires db.headers.Keys == db.heights.Keys
    ensures var after := AfterConnect(handler, hash, db, block);
      && after == db.(headers := after.headers, heights := after.heights)
      && after.headers.Keys <= db.headers.Keys + {hash(block)}
      && (forall h | h in db.headers :: after.headers[h] == db.headers[h])
      && (forall h | h in db.heights :: h in after.heights && after.heights[h] == db.heights[h])
      && after.heights.Keys == after.headers.Keys
  {
  }

  /** Connecting accepts a block exactly when the partial run accepts it and
      leaves nothing to consolidate (and the parent is connected), and then
      leaves the tables that the partial run showed. */
  lemma PartialAgrees(handler: Handler, hash: HashFn, db: Db, block: MainBlock)
    requires block.parent == ZERO || block.parent in db.infos
    ensures var partial := PartialView(handler, hash, db, block, (_: Db, done: Partial) => done);
      var v := Verdict(handler, hash, db, block);
      && (v.Ok? <==> partial.Ok? && partial.value.uncon == map[])
      && (v.Ok? ==> v.value.tables == partial.value.tables)
  {
  }
}
