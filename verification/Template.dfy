/** Block templates: the auction for each slot's BMM request (M8), the bids that
    it keeps out of the block, and the accepts (M7) for those that are in. */
module Template {
  import opened Prelude
  import opened Runs
  import opened Transactions
  import opened Messages
  import opened CoinbaseList
  import opened Ledger
  import opened Validator
  import opened Blocks

  // ----- The auction

  datatype Bid = Bid(slot: Slot, commitment: Bytes, txid: Txid, fee: nat)

  /** Bid `i` wins its slot among the first `n`: no fee is higher, and no earlier
      one as high. */
  predicate Wins(bids: seq<Bid>, n: nat, i: nat)
    requires n <= |bids|
  {
    && i < n
    && (forall j | 0 <= j < n && bids[j].slot == bids[i].slot :: bids[j].fee <= bids[i].fee)
    && (forall j | 0 <= j < i && bids[j].slot == bids[i].slot :: bids[j].fee < bids[i].fee)
  }

  ghost predicate Winners(bids: seq<Bid>, n: nat, winners: map<Slot, Bid>)
    requires n <= |bids|
  {
    && (forall j | 0 <= j < n :: bids[j].slot in winners)
    && (forall s | s in winners :: WonBy(bids, n, s, winners[s]))
  }

  ghost predicate WonBy(bids: seq<Bid>, n: nat, slot: Slot, bid: Bid)
    requires n <= |bids|
  {
    exists i | 0 <= i < n :: bids[i] == bid && bid.slot == slot && Wins(bids, n, i)
  }

  /** The highest absolute fee wins each slot; of equal ones, the first. */
  method AuctionWinners(bids: seq<Bid>) returns (winners: map<Slot, Bid>)
    ensures Winners(bids, |bids|, winners)
  {
    winners := map[];
    for n := 0 to |bids|
      invariant Winners(bids, n, winners)
    {
      var bid := bids[n];
      ghost var before := winners;
      if bid.slot !in winners || bid.fee > winners[bid.slot].fee {
        winners := winners[bid.slot := bid];
      }
      AuctionNext(bids, n, before, winners);
    }
  }

  lemma AuctionNext(bids: seq<Bid>, n: nat, before: map<Slot, Bid>, after: map<Slot, Bid>)
    requires n < |bids| && Winners(bids, n, before)
    requires var bid := bids[n];
      after == if bid.slot !in before || bid.fee > before[bid.slot].fee then before[bid.slot := bid] else before
    ensures Winners(bids, n + 1, after)
  {
    forall s | s in after ensures WonBy(bids, n + 1, s, after[s]) { AuctionStep(bids, n, s, before, after); }
  }

  lemma AuctionStep(bids: seq<Bid>, n: nat, s: Slot, before: map<Slot, Bid>, after: map<Slot, Bid>)
    requires n < |bids| && Winners(bids, n, before) && s in after
    requires var bid := bids[n];
      after == if bid.slot !in before || bid.fee > before[bid.slot].fee then before[bid.slot := bid] else before
    ensures WonBy(bids, n + 1, s, after[s])
  {
    var bid := bids[n];
    if s in before {
      assert WonBy(bids, n, s, before[s]);
      var i :| 0 <= i < n && bids[i] == before[s] && before[s].slot == s && Wins(bids, n, i);
      if after[s] == before[s] {
        assert Wins(bids, n + 1, i);
      } else {
        assert Wins(bids, n + 1, n);
      }
    } else {
      assert Wins(bids, n + 1, n);
    }
  }

  // ----- Exclusion

  /** A request seen on top of the parent block. */
  datatype Seen = Seen(slot: Slot, commitment: Bytes, txid: Txid)

  /** A transaction carries one request at most. */
  ghost predicate SeenOnce(seen: seq<Seen>) {
    forall i, j | 0 <= i < |seen| && 0 <= j < |seen| && seen[i].txid == seen[j].txid :: seen[i] == seen[j]
  }

  /** The bids that are still in the mempool, with their fees. */
  function BidsOf(seen: seq<Seen>, fees: map<Txid, nat>): seq<Bid> {
    if seen == [] then [] else
    var n := |seen| - 1;
    BidsOf(seen[..n], fees)
      + if seen[n].txid in fees then [Bid(seen[n].slot, seen[n].commitment, seen[n].txid, fees[seen[n].txid])] else []
  }

  /** All seen requests but each slot's winner. */
  function Excluded(seen: seq<Seen>, winners: map<Slot, Bid>): set<Txid> {
    set r | r in seen && !(r.slot in winners && winners[r.slot].txid == r.txid) :: r.txid
  }

  lemma {:induction false} BidsFromSeen(seen: seq<Seen>, fees: map<Txid, nat>)
    ensures forall i | 0 <= i < |BidsOf(seen, fees)| :: BidFromSeen(seen, fees, BidsOf(seen, fees)[i])
    ensures forall r | r in seen && r.txid in fees ::
        Bid(r.slot, r.commitment, r.txid, fees[r.txid]) in BidsOf(seen, fees)
  {
    if seen != [] {
      var n := |seen| - 1;
      BidsFromSeen(seen[..n], fees);
      forall i | 0 <= i < |BidsOf(seen, fees)| ensures BidFromSeen(seen, fees, BidsOf(seen, fees)[i]) {
        if i < |BidsOf(seen[..n], fees)| {
          assert BidFromSeen(seen[..n], fees, BidsOf(seen[..n], fees)[i]);
        } else {
          assert seen[n] in seen;
        }
      }
      forall r | r in seen && r.txid in fees ensures Bid(r.slot, r.commitment, r.txid, fees[r.txid]) in BidsOf(seen,
          fees) {
        assert r in seen[..n] || r == seen[n];
      }
    }
  }

  predicate BidFromSeen(seen: seq<Seen>, fees: map<Txid, nat>, bid: Bid) {
    Seen(bid.slot, bid.commitment, bid.txid) in seen && bid.txid in fees && bid.fee == fees[bid.txid]
  }

  /** Once the auction is settled, each slot keeps at most one seen bid, which is
      still in the mempool and pays the most among those that are; and it keeps
      one if any of its bids is in the mempool. */
  lemma OneBidPerSlot(seen: seq<Seen>, fees: map<Txid, nat>, winners: map<Slot, Bid>)
    requires SeenOnce(seen)
    requires var bids := BidsOf(seen, fees); Winners(bids, |bids|, winners)
    ensures forall r, r' | r in seen && r' in seen && r.slot == r'.slot
        && r.txid !in Excluded(seen, winners) && r'.txid !in Excluded(seen, winners) :: r == r'
    ensures forall r | r in seen && r.txid !in Excluded(seen, winners) ::
      r.txid in fees && forall r' | r' in seen && r'.slot == r.slot && r'.txid in fees :: fees[r'.txid] <= fees[r.txid]
    ensures forall r | r in seen && r.txid in fees ::
      exists w | w in seen :: w.slot == r.slot && w.txid !in Excluded(seen, winners)
  {
    var bids := BidsOf(seen, fees);
    BidsFromSeen(seen, fees);
    forall r | r in seen && r.txid !in Excluded(seen, winners)
      ensures r.slot in winners && winners[r.slot].txid == r.txid && r.txid in fees
      ensures forall r' | r' in seen && r'.slot == r.slot && r'.txid in fees :: fees[r'.txid] <= fees[r.txid]
    {
      KeptWins(seen, fees, winners, r);
    }
    forall r | r in seen && r.txid in fees ensures exists w | w in seen ::
        w.slot == r.slot && w.txid !in Excluded(seen, winners) {
      WinnerKept(seen, fees, winners, r);
    }
  }

  lemma KeptWins(seen: seq<Seen>, fees: map<Txid, nat>, winners: map<Slot, Bid>, r: Seen)
    requires r in seen && r.txid !in Excluded(seen, winners)
    requires var bids := BidsOf(seen, fees); Winners(bids, |bids|, winners)
    ensures r.slot in winners && winners[r.slot].txid == r.txid && r.txid in fees
    ensures forall r' | r' in seen && r'.slot == r.slot && r'.txid in fees :: fees[r'.txid] <= fees[r.txid]
  {
    var bids := BidsOf(seen, fees);
    BidsFromSeen(seen, fees);
    assert WonBy(bids, |bids|, r.slot, winners[r.slot]);
    var i :| 0 <= i < |bids| && bids[i] == winners[r.slot] && Wins(bids, |bids|, i);
    assert BidFromSeen(seen, fees, bids[i]);
    forall r' | r' in seen && r'.slot == r.slot && r'.txid in fees ensures fees[r'.txid] <= fees[r.txid] {
      var bid' := Bid(r'.slot, r'.commitment, r'.txid, fees[r'.txid]);
      assert bid' in bids;
      var j :| 0 <= j < |bids| && bids[j] == bid';
    }
  }

  lemma WinnerKept(seen: seq<Seen>, fees: map<Txid, nat>, winners: map<Slot, Bid>, r: Seen)
    requires SeenOnce(seen)
    requires r in seen && r.txid in fees
    requires var bids := BidsOf(seen, fees); Winners(bids, |bids|, winners)
    ensures exists w | w in seen :: w.slot == r.slot && w.txid !in Excluded(seen, winners)
  {
    var bids := BidsOf(seen, fees);
    BidsFromSeen(seen, fees);
    var bid := Bid(r.slot, r.commitment, r.txid, fees[r.txid]);
    var j :| 0 <= j < |bids| && bids[j] == bid;
    assert WonBy(bids, |bids|, r.slot, winners[r.slot]);
    var i :| 0 <= i < |bids| && bids[i] == winners[r.slot] && winners[r.slot].slot == r.slot && Wins(bids, |bids|, i);
    assert BidFromSeen(seen, fees, bids[i]);
    var w := Seen(bids[i].slot, bids[i].commitment, bids[i].txid);
    assert w in seen && w.slot == r.slot;
  }

  // ----- Accepting the requests that are in the block

  function AcceptOf(r: BmmRequest): Message {
    M7BmmAccept(r.slot, r.commitment)
  }

  /** Entry `i` accepts the request of a transaction among the first `n`. */
  ghost predicate FromRequest(entries: seq<Entry>, i: nat, txs: seq<Transaction>, n: nat)
    requires i < |entries| && n <= |txs|
  {
    exists j | 0 <= j < n :: ParseM8(txs[j]).Some? && entries[i].message == AcceptOf(ParseM8(txs[j]).value)
  }

  ghost predicate HasAccept(entries: seq<Entry>, slot: Slot) {
    exists i | 0 <= i < |entries| :: entries[i].message.M7BmmAccept? && entries[i].message.slot == slot
  }

  /** The builder holds the messages it had and accepts for the first `n`
      transactions' requests. */
  ghost predicate Accepted(had: seq<Entry>, entries: seq<Entry>, txs: seq<Transaction>, n: nat)
    requires n <= |txs|
  {
    && had <= entries
    && (forall i | |had| <= i < |entries| :: FromRequest(entries, i, txs, n))
    && (forall j | 0 <= j < n && ParseM8(txs[j]).Some? :: HasAccept(entries, ParseM8(txs[j]).value.slot))
  }

  lemma AcceptedMore(had: seq<Entry>, entries: seq<Entry>, entries': seq<Entry>, txs: seq<Transaction>, n: nat, m: nat)
    requires n < m == n + 1 <= |txs| && Accepted(had, entries, txs, n) && entries <= entries'
    requires forall i | |entries| <= i < |entries'| :: FromRequest(entries', i, txs, m)
    requires ParseM8(txs[n]).Some? ==> HasAccept(entries', ParseM8(txs[n]).value.slot)
    ensures Accepted(had, entries', txs, m)
  {
    forall i | |had| <= i < |entries'| ensures FromRequest(entries', i, txs, m) {
      if i < |entries| {
        assert FromRequest(entries, i, txs, n);
        var j :| 0 <= j < n && ParseM8(txs[j]).Some? && entries[i].message == AcceptOf(ParseM8(txs[j]).value);
        assert entries'[i] == entries[i];
      }
    }
    forall j | 0 <= j < m && ParseM8(txs[j]).Some? ensures HasAccept(entries', ParseM8(txs[j]).value.slot) {
      if j < n {
        var slot := ParseM8(txs[j]).value.slot;
        assert HasAccept(entries, slot);
        var i :| 0 <= i < |entries| && entries[i].message.M7BmmAccept? && entries[i].message.slot == slot;
        assert entries'[i] == entries[i];
      }
    }
  }

  lemma ClashIsAccept(entries: seq<Entry>, m: Message)
    requires m.M7BmmAccept?
    ensures Clashes(entries, m) <==> HasAccept(entries, m.slot)
  {
    if HasAccept(entries, m.slot) {
      var i :| 0 <= i < |entries| && entries[i].message.M7BmmAccept? && entries[i].message.slot == m.slot;
      assert Clash(entries[i].message, m);
    }
  }

  /** Adds an accept for a request, unless its slot has one already. */
  method AcceptOne(b: CoinbaseBuilder, r: BmmRequest) returns (ok: bool)
    requires b.Valid() && |r.commitment| == 32
    modifies b.list
    ensures b.Valid() && ok
    ensures old(b.list.entries) <= b.list.entries
    ensures forall i | |old(b.list.entries)| <= i < |b.list.entries| :: b.list.entries[i].message == AcceptOf(r)
    ensures HasAccept(b.list.entries, r.slot)
  {
    var m := AcceptOf(r);
    ClashIsAccept(b.list.entries, m);
    if Clashes(b.list.entries, m) { return true; }
    ghost var before := b.list.entries;
    var added := b.Add(m);
    LastAccepts(before, b.list.entries, m);
    ok := added.Ok?;
  }

  lemma LastAccepts(before: seq<Entry>, after: seq<Entry>, m: Message)
    requires m.M7BmmAccept? && |after| == |before| + 1 && after[|before|].message == m
    ensures HasAccept(after, m.slot)
  {
  }

  lemma AcceptedOne(had: seq<Entry>, entries: seq<Entry>, entries': seq<Entry>, txs: seq<Transaction>, n: nat, m: nat)
    requires n < m == n + 1 <= |txs| && Accepted(had, entries, txs, n) && entries <= entries' && ParseM8(txs[n]).Some?
    requires forall i | |entries| <= i < |entries'| :: entries'[i].message == AcceptOf(ParseM8(txs[n]).value)
    requires HasAccept(entries', ParseM8(txs[n]).value.slot)
    ensures Accepted(had, entries', txs, m)
  {
    forall i | |entries| <= i < |entries'| ensures FromRequest(entries', i, txs, m) {
      assert ParseM8(txs[n]).Some? && entries'[i].message == AcceptOf(ParseM8(txs[n]).value);
    }
    AcceptedMore(had, entries, entries', txs, n, m);
  }

  /** Adds an accept for the request of each transaction, unless its slot has one
      already. Never fails. */
  method AcceptRequests(b: CoinbaseBuilder, txs: seq<Transaction>) returns (ok: bool)
    requires b.Valid()
    modifies b.list
    ensures b.Valid() && ok
    ensures Accepted(old(b.list.entries), b.list.entries, txs, |txs|)
  {
    ghost var had := b.list.entries;
    for n := 0 to |txs|
      invariant b.Valid() && Accepted(had, b.list.entries, txs, n)
    {
      ghost var before := b.list.entries;
      var request := ParseM8(txs[n]);
      if request.Some? {
        ok := AcceptOne(b, request.value);
        if !ok { return; }
        AcceptedOne(had, before, b.list.entries, txs, n, n + 1);
      } else {
        AcceptedMore(had, before, before, txs, n, n + 1);
      }
    }
    ok := true;
  }

  /** No two transactions of the prefix request the same slot. */
  ghost predicate OneRequestPerSlot(txs: seq<Transaction>) {
    forall i, j | 0 <= i < j < |txs| && ParseM8(txs[i]).Some? && ParseM8(txs[j]).Some? ::
      ParseM8(txs[i]).value.slot != ParseM8(txs[j]).value.slot
  }

  function SeenAs(r: BmmRequest, txid: Txid): Seen {
    Seen(r.slot, r.commitment, txid)
  }

  /** The prefix is chosen from a mempool that had all its requests seen on top
      of the parent, and leaves out what is excluded. */
  ghost predicate ChosenFrom(txid: TxidFn, parent: Bytes, seen: seq<Seen>, excluded: set<Txid>, txs: seq<Transaction>) {
    && (forall i, j | 0 <= i < j < |txs| :: txid(txs[i]) != txid(txs[j]))
    && (forall j | 0 <= j < |txs| && ParseM8(txs[j]).Some? ::
          && ParseM8(txs[j]).value.parent == parent
          && SeenAs(ParseM8(txs[j]).value, txid(txs[j])) in seen
          && txid(txs[j]) !in excluded)
  }

  /** The auction leaves one request per slot to choose from. */
  lemma AuctionSettlesSlots(txid: TxidFn, parent: Bytes, seen: seq<Seen>, fees: map<Txid, nat>, winners: map<Slot, Bid>,
                            txs: seq<Transaction>)
    requires SeenOnce(seen) && Winners(BidsOf(seen, fees), |BidsOf(seen, fees)|, winners)
    requires ChosenFrom(txid, parent, seen, Excluded(seen, winners), txs)
    ensures OneRequestPerSlot(txs)
  {
    OneBidPerSlot(seen, fees, winners);
    forall i, j | 0 <= i < j < |txs| && ParseM8(txs[i]).Some? && ParseM8(txs[j]).Some?
      ensures ParseM8(txs[i]).value.slot != ParseM8(txs[j]).value.slot
    {
      var r, r' := SeenAs(ParseM8(txs[i]).value, txid(txs[i])), SeenAs(ParseM8(txs[j]).value, txid(txs[j]));
      assert r.txid != r'.txid;
    }
  }

  lemma OnlyRequest(txs: seq<Transaction>, j: nat, k: nat)
    requires OneRequestPerSlot(txs) && j < |txs| && k < |txs| && ParseM8(txs[j]).Some? && ParseM8(txs[k]).Some?
    requires ParseM8(txs[j]).value.slot == ParseM8(txs[k]).value.slot
    ensures j == k
  {
  }

  ghost predicate AcceptedAs(entries: seq<Entry>, r: BmmRequest) {
    exists i | 0 <= i < |entries| :: entries[i].message == AcceptOf(r)
  }

  predicate AcceptsSlot(m: Message, slot: Slot) {
    m.M7BmmAccept? && m.slot == slot
  }

  ghost predicate OneAcceptPerSlot(entries: seq<Entry>) {
    forall i, j, slot | 0 <= i < |entries| && 0 <= j < |entries| ::
      AcceptsSlot(entries[i].message, slot) && AcceptsSlot(entries[j].message, slot) ==> i == j
  }

  /** Every request has an accept with its own commitment, every accept has a
      request, and no slot has two accepts. */
  ghost predicate AcceptsMatch(entries: seq<Entry>, txs: seq<Transaction>) {
    && (forall j | 0 <= j < |txs| && ParseM8(txs[j]).Some? :: AcceptedAs(entries, ParseM8(txs[j]).value))
    && (forall i | 0 <= i < |entries| && entries[i].message.M7BmmAccept? :: FromRequest(entries, i, txs, |txs|))
    && OneAcceptPerSlot(entries)
  }

  ghost predicate NoAccepts(entries: seq<Entry>) {
    forall i | 0 <= i < |entries| :: !entries[i].message.M7BmmAccept?
  }

  lemma AcceptsMatchIfOne(had: seq<Entry>, entries: seq<Entry>, txs: seq<Transaction>)
    requires Accepted(had, entries, txs, |txs|) && ClashFree(entries) && OneRequestPerSlot(txs) && NoAccepts(had)
    ensures AcceptsMatch(entries, txs)
  {
    assert forall i | 0 <= i < |had| :: entries[i] == had[i];
    forall j | 0 <= j < |txs| && ParseM8(txs[j]).Some? ensures AcceptedAs(entries, ParseM8(txs[j]).value) {
      var r := ParseM8(txs[j]).value;
      assert HasAccept(entries, r.slot);
      var i :| 0 <= i < |entries| && entries[i].message.M7BmmAccept? && entries[i].message.slot == r.slot;
      assert FromRequest(entries, i, txs, |txs|);
      var k :| 0 <= k < |txs| && ParseM8(txs[k]).Some? && entries[i].message == AcceptOf(ParseM8(txs[k]).value);
      OnlyRequest(txs, j, k);
    }
    ClashFreeAccepts(entries);
  }

  lemma ClashFreeAccepts(entries: seq<Entry>)
    requires ClashFree(entries)
    ensures OneAcceptPerSlot(entries)
  {
    forall i, j, slot | 0 <= i < |entries| && 0 <= j < |entries| && AcceptsSlot(entries[i].message, slot)
        && AcceptsSlot(entries[j].message, slot)
      ensures i == j
    {
      assert Clash(entries[i].message, entries[j].message) && Clash(entries[j].message, entries[i].message);
    }
  }

  /** After the auction and the pass over the prefix, every request in the block
      has exactly one accept, with its own commitment, and there are no others. */
  lemma AcceptsMatchRequests(txid: TxidFn, parent: Bytes, seen: seq<Seen>, fees: map<Txid, nat>,
                             winners: map<Slot, Bid>,
                             had: seq<Entry>, entries: seq<Entry>, txs: seq<Transaction>)
    requires SeenOnce(seen) && Winners(BidsOf(seen, fees), |BidsOf(seen, fees)|, winners)
    requires ChosenFrom(txid, parent, seen, Excluded(seen, winners), txs)
    requires Accepted(had, entries, txs, |txs|) && ClashFree(entries) && NoAccepts(had)
    ensures AcceptsMatch(entries, txs)
  {
    AuctionSettlesSlots(txid, parent, seen, fees, winners, txs);
    AcceptsMatchIfOne(had, entries, txs);
  }

  // ----- The validator agrees

  /** What the validator has accepted after the first `n` messages. */
  ghost predicate AcceptedIs(entries: seq<Entry>, n: nat, accepted: map<Slot, Bytes>)
    requires n <= |entries|
  {
    forall i | 0 <= i < n && entries[i].message.M7BmmAccept? ::
      entries[i].message.slot in accepted && accepted[entries[i].message.slot] == entries[i].message.commitment
  }

  lemma AcceptedStep(p: Params, previous: seq<MsgDiff>, height: nat, entries: seq<Entry>, n: nat, at: MsgProgress)
    requires n < |entries| && AcceptedIs(entries, n, at.accepted)
        && MessageStep(p, previous, height, at, entries[n].message).Ok?
    ensures AcceptedIs(entries, n + 1, MessageStep(p, previous, height, at, entries[n].message).value.accepted)
  {
  }

  lemma RunAccepts(p: Params, st: State, previous: seq<MsgDiff>, height: nat, entries: seq<Entry>)
    requires RunMessages(p, st, previous, height, entries, |entries|).Ok?
    ensures AcceptedIs(entries, |entries|, RunMessages(p, st, previous, height, entries, |entries|).value.accepted)
  {
    var step, start := MessageStepper(p, previous, height), MsgProgress(st, [], map[]);
    var inv := (n: nat, b: MsgProgress) => n <= |entries| && AcceptedIs(entries, n, b.accepted);
    forall i | 0 <= i < |entries| ensures StepKeeps(step, start, entries, inv, i) {
      if Run(step, start, entries, i).Ok? {
        var b := Run(step, start, entries, i).value;
        if inv(i, b) && step(b, entries[i]).Ok? { AcceptedStep(p, previous, height, entries, i, b); }
      }
    }
    RunKeeps(step, start, entries, |entries|, inv);
  }

  /** Every request that the auction leaves in the block is one that the validator
      accepts once it has read the finished coinbase, and none repeats a slot. */
  lemma RequestsAcceptable(p: Params, st: State, previous: seq<MsgDiff>, height: nat, parent: Bytes,
                           seen: seq<Seen>, fees: map<Txid, nat>, winners: map<Slot, Bid>,
                           had: seq<Entry>, entries: seq<Entry>, txs: seq<Transaction>)
    requires RunMessages(p, st, previous, height, entries, |entries|).Ok?
    requires SeenOnce(seen) && Winners(BidsOf(seen, fees), |BidsOf(seen, fees)|, winners)
    requires ChosenFrom(p.txid, parent, seen, Excluded(seen, winners), txs)
    requires Accepted(had, entries, txs, |txs|) && ClashFree(entries) && NoAccepts(had)
    ensures OneRequestPerSlot(txs)
    ensures forall j | 0 <= j < |txs| ::
      AcceptableM8(txs[j], RunMessages(p, st, previous, height, entries, |entries|).value.accepted, parent)
  {
    AuctionSettlesSlots(p.txid, parent, seen, fees, winners, txs);
    AcceptsMatchIfOne(had, entries, txs);
    RunAccepts(p, st, previous, height, entries);
    var accepted := RunMessages(p, st, previous, height, entries, |entries|).value.accepted;
    forall j | 0 <= j < |txs| ensures AcceptableM8(txs[j], accepted, parent) {
      if ParseM8(txs[j]).Some? {
        assert AcceptedAs(entries, ParseM8(txs[j]).value);
        var i :| 0 <= i < |entries| && entries[i].message == AcceptOf(ParseM8(txs[j]).value);
      }
    }
  }
}
