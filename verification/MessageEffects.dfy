/** What proposals, ACKs and bundle proposals do to the tables, and which
    proposals fail, with the thresholds written out. */
module MessageEffects {
  import opened Prelude
  import opened Runs
  import opened Transactions
  import opened Messages
  import opened CoinbaseList
  import opened Ledger
  import opened Validator
  import opened Accounting
  import opened Blocks

  // ----- One message

  /** An M1 queues its sidechain without a vote, unless it is queued already. */
  lemma M1Effect(p: Params, previous: seq<MsgDiff>, height: nat, at: MsgProgress, slot: Slot, description: Bytes)
    ensures var r := MessageStep(p, previous, height, at, M1ProposeSidechain(slot, description));
      var id := ProposalId(slot, p.descriptionHash(description));
      && r.Ok? && r.value.accepted == at.accepted
      && r.value.st == if id in at.st.proposals then at.st else
           at.st.(proposals := at.st.proposals[id := Sidechain(Proposal(slot, description), 0, height, None)])
  {
  }

  /** An ACK carries a proposal over its threshold, and in time: for a used slot
      the limits are those of withdrawal bundles. */
  predicate Carries(p: Params, st: State, id: ProposalId, height: nat)
    requires id in st.proposals
  {
    var sc := st.proposals[id];
    if id.slot in st.active
    then sc.votes + 1 > p.bundleThreshold && height <= sc.proposalHeight + p.bundleMaxAge
    else sc.votes + 1 > p.slotThreshold && height <= sc.proposalHeight + p.slotMaxAge
  }

  /** The sidechain that a proposal becomes. */
  function Seated(sc: Sidechain, height: nat): Sidechain {
    sc.(votes := sc.votes + 1, activationHeight := Some(height))
  }

  /** An ACK counts if its proposal is known from an earlier block. Then it puts
      the proposal into its slot exactly when it carries it, and otherwise only
      its votes grow by one. */
  lemma M2Effect(p: Params, previous: seq<MsgDiff>, height: nat, at: MsgProgress, slot: Slot, hash: Bytes)
    ensures var r := MessageStep(p, previous, height, at, M2AckSidechain(slot, hash));
      var id, st := ProposalId(slot, hash), at.st;
      && r.Ok? && r.value.accepted == at.accepted
      && r.value.st ==
        if id !in st.proposals || st.proposals[id].proposalHeight == height then st
        else if Carries(p, st, id, height) then
          State(st.proposals - {id}, st.active[slot := Seated(st.proposals[id], height)],
                if slot in st.pending then st.pending else st.pending[slot := []], st.treasury)
        else
          st.(proposals := st.proposals[id := st.proposals[id].(votes := st.proposals[id].votes + 1)])
  {
  }

  /** An M3 is accepted exactly when its sidechain is active and its bundle is not
      pending; the bundle goes behind the others, with one vote. */
  lemma M3Effect(p: Params, previous: seq<MsgDiff>, height: nat, at: MsgProgress, slot: Slot, m6id: Txid)
    requires Ledger.Valid(at.st)
    ensures var r := MessageStep(p, previous, height, at, M3ProposeBundle(slot, m6id));
      && (r.Ok? <==> slot in at.st.active && forall b | b in at.st.pending[slot] :: b.m6id != m6id)
      && (r.Ok? ==>
            && r.value.accepted == at.accepted
            && r.value.st == at.st.(pending :=
                 at.st.pending[slot := at.st.pending[slot] + [Pending(m6id, 1, height)]]))
  {
    if slot in at.st.pending {
      FindPendingFinds(at.st.pending[slot], m6id);
      assert HasId(at.st.pending[slot], m6id) <==> exists b | b in at.st.pending[slot] :: b.m6id == m6id;
    }
  }

  /** An M7 is accepted exactly when it is the first of its slot. */
  lemma M7Effect(p: Params, previous: seq<MsgDiff>, height: nat, at: MsgProgress, slot: Slot, commitment: Bytes)
    ensures var r := MessageStep(p, previous, height, at, M7BmmAccept(slot, commitment));
      && (r.Ok? <==> slot !in at.accepted)
      && (r.Ok? ==> r.value.st == at.st && r.value.accepted == at.accepted[slot := commitment])
  {
  }

  // ----- Who is active behind a block

  /** Some ACK among the first `n` messages carries a proposal of the slot that was
      there before the block. */
  ghost predicate CarriedBelow(p: Params, st: State, height: nat, entries: seq<Entry>, n: nat, s: Slot, hash: Bytes)
    requires n <= |entries|
  {
    && ProposalId(s, hash) in st.proposals && Carries(p, st, ProposalId(s, hash), height)
    && exists i | 0 <= i < n :: entries[i].message == M2AckSidechain(s, hash)
  }

  ghost predicate AckedBelow(entries: seq<Entry>, n: nat, s: Slot)
    requires n <= |entries|
  {
    exists i | 0 <= i < n :: entries[i].message.M2AckSidechain? && entries[i].message.slot == s
  }

  /** The sidechain in a slot is the one that an ACK carried, or the one that was
      there. */
  ghost predicate SeatIs(p: Params, st: State, height: nat, entries: seq<Entry>, n: nat, s: Slot,
                         active: map<Slot, Sidechain>)
    requires n <= |entries|
  {
    && (forall hash | CarriedBelow(p, st, height, entries, n, s, hash) ::
          s in active && active[s] == Seated(st.proposals[ProposalId(s, hash)], height))
    && ((forall hash :: !CarriedBelow(p, st, height, entries, n, s, hash)) ==>
          (s in active <==> s in st.active) && (s in active ==> active[s] == st.active[s]))
  }

  /** Until its slot is acked, a proposal is as it was before the block; proposals
      that were not there are of this block. */
  ghost predicate Untouched(st: State, height: nat, entries: seq<Entry>, n: nat, now: State)
    requires n <= |entries|
  {
    forall id: ProposalId | !AckedBelow(entries, n, id.slot) ::
      && (id in st.proposals ==> id in now.proposals && now.proposals[id] == st.proposals[id])
      && (id in now.proposals && id !in st.proposals ==> now.proposals[id].proposalHeight == height)
  }

  ghost predicate Seats(p: Params, st: State, height: nat, entries: seq<Entry>, n: nat, now: State) {
    n <= |entries| && Untouched(st, height, entries, n, now)
    && forall s: Slot :: SeatIs(p, st, height, entries, n, s, now.active)
  }

  lemma BelowStep(p: Params, st: State, height: nat, entries: seq<Entry>, n: nat, s: Slot, hash: Bytes)
    requires n < |entries|
    ensures AckedBelow(entries, n + 1, s) <==>
      AckedBelow(entries, n, s) || (entries[n].message.M2AckSidechain? && entries[n].message.slot == s)
    ensures CarriedBelow(p, st, height, entries, n + 1, s, hash) <==>
      || CarriedBelow(p, st, height, entries, n, s, hash)
      || (entries[n].message == M2AckSidechain(s, hash) && ProposalId(s, hash) in st.proposals
          && Carries(p, st, ProposalId(s, hash), height))
    ensures CarriedBelow(p, st, height, entries, n, s, hash) ==> AckedBelow(entries, n, s)
  {
    if entries[n].message.M2AckSidechain? && entries[n].message.slot == s { assert AckedBelow(entries, n + 1, s); }
  }

  /** A slot that this message does not ack keeps its sidechain. */
  lemma SeatStays(p: Params, st: State, height: nat, entries: seq<Entry>, n: nat, s: Slot, active: map<Slot, Sidechain>,
                  active': map<Slot, Sidechain>)
    requires n < |entries| && SeatIs(p, st, height, entries, n, s, active)
    requires !(entries[n].message.M2AckSidechain? && entries[n].message.slot == s)
    requires (s in active' <==> s in active) && (s in active ==> active'[s] == active[s])
    ensures SeatIs(p, st, height, entries, n + 1, s, active')
  {
    forall hash ensures CarriedBelow(p, st, height, entries, n + 1, s, hash)
        <==> CarriedBelow(p, st, height, entries, n, s, hash) {
      BelowStep(p, st, height, entries, n, s, hash);
    }
  }

  /** Messages that are no ACK leave the seats alone. */
  lemma NoAckStep(p: Params, st: State, height: nat, entries: seq<Entry>, n: nat, now: State, next: State)
    requires n < |entries| && Seats(p, st, height, entries, n, now) && !entries[n].message.M2AckSidechain?
    requires next.active == now.active
    requires forall id | id in now.proposals :: id in next.proposals && next.proposals[id] == now.proposals[id]
    requires forall id | id in next.proposals && id !in now.proposals :: next.proposals[id].proposalHeight == height
    ensures Seats(p, st, height, entries, n + 1, next)
  {
    var m := n + 1;
    forall s: Slot ensures SeatIs(p, st, height, entries, m, s, next.active) {
      SeatStays(p, st, height, entries, n, s, now.active, next.active);
    }
    forall s: Slot ensures AckedBelow(entries, m, s) <==> AckedBelow(entries, n, s) {
      BelowStep(p, st, height, entries, n, s, []);
    }
  }

  /** The tables after an ACK. */
  ghost predicate Acked(p: Params, now: State, id: ProposalId, height: nat, next: State) {
    if id !in now.proposals || now.proposals[id].proposalHeight == height then next == now
    else if Carries(p, now, id, height) then
      next.proposals == now.proposals - {id} && next.active == now.active[id.slot := Seated(now.proposals[id], height)]
    else
      && next.active == now.active
      && next.proposals == now.proposals[id := now.proposals[id].(votes := now.proposals[id].votes + 1)]
  }

  /** The first ACK of a slot finds the slot and its proposals as they were before
      the block. */
  lemma FirstAck(p: Params, st: State, height: nat, entries: seq<Entry>, n: nat, now: State, id: ProposalId)
    requires Seats(p, st, height, entries, n, now) && !AckedBelow(entries, n, id.slot)
    requires forall id | id in st.proposals :: st.proposals[id].proposalHeight != height
    ensures id in now.proposals && now.proposals[id].proposalHeight != height <==> id in st.proposals
    ensures id in st.proposals ==>
      now.proposals[id] == st.proposals[id] && (Carries(p, now, id, height) <==> Carries(p, st, id, height))
    ensures (id.slot in now.active <==> id.slot in st.active)
      && (id.slot in st.active ==> now.active[id.slot] == st.active[id.slot])
  {
    assert SeatIs(p, st, height, entries, n, id.slot, now.active);
    assert forall hash :: !CarriedBelow(p, st, height, entries, n, id.slot, hash);
  }

  lemma AckedSeat(p: Params, st: State, height: nat, entries: seq<Entry>, n: nat, now: State, next: State)
    requires n < |entries| && Seats(p, st, height, entries, n, now) && entries[n].message.M2AckSidechain?
    requires !AckedBelow(entries, n, entries[n].message.slot)
    requires forall id | id in st.proposals :: st.proposals[id].proposalHeight != height
    requires Acked(p, now, ProposalId(entries[n].message.slot, entries[n].message.hash), height, next)
    ensures SeatIs(p, st, height, entries, n + 1, entries[n].message.slot, next.active)
  {
    var s, hash, m := entries[n].message.slot, entries[n].message.hash, n + 1;
    FirstAck(p, st, height, entries, n, now, ProposalId(s, hash));
    forall hash' ensures CarriedBelow(p, st, height, entries, m, s, hash') <==>
        hash' == hash && ProposalId(s, hash) in st.proposals && Carries(p, st, ProposalId(s, hash), height) {
      BelowStep(p, st, height, entries, n, s, hash');
    }
    assert CarriedBelow(p, st, height, entries, m, s, hash) <==>
      ProposalId(s, hash) in st.proposals && Carries(p, st, ProposalId(s, hash), height);
    assert SeatIs(p, st, height, entries, m, s, next.active);
  }

  lemma AckStep(p: Params, st: State, height: nat, entries: seq<Entry>, n: nat, now: State, next: State)
    requires n < |entries| && Seats(p, st, height, entries, n, now) && entries[n].message.M2AckSidechain?
    requires !AckedBelow(entries, n, entries[n].message.slot)
    requires forall id | id in st.proposals :: st.proposals[id].proposalHeight != height
    requires Acked(p, now, ProposalId(entries[n].message.slot, entries[n].message.hash), height, next)
    ensures Seats(p, st, height, entries, n + 1, next)
  {
    var m, t := n + 1, entries[n].message.slot;
    AckedSeat(p, st, height, entries, n, now, next);
    forall s: Slot ensures SeatIs(p, st, height, entries, m, s, next.active) {
      if s != t { SeatStays(p, st, height, entries, n, s, now.active, next.active); }
    }
    forall s: Slot ensures AckedBelow(entries, m, s) <==> AckedBelow(entries, n, s) || s == t {
      BelowStep(p, st, height, entries, n, s, []);
    }
  }

  lemma OtherMessages(p: Params, previous: seq<MsgDiff>, height: nat, at: MsgProgress, m: Message)
    requires !m.M2AckSidechain? && MessageStep(p, previous, height, at, m).Ok?
    ensures var next := MessageStep(p, previous, height, at, m).value.st;
      && next.active == at.st.active
      && (forall id | id in at.st.proposals :: id in next.proposals && next.proposals[id] == at.st.proposals[id])
      && (forall id | id in next.proposals && id !in at.st.proposals :: next.proposals[id].proposalHeight == height)
  {
    if !m.M7BmmAccept? { HandleMessageFits(p, at.st, previous, height, m); }
  }

  lemma SeatsStep(p: Params, st: State, previous: seq<MsgDiff>, height: nat, entries: seq<Entry>, n: nat,
                  at: MsgProgress)
    requires n < |entries| && ClashFree(entries) && Seats(p, st, height, entries, n, at.st)
    requires forall id | id in st.proposals :: st.proposals[id].proposalHeight != height
    requires MessageStep(p, previous, height, at, entries[n].message).Ok?
    ensures Seats(p, st, height, entries, n + 1, MessageStep(p, previous, height, at, entries[n].message).value.st)
  {
    var m := entries[n].message;
    var next := MessageStep(p, previous, height, at, m).value.st;
    if m.M2AckSidechain? {
      forall i | 0 <= i < n ensures !Clash(entries[i].message, m) {}
      M2Effect(p, previous, height, at, m.slot, m.hash);
      AckStep(p, st, height, entries, n, at.st, next);
    } else {
      OtherMessages(p, previous, height, at, m);
      NoAckStep(p, st, height, entries, n, at.st, next);
    }
  }

  lemma SeatsStart(p: Params, st: State, height: nat, entries: seq<Entry>)
    ensures Seats(p, st, height, entries, 0, st)
  {
  }

  lemma RunSeats(p: Params, st: State, previous: seq<MsgDiff>, height: nat, entries: seq<Entry>)
    requires ClashFree(entries) && forall id | id in st.proposals :: st.proposals[id].proposalHeight != height
    ensures var r := RunMessages(p, st, previous, height, entries, |entries|);
      r.Ok? ==> Seats(p, st, height, entries, |entries|, r.value.st)
  {
    var step, start := MessageStepper(p, previous, height), MsgProgress(st, [], map[]);
    var inv := (n: nat, b: MsgProgress) => Seats(p, st, height, entries, n, b.st);
    SeatsStart(p, st, height, entries);
    forall i | 0 <= i < |entries| ensures StepKeeps(step, start, entries, inv, i) {
      if Run(step, start, entries, i).Ok? {
        var b := Run(step, start, entries, i).value;
        if inv(i, b) && step(b, entries[i]).Ok? { SeatsStep(p, st, previous, height, entries, i, b); }
      }
    }
    RunKeeps(step, start, entries, |entries|, inv);
  }

  lemma TxsKeepSeats(p: Params, st: State, accepted: map<Slot, Bytes>, parent: Bytes, txs: seq<Transaction>)
    ensures var r := RunTxs(p, st, accepted, parent, txs, |txs|);
      r.Ok? ==> r.value.st.active == st.active && r.value.st.proposals == st.proposals
  {
    var step, start := TxStepper(p, accepted, parent), TxProgress(st, [], map[], {});
    var inv := (n: nat, b: TxProgress) => b.st.active == st.active && b.st.proposals == st.proposals;
    forall i | 0 <= i < |txs| ensures StepKeeps(step, start, txs, inv, i) {
      if Run(step, start, txs, i).Ok? {
        var b := Run(step, start, txs, i).value;
        if step(b, txs[i]).Ok? { TxKeepsSeats(p, accepted, parent, b, txs[i]); }
      }
    }
    RunKeeps(step, start, txs, |txs|, inv);
  }

  lemma TxKeepsSeats(p: Params, accepted: map<Slot, Bytes>, parent: Bytes, at: TxProgress, tx: Transaction)
    requires TxStep(p, accepted, parent, at, tx).Ok?
    ensures var next := TxStep(p, accepted, parent, at, tx).value.st;
      next.active == at.st.active && next.proposals == at.st.proposals
  {
    OutcomeExplained(p, at.st, at.uncon, tx);
  }

  /** Across every block, a slot gets a new sidechain exactly when the coinbase acks
      a proposal of the slot from an earlier block and the ACK carries it; every
      other slot keeps what it had. */
  lemma ActiveExactly(p: Params, st: State, previous: seq<MsgDiff>, parent: Bytes, height: nat, block: Block, s: Slot)
    requires height >= p.activationHeight && Connect(p, st, previous, parent, height, block).Ok?
    requires forall id | id in st.proposals :: st.proposals[id].proposalHeight < height
    ensures Scan(ParseEach(block.coinbase.value)).Some?
    ensures var entries := Scan(ParseEach(block.coinbase.value)).value;
      SeatIs(p, st, height, entries, |entries|, s, Connect(p, st, previous, parent, height, block).value.st.active)
  {
    var entries := Scan(ParseEach(block.coinbase.value)).value;
    ScanFinds(ParseEach(block.coinbase.value));
    RunSeats(p, st, previous, height, entries);
    var msgs := RunMessages(p, st, previous, height, entries, |entries|).value;
    TxsKeepSeats(p, Aged(p, msgs.st, height), msgs.accepted, parent, block.txs);
    assert SeatIs(p, st, height, entries, |entries|, s, msgs.st.active);
  }

  // ----- What fails

  function MaxAge(p: Params, used: bool): nat { if used then p.bundleMaxAge else p.slotMaxAge }

  function Threshold(p: Params, used: bool): nat { if used then p.bundleThreshold else p.slotThreshold }

  /** Not even an ACK in each of the blocks it has left would carry a proposal. */
  predicate Hopeless(p: Params, used: bool, votes: nat, age: nat) {
    age > MaxAge(p, used) || votes + (MaxAge(p, used) - age) <= Threshold(p, used)
  }

  /** A proposal fails exactly when it is hopeless, but for one that never had a
      vote, which gets one more block. */
  lemma FailsWhenHopeless(p: Params, st: State, height: nat, id: ProposalId)
    requires id in st.proposals && st.proposals[id].proposalHeight <= height
    requires st.proposals[id].votes <= height - st.proposals[id].proposalHeight
    requires p.slotThreshold <= p.slotMaxAge && p.bundleThreshold <= p.bundleMaxAge
    ensures var sc := st.proposals[id];
      var used, age := sc.proposal.slot in st.active, height - sc.proposalHeight;
      id !in Aged(p, st, height).proposals <==>
        && Hopeless(p, used, sc.votes, age)
        && !(sc.votes == 0 && age == MaxAge(p, used) - Threshold(p, used))
  {
  }

  /** Such a proposal: made at height 0 and never acked, it is hopeless and still
      there when just its threshold of blocks is left. One block later it is gone,
      acked or not. */
  lemma HopelessYetThere(p: Params, slot: Slot, description: Bytes) returns (id: ProposalId, st: State)
    requires p.slotThreshold < p.slotMaxAge
    ensures id in st.proposals && st.proposals[id].proposalHeight == 0 && st.proposals[id].votes == 0
    ensures var height := p.slotMaxAge - p.slotThreshold;
      && Hopeless(p, false, 0, height) && id in Aged(p, st, height).proposals
      && forall votes: nat | votes <= 1 ::
           id !in Aged(p, st.(proposals := map[id := st.proposals[id].(votes := votes)]), height + 1).proposals
  {
    id := ProposalId(slot, p.descriptionHash(description));
    st := EMPTY.(proposals := map[id := Sidechain(Proposal(slot, description), 0, 0, None)]);
  }

  /** And what stays is as it was. */
  lemma SurvivorsStay(p: Params, st: State, height: nat, id: ProposalId)
    requires id in Aged(p, st, height).proposals
    ensures id in st.proposals && Aged(p, st, height).proposals[id] == st.proposals[id]
    ensures Aged(p, st, height).active == st.active && Aged(p, st, height).treasury == st.treasury
  {
  }

  /** A hopeless proposal cannot be carried by a later ACK, as it gains a vote a
      block at most. */
  lemma HopelessStays(p: Params, sc: Sidechain, used: bool, height: nat, later: nat, votes: nat)
    requires sc.proposalHeight <= height < later && Hopeless(p, used, sc.votes, height - sc.proposalHeight)
    requires votes <= sc.votes + (later - height)
    ensures !(votes > Threshold(p, used) && later <= sc.proposalHeight + MaxAge(p, used))
  {
  }

  /** The bundles that are not older than their maximal age, in order. */
  function Young(p: Params, q: seq<Pending>, height: nat): seq<Pending> {
    if q == [] then []
    else if q[0].proposalHeight + p.bundleMaxAge < height then Young(p, q[1..], height)
    else [q[0]] + Young(p, q[1..], height)
  }

  lemma {:induction false} SurvivingIsYoung(p: Params, q: seq<Pending>, height: nat, failed: map<nat, Pending>, i: nat)
    requires forall k | 0 <= k < |q| :: i + k in failed <==> q[k].proposalHeight + p.bundleMaxAge < height
    ensures Surviving(q, failed, i) == Young(p, q, height)
  {
    if q != [] {
      assert i + 0 in failed <==> q[0].proposalHeight + p.bundleMaxAge < height;
      forall k | 0 <= k < |q[1..]|
        ensures i + 1 + k in failed <==> q[1..][k].proposalHeight + p.bundleMaxAge < height
      {
        assert q[1..][k] == q[k + 1];
        assert i + (k + 1) in failed <==> q[k + 1].proposalHeight + p.bundleMaxAge < height;
      }
      SurvivingIsYoung(p, q[1..], height, failed, i + 1);
    }
  }

  lemma {:induction false} AllYoung(p: Params, q: seq<Pending>, height: nat)
    requires forall k | 0 <= k < |q| :: q[k].proposalHeight + p.bundleMaxAge >= height
    ensures Young(p, q, height) == q
  {
    if q != [] { AllYoung(p, q[1..], height); }
  }

  /** Exactly the bundles past their maximal age fail. */
  lemma BundlesAge(p: Params, st: State, height: nat, s: Slot)
    requires s in st.pending
    ensures s in Aged(p, st, height).pending && Aged(p, st, height).pending[s] == Young(p, st.pending[s], height)
  {
    var q, failed := st.pending[s], FailedOf(p, st.pending[s], height);
    if failed == map[] {
      forall k | 0 <= k < |q| ensures q[k].proposalHeight + p.bundleMaxAge >= height { assert k !in failed; }
      AllYoung(p, q, height);
    } else {
      SurvivingIsYoung(p, q, height, failed, 0);
    }
  }
}
