/** The M4 of a coinbase that the producer builds: it has one vote per sidechain
    that is active once the coinbase's own ACKs have taken effect, and the
    validator accepts it. */
module ProducerCoinbase {
  import opened Prelude
  import opened Runs
  import opened Messages
  import opened CoinbaseList
  import opened Ledger
  import opened Validator
  import opened Blocks
  import opened Safety
  import Votes

  // ----- ACKs that may activate an unused slot

  /** An ACK that puts a known proposal into a slot nobody occupies. */
  predicate Activates(p: Params, st: State, height: nat, m: Message) {
    && m.M2AckSidechain? && m.slot !in st.active
    && var id := ProposalId(m.slot, m.hash);
       id in st.proposals && ActivatesUnusedSlot(p, st.proposals[id].votes + 1,
           SatSub(height, st.proposals[id].proposalHeight))
  }

  predicate MayActivate(p: Params, st: State, height: nat, entries: seq<Entry>) {
    exists i | 0 <= i < |entries| :: Activates(p, st, height, entries[i].message)
  }

  /** The producer's check: gathers the ACKs for unused slots, then looks through
      the known proposals in whatever order they come. */
  method M2sMayActivateUnusedSlot(p: Params, st: State, height: nat, entries: seq<Entry>) returns (r: bool)
    ensures r == MayActivate(p, st, height, entries)
  {
    var acks: set<ProposalId> := {};
    for i := 0 to |entries|
      invariant forall id :: id in acks <==> AckedBelow(st, entries, i, id)
    {
      var m := entries[i].message;
      if m.M2AckSidechain? && m.slot !in st.active {
        acks := acks + {ProposalId(m.slot, m.hash)};
      }
    }
    var todo := st.proposals.Keys;
    while todo != {}
      invariant todo <= st.proposals.Keys
      invariant forall id | id in st.proposals && id !in todo :: !(id in acks && ActivatesId(p, st, height, id))
    {
      var id :| id in todo;
      if id in acks && ActivatesId(p, st, height, id) {
        var i :| 0 <= i < |entries| && Acks(st, entries[i].message, id);
        assert Activates(p, st, height, entries[i].message);
        return true;
      }
      todo := todo - {id};
    }
    forall i | 0 <= i < |entries| ensures !Activates(p, st, height, entries[i].message) {
      var m := entries[i].message;
      if m.M2AckSidechain? && m.slot !in st.active {
        var id := ProposalId(m.slot, m.hash);
        assert Acks(st, m, id) && id in acks;
      }
    }
    r := false;
  }

  predicate ActivatesId(p: Params, st: State, height: nat, id: ProposalId)
    requires id in st.proposals
  {
    ActivatesUnusedSlot(p, st.proposals[id].votes + 1, SatSub(height, st.proposals[id].proposalHeight))
  }

  predicate Acks(st: State, m: Message, id: ProposalId) {
    m.M2AckSidechain? && m.slot !in st.active && id == ProposalId(m.slot, m.hash)
  }

  predicate AckedBelow(st: State, entries: seq<Entry>, n: nat, id: ProposalId)
    requires n <= |entries|
  {
    exists i | 0 <= i < n :: Acks(st, entries[i].message, id)
  }

  // ----- What the coinbase messages do to the active set

  ghost predicate ActivatedBelow(p: Params, st: State, height: nat, entries: seq<Entry>, n: nat, slot: Slot)
    requires n <= |entries|
  {
    exists i | 0 <= i < n :: Activates(p, st, height, entries[i].message) && entries[i].message.slot == slot
  }

  /** Proposals known before the block are untouched until their slot is acked;
      those this block makes cannot be acked in it. */
  ghost predicate ProposalsKept(st: State, height: nat, entries: seq<Entry>, n: nat, now: State)
    requires n <= |entries|
  {
    && (forall id | id in st.proposals && !SeenM2(entries, n, id.slot) ::
        id in now.proposals && now.proposals[id] == st.proposals[id])
    && (forall id | id in now.proposals && id !in st.proposals && !SeenM2(entries, n, id.slot) ::
        now.proposals[id].proposalHeight == height)
  }

  /** The active slots are those from before and those activated since. */
  ghost predicate ActiveIs(p: Params, st: State, height: nat, entries: seq<Entry>, n: nat, now: State)
    requires n <= |entries|
  {
    forall s: Slot :: s in now.active <==> s in st.active || ActivatedBelow(p, st, height, entries, n, s)
  }

  /** Bundles keep their positions. */
  ghost predicate PositionsKept(st: State, now: State) {
    forall s | s in st.pending :: s in now.pending && SameIds(st.pending[s], now.pending[s])
  }

  ghost predicate SameIds(a: seq<Pending>, b: seq<Pending>) {
    |a| <= |b| && forall i | 0 <= i < |a| :: a[i].m6id == b[i].m6id
  }

  /** What holds after the first `n` messages. */
  ghost predicate Tracks(p: Params, st: State, height: nat, entries: seq<Entry>, n: nat, now: State) {
    && n <= |entries| && Valid(now)
    && ProposalsKept(st, height, entries, n, now) && ActiveIs(p, st, height, entries, n, now) && PositionsKept(st, now)
  }

  lemma SeenM2Step(entries: seq<Entry>, n: nat, slot: Slot)
    requires n < |entries|
    ensures SeenM2(entries, n + 1, slot) <==>
        SeenM2(entries, n, slot) || (entries[n].message.M2AckSidechain? && entries[n].message.slot == slot)
  {
    if entries[n].message.M2AckSidechain? && entries[n].message.slot == slot { assert SeenM2(entries, n + 1, slot); }
  }

  lemma ActivatedStep(p: Params, st: State, height: nat, entries: seq<Entry>, n: nat, slot: Slot)
    requires n < |entries|
    ensures ActivatedBelow(p, st, height, entries, n + 1, slot) <==>
      ActivatedBelow(p, st, height, entries, n, slot)
          || (Activates(p, st, height, entries[n].message) && entries[n].message.slot == slot)
  {
    if Activates(p, st, height, entries[n].message) && entries[n].message.slot == slot {
      assert ActivatedBelow(p, st, height, entries, n + 1, slot);
    }
  }

  lemma ActivatedSeen(p: Params, st: State, height: nat, entries: seq<Entry>, n: nat, slot: Slot)
    requires n <= |entries| && !SeenM2(entries, n, slot)
    ensures !ActivatedBelow(p, st, height, entries, n, slot)
  {
  }

  /** A message that changes neither proposals nor the active set. */
  lemma TracksStill(p: Params, st: State, height: nat, entries: seq<Entry>, n: nat, now: State, next: State)
    requires n < |entries| && Tracks(p, st, height, entries, n, now) && Valid(next) && PositionsKept(st, next)
    requires next.active == now.active && next.proposals == now.proposals
    requires !Activates(p, st, height, entries[n].message)
    ensures Tracks(p, st, height, entries, n + 1, next)
  {
    forall s: Slot ensures SeenM2(entries, n, s) ==> SeenM2(entries, n + 1, s) { SeenM2Step(entries, n, s); }
    forall s: Slot ensures s in next.active <==> s in st.active || ActivatedBelow(p, st, height, entries, n + 1, s) {
      ActivatedStep(p, st, height, entries, n, s);
    }
  }

  lemma VoteKeepsIds(a: AckAction, pending: seq<Pending>)
    ensures SameIds(pending, Vote(a, pending))
  {
  }

  lemma PositionsThen(st: State, now: State, next: State)
    requires PositionsKept(st, now) && PositionsKept(now, next)
    ensures PositionsKept(st, next)
  {
    forall s | s in st.pending ensures s in next.pending && SameIds(st.pending[s], next.pending[s]) {
      assert SameIds(st.pending[s], now.pending[s]) && SameIds(now.pending[s], next.pending[s]);
    }
  }

  lemma ApplyKeepsPositions(d: MsgDiff, now: State, height: nat)
    requires FitsMsg(d, now)
    ensures PositionsKept(now, ApplyMsg(d, now, height))
  {
    if d.AckBundles? {
      forall s | s in d.actions ensures SameIds(now.pending[s], Vote(d.actions[s], now.pending[s])) {
        VoteKeepsIds(d.actions[s], now.pending[s]);
      }
    }
  }

  lemma TracksNewProposal(p: Params, st: State, height: nat, entries: seq<Entry>, n: nat, now: State, d: MsgDiff)
    requires n < |entries| && Tracks(p, st, height, entries, n, now) && !entries[n].message.M2AckSidechain?
    requires d.NewProposal? && FitsMsg(d, now) && d.sidechain.proposalHeight == height
    ensures Tracks(p, st, height, entries, n + 1, ApplyMsg(d, now, height))
  {
    var next := ApplyMsg(d, now, height);
    ApplyMsgValid(d, now, height);
    forall s: Slot ensures SeenM2(entries, n, s) <==> SeenM2(entries, n + 1, s) { SeenM2Step(entries, n, s); }
    forall s: Slot ensures s in next.active <==> s in st.active || ActivatedBelow(p, st, height, entries, n + 1, s) {
      ActivatedStep(p, st, height, entries, n, s);
    }
  }

  /** The first ACK of a slot sees the slot and its proposals as they were. */
  lemma FirstAckSees(p: Params, st: State, height: nat, entries: seq<Entry>, n: nat, now: State)
    requires n < |entries| && Tracks(p, st, height, entries, n, now) && entries[n].message.M2AckSidechain?
    requires !SeenM2(entries, n, entries[n].message.slot)
        && (forall id | id in st.proposals :: st.proposals[id].proposalHeight != height)
    ensures var m := entries[n].message;
      var d := HandleM2(p, now, m.slot, m.hash, height);
      && (m.slot in now.active <==> m.slot in st.active)
      && (Activates(p, st, height, m) <==> d.Some? && d.value.effect.SlotActivation?)
      && (d.Some? ==> d.value.AckProposal? && d.value.id == ProposalId(m.slot, m.hash))
      && (d.Some? && d.value.effect.ReplaceActive? ==> m.slot in now.active)
  {
    ActivatedSeen(p, st, height, entries, n, entries[n].message.slot);
  }

  lemma TracksAck(p: Params, st: State, height: nat, entries: seq<Entry>, n: nat, now: State, d: MsgDiff)
    requires n < |entries| && Tracks(p, st, height, entries, n, now) && entries[n].message.M2AckSidechain?
    requires d.AckProposal? && FitsMsg(d, now) && d.id.slot == entries[n].message.slot
    requires Activates(p, st, height, entries[n].message) <==> d.effect.SlotActivation?
    ensures Tracks(p, st, height, entries, n + 1, ApplyMsg(d, now, height))
  {
    var next := ApplyMsg(d, now, height);
    ApplyMsgValid(d, now, height);
    ApplyKeepsPositions(d, now, height);
    PositionsThen(st, now, next);
    forall s: Slot ensures SeenM2(entries, n + 1, s)
        <==> SeenM2(entries, n, s) || s == d.id.slot { SeenM2Step(entries, n, s); }
    forall s: Slot ensures s in next.active <==> s in st.active || ActivatedBelow(p, st, height, entries, n + 1, s) {
      ActivatedStep(p, st, height, entries, n, s);
    }
  }

  lemma TracksStep(p: Params, st: State, previous: seq<MsgDiff>, height: nat, entries: seq<Entry>, n: nat,
                   at: MsgProgress)
    requires n < |entries| && ClashFree(entries) && Tracks(p, st, height, entries, n, at.st)
    requires forall id | id in st.proposals :: st.proposals[id].proposalHeight != height
    requires MessageStep(p, previous, height, at, entries[n].message).Ok?
    ensures Tracks(p, st, height, entries, n + 1, MessageStep(p, previous, height, at, entries[n].message).value.st)
  {
    var m := entries[n].message;
    ClashFreeUnseen(entries, n);
    if m.M2AckSidechain? {
      TracksM2(p, st, previous, height, entries, n, at);
    } else if m.M1ProposeSidechain? {
      TracksM1(p, st, previous, height, entries, n, at);
    } else {
      TracksOther(p, st, previous, height, entries, n, at);
    }
  }

  lemma TracksM1(p: Params, st: State, previous: seq<MsgDiff>, height: nat, entries: seq<Entry>, n: nat,
                 at: MsgProgress)
    requires n < |entries| && Tracks(p, st, height, entries, n, at.st) && entries[n].message.M1ProposeSidechain?
    requires MessageStep(p, previous, height, at, entries[n].message).Ok?
    ensures Tracks(p, st, height, entries, n + 1, MessageStep(p, previous, height, at, entries[n].message).value.st)
  {
    var m := entries[n].message;
    var d := HandleM1(p, at.st, m.slot, m.description, height);
    if d.None? {
      TracksStill(p, st, height, entries, n, at.st, at.st);
    } else {
      HandleMessageFits(p, at.st, previous, height, m);
      TracksNewProposal(p, st, height, entries, n, at.st, d.value);
    }
  }

  lemma TracksChange(p: Params, st: State, height: nat, entries: seq<Entry>, n: nat, now: State, d: MsgDiff)
    requires n < |entries| && Tracks(p, st, height, entries, n, now) && !entries[n].message.M2AckSidechain?
    requires FitsMsg(d, now) && !d.NewProposal? && !d.AckProposal?
    ensures Tracks(p, st, height, entries, n + 1, ApplyMsg(d, now, height))
  {
    ApplyKeepsPositions(d, now, height);
    PositionsThen(st, now, ApplyMsg(d, now, height));
    ApplyMsgValid(d, now, height);
    TracksStill(p, st, height, entries, n, now, ApplyMsg(d, now, height));
  }

  lemma OtherDiff(p: Params, now: State, previous: seq<MsgDiff>, height: nat, m: Message, d: MsgDiff)
    requires !m.M1ProposeSidechain? && !m.M2AckSidechain?
    requires HandleMessage(p, now, previous, height, m) == Ok(Some(d))
    ensures FitsMsg(d, now) && !d.NewProposal? && !d.AckProposal?
  {
    HandleMessageFits(p, now, previous, height, m);
  }

  lemma TracksOther(p: Params, st: State, previous: seq<MsgDiff>, height: nat, entries: seq<Entry>, n: nat,
                    at: MsgProgress)
    requires n < |entries| && Tracks(p, st, height, entries, n, at.st)
    requires !entries[n].message.M1ProposeSidechain? && !entries[n].message.M2AckSidechain?
    requires MessageStep(p, previous, height, at, entries[n].message).Ok?
    ensures Tracks(p, st, height, entries, n + 1, MessageStep(p, previous, height, at, entries[n].message).value.st)
  {
    var m := entries[n].message;
    if m.M7BmmAccept? || HandleMessage(p, at.st, previous, height, m).value.None? {
      TracksStill(p, st, height, entries, n, at.st, at.st);
    } else {
      var d := HandleMessage(p, at.st, previous, height, m).value.value;
      OtherDiff(p, at.st, previous, height, m, d);
      TracksChange(p, st, height, entries, n, at.st, d);
    }
  }

  lemma TracksM2(p: Params, st: State, previous: seq<MsgDiff>, height: nat, entries: seq<Entry>, n: nat,
                 at: MsgProgress)
    requires n < |entries| && Tracks(p, st, height, entries, n, at.st) && entries[n].message.M2AckSidechain?
    requires !SeenM2(entries, n, entries[n].message.slot)
    requires forall id | id in st.proposals :: st.proposals[id].proposalHeight != height
    requires MessageStep(p, previous, height, at, entries[n].message).Ok?
    ensures Tracks(p, st, height, entries, n + 1, MessageStep(p, previous, height, at, entries[n].message).value.st)
  {
    var m := entries[n].message;
    FirstAckSees(p, st, height, entries, n, at.st);
    var d := HandleM2(p, at.st, m.slot, m.hash, height);
    if d.None? {
      TracksStill(p, st, height, entries, n, at.st, at.st);
    } else {
      HandleMessageFits(p, at.st, previous, height, m);
      TracksAck(p, st, height, entries, n, at.st, d.value);
    }
  }

  lemma TracksStart(p: Params, st: State, height: nat, entries: seq<Entry>)
    requires Valid(st)
    ensures Tracks(p, st, height, entries, 0, st)
  {
  }

  lemma RunTracks(p: Params, st: State, previous: seq<MsgDiff>, height: nat, entries: seq<Entry>)
    requires Valid(st) && ClashFree(entries) && RunMessages(p, st, previous, height, entries, |entries|).Ok?
    requires forall id | id in st.proposals :: st.proposals[id].proposalHeight != height
    ensures Tracks(p, st, height, entries, |entries|, RunMessages(p, st, previous, height, entries, |entries|).value.st)
  {
    var step, start := MessageStepper(p, previous, height), MsgProgress(st, [], map[]);
    var inv := (n: nat, b: MsgProgress) => Tracks(p, st, height, entries, n, b.st);
    TracksStart(p, st, height, entries);
    forall i | 0 <= i < |entries| ensures StepKeeps(step, start, entries, inv, i) {
      if Run(step, start, entries, i).Ok? {
        var b := Run(step, start, entries, i).value;
        if inv(i, b) && step(b, entries[i]).Ok? { TracksStep(p, st, previous, height, entries, i, b); }
      }
    }
    RunKeeps(step, start, entries, |entries|, inv);
  }

  /** The check is exact: a coinbase's messages leave the set of active slots as
      it is exactly when none of its ACKs may activate an unused slot. */
  lemma CheckIsExact(p: Params, st: State, previous: seq<MsgDiff>, height: nat, entries: seq<Entry>)
    requires Valid(st) && ClashFree(entries) && RunMessages(p, st, previous, height, entries, |entries|).Ok?
    requires forall id | id in st.proposals :: st.proposals[id].proposalHeight != height
    ensures RunMessages(p, st, previous, height, entries, |entries|).value.st.active.Keys == st.active.Keys
       <==> !MayActivate(p, st, height, entries)
  {
    RunTracks(p, st, previous, height, entries);
    var now := RunMessages(p, st, previous, height, entries, |entries|).value.st;
    if MayActivate(p, st, height, entries) {
      var i :| 0 <= i < |entries| && Activates(p, st, height, entries[i].message);
      var s := entries[i].message.slot;
      assert ActivatedBelow(p, st, height, entries, |entries|, s);
      assert s in now.active.Keys && s !in st.active.Keys;
    } else {
      forall s: Slot ensures s in now.active.Keys <==> s in st.active.Keys {
        assert !ActivatedBelow(p, st, height, entries, |entries|, s);
      }
    }
  }

  // ----- The M4

  function Ids(pending: seq<Pending>): seq<Bytes> {
    seq(|pending|, i requires 0 <= i < |pending| => pending[i].m6id)
  }

  /** One view per active sidechain, in the order the validator reads votes. */
  ghost predicate ViewsOf(st: State, views: seq<Votes.View>) {
    && st.pending.Keys == st.active.Keys && |views| == |ActiveSlots(st)|
    && forall i | 0 <= i < |views| :: ActiveSlots(st)[i] in st.pending
        && views[i].pending == Ids(st.pending[ActiveSlots(st)[i]])
  }

  lemma {:induction false} VotesAccepted(now: State, slots: seq<Slot>, codes: seq<U16>, n: nat)
    requires n <= |slots| == |codes|
    requires forall i | 0 <= i < |codes| :: slots[i] in now.pending && VoteAction(now.pending[slots[i]], codes[i]).Ok?
    ensures VoteActions(now, slots, codes, n).Ok?
  {
    if n > 0 { VotesAccepted(now, slots, codes, n - 1); }
  }

  /** A vote for a bundle that was pending before the block is a valid one after
      the coinbase's own messages. */
  lemma VoteStillValid(policy: Votes.Policy, view: Votes.View, before: seq<Pending>, now: seq<Pending>,
                       vote: Votes.Vote)
    requires view.pending == Ids(before) && |before| < 0xFFFE && SameIds(before, now)
    requires vote == Votes.Resolve(policy, view.pending, view.acked, view.ours)
    ensures VoteAction(now, Votes.TwoByteCode(vote)).Ok?
  {
    Votes.ResolveBacks(policy, view.pending, view.acked, view.ours, vote);
  }

  lemma MoreActive(a: set<Slot>, b: set<Slot>)
    requires a <= b && a != b
    ensures |a| < |b|
  {
    var s :| s in b && s !in a;
    assert a <= b - {s};
    SubsetSize(a, b - {s});
  }

  lemma {:induction false} SubsetSize(a: set<Slot>, b: set<Slot>)
    requires a <= b
    ensures |a| <= |b|
  {
    if a != {} {
      var s :| s in a;
      SubsetSize(a - {s}, b - {s});
    }
  }

  lemma ActiveGrows(p: Params, st: State, previous: seq<MsgDiff>, height: nat, entries: seq<Entry>)
    requires Valid(st) && ClashFree(entries) && RunMessages(p, st, previous, height, entries, |entries|).Ok?
    requires forall id | id in st.proposals :: st.proposals[id].proposalHeight != height
    ensures var now := RunMessages(p, st, previous, height, entries, |entries|).value.st;
      && st.active.Keys <= now.active.Keys
      && (|ActiveSlots(now)| == |ActiveSlots(st)| <==> !MayActivate(p, st, height, entries))
      && (!MayActivate(p, st, height, entries) ==> ActiveSlots(now) == ActiveSlots(st))
  {
    RunTracks(p, st, previous, height, entries);
    CheckIsExact(p, st, previous, height, entries);
    var now := RunMessages(p, st, previous, height, entries, |entries|).value.st;
    forall s: Slot | s in st.active.Keys ensures s in now.active.Keys {}
    ActiveSlotCount(st);
    ActiveSlotCount(now);
    if now.active.Keys != st.active.Keys { MoreActive(st.active.Keys, now.active.Keys); }
  }

  lemma VotesStillValid(policy: Votes.Policy, st: State, now: State, views: seq<Votes.View>)
    requires ViewsOf(st, views) && PositionsKept(st, now)
    requires forall i | 0 <= i < |views| :: |views[i].pending| < 0xFFFE
    ensures var codes := Votes.Codes(Votes.FromVotes(Votes.ChooseVotes(policy, views)));
      && |codes| == |views|
      && forall i | 0 <= i < |codes| :: ActiveSlots(st)[i] in now.pending
          && VoteAction(now.pending[ActiveSlots(st)[i]], codes[i]).Ok?
  {
    var votes := Votes.ChooseVotes(policy, views);
    var codes := Votes.Codes(Votes.FromVotes(votes));
    forall i | 0 <= i < |codes| ensures ActiveSlots(st)[i] in now.pending
        && VoteAction(now.pending[ActiveSlots(st)[i]], codes[i]).Ok? {
      var slot := ActiveSlots(st)[i];
      Votes.CodeOfFromVotes(votes, i);
      assert SameIds(st.pending[slot], now.pending[slot]);
      VoteStillValid(policy, views[i], st.pending[slot], now.pending[slot], votes[i]);
    }
  }

  /** The M4 that the producer would append is accepted exactly when the check
      lets it through: then it has one vote per sidechain that is active behind
      the other messages, and every upvote names a pending bundle; otherwise it
      has too few votes. */
  lemma M4AcceptedExactly(p: Params, st: State, previous: seq<MsgDiff>, height: nat, entries: seq<Entry>,
                          policy: Votes.Policy, views: seq<Votes.View>)
    requires Valid(st) && ClashFree(entries) && RunMessages(p, st, previous, height, entries, |entries|).Ok?
    requires forall id | id in st.proposals :: st.proposals[id].proposalHeight != height
    requires ViewsOf(st, views) && forall i | 0 <= i < |views| :: |views[i].pending| < 0xFFFE
    ensures var now := RunMessages(p, st, previous, height, entries, |entries|).value.st;
      var m4 := Votes.FromVotes(Votes.ChooseVotes(policy, views));
      && (HandleM4(now, previous, m4).Ok? <==> !MayActivate(p, st, height, entries))
      && (|Votes.Codes(m4)| == |now.active| <==> !MayActivate(p, st, height, entries))
  {
    var now := RunMessages(p, st, previous, height, entries, |entries|).value.st;
    RunTracks(p, st, previous, height, entries);
    ActiveGrows(p, st, previous, height, entries);
    ActiveSlotCount(now);
    OneVoteEach(policy, views);
    if MayActivate(p, st, height, entries) {
      WrongCountRefused(now, previous, policy, views);
    } else {
      M4Accepted(st, now, previous, policy, views);
    }
  }

  lemma OneVoteEach(policy: Votes.Policy, views: seq<Votes.View>)
    ensures |Votes.Codes(Votes.FromVotes(Votes.ChooseVotes(policy, views)))| == |views|
  {
  }

  lemma WrongCountRefused(now: State, previous: seq<MsgDiff>, policy: Votes.Policy, views: seq<Votes.View>)
    requires |views| != |ActiveSlots(now)|
    ensures HandleM4(now, previous, Votes.FromVotes(Votes.ChooseVotes(policy, views))).Err?
  {
    OneVoteEach(policy, views);
  }

  lemma M4Accepted(st: State, now: State, previous: seq<MsgDiff>, policy: Votes.Policy, views: seq<Votes.View>)
    requires ViewsOf(st, views) && PositionsKept(st, now) && ActiveSlots(now) == ActiveSlots(st)
    requires forall i | 0 <= i < |views| :: |views[i].pending| < 0xFFFE
    ensures HandleM4(now, previous, Votes.FromVotes(Votes.ChooseVotes(policy, views))).Ok?
  {
    var votes := Votes.ChooseVotes(policy, views);
    VotesStillValid(policy, st, now, views);
    Votes.WideOnlyWhenNeeded(votes);
    VotesAccepted(now, ActiveSlots(now), Votes.Codes(Votes.FromVotes(votes)), |votes|);
  }
}
