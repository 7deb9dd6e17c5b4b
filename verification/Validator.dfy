/** The validator's rules for coinbase messages (M1 to M4 and M7): each handler
    reads the tables and returns the diff that the message makes. */
module Validator {
  import opened Prelude
  import opened Transactions
  import opened Messages
  import opened Ledger
  import Votes

  datatype Params = Params(
    txid: TxidFn,
    descriptionHash: Bytes -> Bytes,
    op: Byte,
    bundleMaxAge: nat,
    bundleThreshold: nat,
    slotMaxAge: nat,
    slotThreshold: nat,
    activationHeight: nat)

  /** Why a block is rejected. */
  datatype Reject =
    | NoCoinbase
    | DuplicateMessage
    | InactiveSidechain
    | BundleAlreadyPending
    | InvalidVotes
    | UpvoteFailed
    | TwoBytesWithinByteRange
    | MissingPending
    | BadTreasuryTx
    | BadBmmRequest
    | MultipleBmmRequests
    | UnconsolidatedCtip

  /** A proposal with this many ACKs, this many blocks after its M1, activates in
      a slot that no sidechain occupies. */
  predicate ActivatesUnusedSlot(p: Params, votes: nat, age: nat) {
    votes > p.slotThreshold && age <= p.slotMaxAge
  }

  predicate ReplacesUsedSlot(p: Params, votes: nat, age: nat) {
    votes > p.bundleThreshold && age <= p.bundleMaxAge
  }

  // ----- M1, M2 and M3

  function HandleM1(p: Params, st: State, slot: Slot, description: Bytes, height: nat): Option<MsgDiff> {
    var id := ProposalId(slot, p.descriptionHash(description));
    if id in st.proposals then None
    else Some(NewProposal(id, Sidechain(Proposal(slot, description), 0, height, None)))
  }

  /** An ACK of an unknown proposal, or of one made in this very block, is
      ignored. */
  function HandleM2(p: Params, st: State, slot: Slot, hash: Bytes, height: nat): Option<MsgDiff> {
    var id := ProposalId(slot, hash);
    if id !in st.proposals || st.proposals[id].proposalHeight == height then None else
    var votes := st.proposals[id].votes + 1;
    var age := SatSub(height, st.proposals[id].proposalHeight);
    Some(AckProposal(id,
      if slot in st.active then
        if ReplacesUsedSlot(p, votes, age) then ReplaceActive(st.active[slot]) else NoActivation
      else
        if ActivatesUnusedSlot(p, votes, age) then SlotActivation else NoActivation))
  }

  function HandleM3(st: State, slot: Slot, m6id: Txid): Result<MsgDiff, Reject> {
    if slot !in st.active then Err(InactiveSidechain)
    else if slot !in st.pending then Err(MissingPending)
    else if FindPending(st.pending[slot], m6id).Some? then Err(BundleAlreadyPending)
    else Ok(ProposeBundle(slot, m6id))
  }

  /** The position of a pending bundle. */
  function FindPending(pending: seq<Pending>, m6id: Txid): Option<nat> {
    if pending == [] then None
    else if pending[0].m6id == m6id then Some(0)
    else match FindPending(pending[1..], m6id) case None => None case Some(i) => Some(i + 1)
  }

  lemma {:induction false} FindPendingFinds(pending: seq<Pending>, m6id: Txid)
    ensures match FindPending(pending, m6id)
      case Some(i) => i < |pending| && pending[i].m6id == m6id
      case None => !HasId(pending, m6id)
  {
    if pending != [] && pending[0].m6id != m6id {
      FindPendingFinds(pending[1..], m6id);
      if FindPending(pending, m6id).None? {
        forall i | 0 <= i < |pending| ensures pending[i].m6id != m6id {
          assert i > 0 ==> pending[i] == pending[1..][i - 1];
        }
      }
    }
  }

  // ----- M4

  /** The slots of a set in ascending order, from `lo` on. */
  function SlotsFrom(slots: set<Slot>, lo: nat): seq<Slot>
    requires lo <= 256
    decreases 256 - lo
  {
    if lo == 256 then []
    else (if lo in slots then [lo] else []) + SlotsFrom(slots, lo + 1)
  }

  /** The order in which an M4 lists its votes. */
  function ActiveSlots(st: State): seq<Slot> {
    SlotsFrom(st.active.Keys, 0)
  }

  function UpvoteOf(pending: seq<Pending>, i: nat): Option<AckAction>
    requires i < |pending|
  {
    if pending[i].votes < U16_MAX
    then Some(Upvote(pending[i].m6id, PositiveIds(pending) - {pending[i].m6id}))
    else None
  }

  function AlarmOf(pending: seq<Pending>): Option<AckAction> {
    if PositiveIds(pending) == {} then None else Some(Alarm(PositiveIds(pending)))
  }

  /** What one vote does to the bundles of its sidechain. */
  function VoteAction(pending: seq<Pending>, code: U16): Result<Option<AckAction>, Reject> {
    match Votes.VoteOfCode(code)
    case Abstain => Ok(None)
    case Alarm => Ok(AlarmOf(pending))
    case Upvote(index) => if index < |pending| then Ok(UpvoteOf(pending, index)) else Err(UpvoteFailed)
  }

  /** The actions of the first `n` votes. */
  function VoteActions(st: State, slots: seq<Slot>, codes: seq<U16>, n: nat): Result<map<Slot, AckAction>, Reject>
    requires n <= |slots| == |codes|
  {
    if n == 0 then Ok(map[]) else
    var actions :- VoteActions(st, slots, codes, n - 1);
    var slot := slots[n - 1];
    if Votes.VoteOfCode(codes[n - 1]).Abstain? then Ok(actions)
    else if slot !in st.pending then Err(MissingPending) else
    var action :- VoteAction(st.pending[slot], codes[n - 1]);
    match action
    case None => Ok(actions)
    case Some(a) => Ok(actions[slot := a])
  }

  function HandleCodes(st: State, codes: seq<U16>): Result<map<Slot, AckAction>, Reject> {
    var slots := ActiveSlots(st);
    if |codes| != |slots| then Err(InvalidVotes) else VoteActions(st, slots, codes, |codes|)
  }

  const LEADING_MARGIN: nat := 50

  /** Bundle `i` is ahead of every rival, and of zero, by the margin. */
  predicate Leads(pending: seq<Pending>, i: nat)
    requires i < |pending|
  {
    && pending[i].votes >= LEADING_MARGIN
    && forall j | 0 <= j < |pending| && j != i :: pending[i].votes >= pending[j].votes + LEADING_MARGIN
  }

  function LeaderBelow(pending: seq<Pending>, n: nat): Option<nat>
    requires n <= |pending|
  {
    if n == 0 then None else if Leads(pending, n - 1) then Some(n - 1) else LeaderBelow(pending, n - 1)
  }

  function LeadingAction(pending: seq<Pending>): Option<AckAction>
    ensures LeadingAction(pending).Some? ==> LeadingAction(pending).value.Upvote?
  {
    LeaderBelowFinds(pending, |pending|);
    match LeaderBelow(pending, |pending|)
    case None => None
    case Some(i) => UpvoteOf(pending, i)
  }

  lemma {:induction false} LeaderBelowFinds(pending: seq<Pending>, n: nat)
    requires n <= |pending|
    ensures match LeaderBelow(pending, n)
      case Some(i) => i < n && Leads(pending, i)
      case None => forall i | 0 <= i < n :: !Leads(pending, i)
  {
    if n > 0 { LeaderBelowFinds(pending, n - 1); }
  }

  function LeadingActions(st: State): map<Slot, AckAction> {
    map s | s in st.pending && LeadingAction(st.pending[s]).Some? :: LeadingAction(st.pending[s]).value
  }

  /** The votes of the previous block's M4, if it had any effect. */
  function PreviousActions(msgs: seq<MsgDiff>): map<Slot, AckAction> {
    if msgs == [] then map[]
    else if msgs[0].AckBundles? then msgs[0].actions
    else PreviousActions(msgs[1..])
  }

  /** The same vote again, worked out against the bundles as they are now. */
  function RepeatAction(a: AckAction, pending: seq<Pending>): Option<AckAction> {
    match a
    case Alarm(_) => AlarmOf(pending)
    case Upvote(m6id, _) =>
      FindPendingFinds(pending, m6id);
      match FindPending(pending, m6id)
      case None => None
      case Some(i) => UpvoteOf(pending, i)
  }

  function RepeatActions(st: State, previous: map<Slot, AckAction>): Result<map<Slot, AckAction>, Reject> {
    if exists s | s in previous :: s !in st.pending then Err(MissingPending)
    else Ok(map s | s in previous && RepeatAction(previous[s], st.pending[s]).Some? ::
              RepeatAction(previous[s], st.pending[s]).value)
  }

  function HandleM4(st: State, previous: seq<MsgDiff>, m4: M4AckBundles): Result<map<Slot, AckAction>, Reject> {
    match m4
    case LeadingBy50 => Ok(LeadingActions(st))
    case RepeatPrevious => RepeatActions(st, PreviousActions(previous))
    case OneByte(_) => HandleCodes(st, Votes.Codes(m4))
    case TwoBytes(codes) =>
      if forall i | 0 <= i < |codes| :: codes[i] <= 253 then Err(TwoBytesWithinByteRange)
      else HandleCodes(st, codes)
  }

  /** The diff of one coinbase message, if it makes any. An M7 makes none. */
  function HandleMessage(p: Params, st: State, previous: seq<MsgDiff>, height: nat, m: Message)
    : Result<Option<MsgDiff>, Reject> {
    match m
    case M1ProposeSidechain(slot, description) => Ok(HandleM1(p, st, slot, description, height))
    case M2AckSidechain(slot, hash) => Ok(HandleM2(p, st, slot, hash, height))
    case M3ProposeBundle(slot, m6id) =>
      var d :- HandleM3(st, slot, m6id);
      Ok(Some(d))
    case M4(votes) =>
      var actions :- HandleM4(st, previous, votes);
      Ok(if actions == map[] then None else Some(AckBundles(actions)))
    case M7BmmAccept(_, _) => Ok(None)
  }

  // ----- Failures by age

  predicate ProposalFails(p: Params, st: State, sidechain: Sidechain, height: nat) {
    var age := SatSub(height, sidechain.proposalHeight);
    var used := sidechain.proposal.slot in st.active;
    var maxAge := if used then p.bundleMaxAge else p.slotMaxAge;
    var threshold := if used then p.bundleThreshold else p.slotThreshold;
    var maxFails := SatSub(maxAge, threshold);
    age > maxAge || (age > maxFails && SatSub(age, sidechain.votes) >= maxFails)
  }

  function FailedProposals(p: Params, st: State, height: nat): map<ProposalId, Sidechain> {
    map id | id in st.proposals && ProposalFails(p, st, st.proposals[id], height) :: st.proposals[id]
  }

  predicate BundleFails(p: Params, b: Pending, height: nat) {
    SatSub(height, b.proposalHeight) > p.bundleMaxAge
  }

  function FailedOf(p: Params, pending: seq<Pending>, height: nat): map<nat, Pending> {
    map i: nat | 0 <= i < |pending| && BundleFails(p, pending[i], height) :: pending[i]
  }

  function FailedBundlesAt(p: Params, st: State, height: nat): FailedBundles {
    map s | s in st.pending && FailedOf(p, st.pending[s], height) != map[] :: FailedOf(p, st.pending[s], height)
  }

  // ----- Every diff a handler returns fits the state it read

  lemma {:induction false} SlotsFromListed(slots: set<Slot>, lo: nat)
    requires lo <= 256
    ensures forall s: Slot :: s in SlotsFrom(slots, lo) <==> s in slots && s >= lo
    ensures forall i, j | 0 <= i < j < |SlotsFrom(slots, lo)| :: SlotsFrom(slots, lo)[i] < SlotsFrom(slots, lo)[j]
    decreases 256 - lo
  {
    if lo < 256 {
      SlotsFromListed(slots, lo + 1);
      var head: seq<Slot>, rest := if lo in slots then [lo] else [], SlotsFrom(slots, lo + 1);
      assert SlotsFrom(slots, lo) == head + rest;
      forall s: Slot ensures s in head + rest <==> s in slots && s >= lo {
        assert s in head + rest <==> s in head || s in rest;
      }
      forall j | 0 <= j < |rest| ensures rest[j] > lo {
        assert rest[j] in rest;
      }
    }
  }

  lemma {:induction false} SlotsFromCount(slots: set<Slot>, lo: nat)
    requires lo <= 256
    ensures |SlotsFrom(slots, lo)| == |set s | s in slots && s >= lo|
    decreases 256 - lo
  {
    if lo < 256 {
      SlotsFromCount(slots, lo + 1);
      var above := set s | s in slots && s >= lo + 1;
      assert (set s | s in slots && s >= lo) == if lo in slots then above + {lo} else above;
    }
  }

  lemma ActiveSlotCount(st: State)
    ensures |ActiveSlots(st)| == |st.active|
  {
    SlotsFromCount(st.active.Keys, 0);
    assert (set s | s in st.active.Keys && s >= 0) == st.active.Keys;
  }

  /** The votes of an M4 are for the active sidechains, one each, in slot order. */
  lemma ActiveSlotsInOrder(st: State)
    ensures |ActiveSlots(st)| == |st.active| && (forall s :: s in ActiveSlots(st) <==> s in st.active)
    ensures forall i, j | 0 <= i < j < |ActiveSlots(st)| :: ActiveSlots(st)[i] < ActiveSlots(st)[j]
  {
    ActiveSlotCount(st);
    SlotsFromListed(st.active.Keys, 0);
  }

  lemma UpvoteFits(pending: seq<Pending>, i: nat)
    requires i < |pending| && UpvoteOf(pending, i).Some?
    ensures FitsAction(UpvoteOf(pending, i).value, pending)
  {
  }

  lemma {:induction false} VoteActionsFit(st: State, slots: seq<Slot>, codes: seq<U16>, n: nat)
    requires n <= |slots| == |codes| && VoteActions(st, slots, codes, n).Ok?
    ensures var actions := VoteActions(st, slots, codes, n).value;
      forall s | s in actions :: s in st.pending && FitsAction(actions[s], st.pending[s])
  {
    if n > 0 {
      VoteActionsFit(st, slots, codes, n - 1);
      var slot := slots[n - 1];
      match Votes.VoteOfCode(codes[n - 1])
      case Upvote(index) => if UpvoteOf(st.pending[slot], index).Some? { UpvoteFits(st.pending[slot], index); }
      case _ =>
    }
  }

  lemma LeadingActionsFit(st: State)
    ensures forall s | s in LeadingActions(st) :: FitsAction(LeadingActions(st)[s], st.pending[s])
  {
    forall s | s in LeadingActions(st) ensures FitsAction(LeadingActions(st)[s], st.pending[s]) {
      LeaderBelowFinds(st.pending[s], |st.pending[s]|);
      UpvoteFits(st.pending[s], LeaderBelow(st.pending[s], |st.pending[s]|).value);
    }
  }

  lemma RepeatActionFits(a: AckAction, pending: seq<Pending>)
    requires RepeatAction(a, pending).Some?
    ensures FitsAction(RepeatAction(a, pending).value, pending)
  {
    if a.Upvote? {
      FindPendingFinds(pending, a.m6id);
      UpvoteFits(pending, FindPending(pending, a.m6id).value);
    }
  }

  lemma HandleM4Fits(st: State, previous: seq<MsgDiff>, m4: M4AckBundles)
    requires HandleM4(st, previous, m4).Ok?
    ensures FitsMsg(AckBundles(HandleM4(st, previous, m4).value), st)
  {
    match m4
    case LeadingBy50 => LeadingActionsFit(st);
    case RepeatPrevious =>
      var earlier := PreviousActions(previous);
      forall s | s in HandleM4(st, previous, m4).value
        ensures FitsAction(HandleM4(st, previous, m4).value[s], st.pending[s])
      {
        RepeatActionFits(earlier[s], st.pending[s]);
      }
    case OneByte(_) => VoteActionsFit(st, ActiveSlots(st), Votes.Codes(m4), |Votes.Codes(m4)|);
    case TwoBytes(codes) => VoteActionsFit(st, ActiveSlots(st), codes, |codes|);
  }

  lemma HandleMessageFits(p: Params, st: State, previous: seq<MsgDiff>, height: nat, m: Message)
    ensures var r := HandleMessage(p, st, previous, height, m);
      r.Ok? && r.value.Some? ==> FitsMsg(r.value.value, st)
  {
    match m
    case M3ProposeBundle(slot, m6id) =>
      if HandleM3(st, slot, m6id).Ok? { FindPendingFinds(st.pending[slot], m6id); }
    case M4(votes) => if HandleM4(st, previous, votes).Ok? { HandleM4Fits(st, previous, votes); }
    case _ =>
  }

  lemma FailuresFit(p: Params, st: State, height: nat)
    ensures FitsFailed(FailedProposals(p, st, height), FailedBundlesAt(p, st, height), st)
  {
  }

  // ----- LeadingBy50 does not depend on how the sort breaks ties

  /** Positions listed in some order of descending votes. */
  ghost predicate SortsByVotes(pending: seq<Pending>, order: seq<nat>) {
    && |order| == |pending|
    && (forall k | 0 <= k < |order| :: order[k] < |pending|)
    && (forall k, l | 0 <= k < l < |order| :: order[k] != order[l])
    && (forall i | 0 <= i < |pending| :: i in order)
    && (forall k, l | 0 <= k < l < |order| :: pending[order[k]].votes >= pending[order[l]].votes)
  }

  /** However the bundles are sorted by votes, the first one is ahead of the
      second by the margin exactly when some bundle leads, and is that bundle. */
  lemma LeaderBySorting(pending: seq<Pending>, order: seq<nat>)
    requires SortsByVotes(pending, order) && order != []
    ensures var second := if |order| > 1 then pending[order[1]].votes else 0;
      pending[order[0]].votes >= second + LEADING_MARGIN <==> exists i | 0 <= i < |pending| :: Leads(pending, i)
    ensures forall i | 0 <= i < |pending| && Leads(pending, i) :: i == order[0]
  {
    var top := order[0];
    forall i | 0 <= i < |pending| && i != top
      ensures |order| > 1 && pending[order[1]].votes >= pending[i].votes && pending[top].votes >= pending[i].votes
    {
      assert i in order;
      var k :| 0 <= k < |order| && order[k] == i;
    }
    if pending[top].votes >= (if |order| > 1 then pending[order[1]].votes else 0) + LEADING_MARGIN {
      assert Leads(pending, top);
    }
  }
}
