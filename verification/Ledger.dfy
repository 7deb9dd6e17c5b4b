/** The validator's consensus tables, the diffs that a block makes to them, and
    how each diff is applied and undone. */
module Ledger {
  import opened Prelude
  import opened Transactions
  import opened Treasury

  datatype Proposal = Proposal(slot: Slot, description: Bytes)

  datatype ProposalId = ProposalId(slot: Slot, hash: Bytes)

  /** A proposed sidechain, and an active one once it has an activation height. */
  datatype Sidechain = Sidechain(proposal: Proposal, votes: nat, proposalHeight: nat, activationHeight: Option<nat>)

  /** A withdrawal bundle that is being voted on. */
  datatype Pending = Pending(m6id: Txid, votes: nat, proposalHeight: nat)

  datatype State = State(
    proposals: map<ProposalId, Sidechain>,
    active: map<Slot, Sidechain>,
    /** The bundles of each active slot, in the order they were proposed: votes
        name them by position. */
    pending: map<Slot, seq<Pending>>,
    treasury: Stacks)

  const EMPTY := State(map[], map[], map[], map[])

  ghost predicate DistinctIds(p: seq<Pending>) {
    forall i, j | 0 <= i < j < |p| :: p[i].m6id != p[j].m6id
  }

  ghost predicate HasId(p: seq<Pending>, m6id: Txid) {
    exists i | 0 <= i < |p| :: p[i].m6id == m6id
  }

  ghost predicate Valid(st: State) {
    && st.pending.Keys == st.active.Keys
    && (forall s | s in st.pending :: DistinctIds(st.pending[s]))
    && NonEmptyStacks(st.treasury)
    && (forall id | id in st.proposals :: st.proposals[id].activationHeight.None?)
  }

  // ----- Diffs

  /** What an ACK does besides counting. */
  datatype Effect = NoActivation | ReplaceActive(replaced: Sidechain) | SlotActivation

  datatype AckAction =
    /** Downvotes every bundle; the bundles that had a vote to lose. */
    | Alarm(positive: set<Txid>)
    /** Upvotes one bundle; the others that had a vote to lose. */
    | Upvote(m6id: Txid, downvoted: set<Txid>)

  datatype MsgDiff =
    | NewProposal(id: ProposalId, sidechain: Sidechain)
    | AckProposal(id: ProposalId, effect: Effect)
    | ProposeBundle(slot: Slot, m6id: Txid)
    | AckBundles(actions: map<Slot, AckAction>)

  datatype TxDiff =
    | M5(newCtips: map<Slot, Ctip>)
    | M6(slot: Slot, newCtip: Ctip, index: nat, removed: Pending)

  /** Failed bundles by slot, each with the position it held. */
  type FailedBundles = map<Slot, map<nat, Pending>>

  datatype BlockDiff = BlockDiff(
    msgs: seq<MsgDiff>,
    failedProposals: map<ProposalId, Sidechain>,
    failedBundles: FailedBundles,
    txs: seq<TxDiff>)

  // ----- Votes

  function PositiveIds(p: seq<Pending>): set<Txid> {
    set b | b in p && b.votes > 0 :: b.m6id
  }

  ghost predicate FitsAction(a: AckAction, p: seq<Pending>) {
    match a
    case Alarm(positive) => positive == PositiveIds(p)
    case Upvote(m6id, downvoted) =>
      && (exists i | 0 <= i < |p| :: p[i].m6id == m6id && p[i].votes < U16_MAX)
      && downvoted == PositiveIds(p) - {m6id}
  }

  function Voted(a: AckAction, b: Pending): Pending {
    match a
    case Alarm(_) => b.(votes := SatSub(b.votes, 1))
    case Upvote(m6id, downvoted) =>
      if b.m6id == m6id then b.(votes := b.votes + 1)
      else if b.m6id in downvoted then b.(votes := SatSub(b.votes, 1))
      else b
  }

  function Vote(a: AckAction, p: seq<Pending>): seq<Pending> {
    seq(|p|, i requires 0 <= i < |p| => Voted(a, p[i]))
  }

  function Unvoted(a: AckAction, b: Pending): Pending {
    match a
    case Alarm(positive) => if b.m6id in positive then b.(votes := b.votes + 1) else b
    case Upvote(m6id, downvoted) =>
      if b.m6id == m6id then b.(votes := SatSub(b.votes, 1))
      else if b.m6id in downvoted then b.(votes := b.votes + 1)
      else b
  }

  /** Fails when the upvoted bundle is gone or has no vote to take back. */
  predicate CanUnvote(a: AckAction, p: seq<Pending>) {
    a.Upvote? ==>
      && (exists i | 0 <= i < |p| :: p[i].m6id == a.m6id)
      && (forall i | 0 <= i < |p| && p[i].m6id == a.m6id :: p[i].votes > 0)
  }

  function Unvote(a: AckAction, p: seq<Pending>): seq<Pending> {
    seq(|p|, i requires 0 <= i < |p| => Unvoted(a, p[i]))
  }

  lemma UnvoteVote(a: AckAction, p: seq<Pending>)
    requires DistinctIds(p) && FitsAction(a, p)
    ensures CanUnvote(a, Vote(a, p)) && Unvote(a, Vote(a, p)) == p && DistinctIds(Vote(a, p))
  {
    forall i | 0 <= i < |p|
      ensures Unvoted(a, Voted(a, p[i])) == p[i] && Voted(a, p[i]).m6id == p[i].m6id
    {
      assert p[i].votes > 0 <==> p[i].m6id in PositiveIds(p);
    }
    if a.Upvote? {
      var i :| 0 <= i < |p| && p[i].m6id == a.m6id && p[i].votes < U16_MAX;
      assert Vote(a, p)[i].m6id == a.m6id;
    }
  }

  // ----- Removing bundles and putting them back where they were

  /** The list without the bundle `m6id`. */
  function WithoutId(p: seq<Pending>, m6id: Txid): seq<Pending> {
    if p == [] then []
    else if p[0].m6id == m6id then p[1..]
    else [p[0]] + WithoutId(p[1..], m6id)
  }

  lemma {:induction false} WithoutIdAt(p: seq<Pending>, i: nat)
    requires i < |p| && forall j | 0 <= j < i :: p[j].m6id != p[i].m6id
    ensures WithoutId(p, p[i].m6id) == p[..i] + p[i + 1..]
  {
    if i > 0 {
      assert forall j | 0 <= j < i - 1 :: p[1..][j] == p[j + 1];
      WithoutIdAt(p[1..], i - 1);
      assert [p[0]] + (p[1..][..i - 1] + p[1..][i..]) == p[..i] + p[i + 1..];
    }
  }

  function InsertAt(p: seq<Pending>, i: nat, b: Pending): seq<Pending>
    requires i <= |p|
  {
    p[..i] + [b] + p[i..]
  }

  /** The bundles whose position, counted from `i`, is not in `failed`. */
  function Surviving(p: seq<Pending>, failed: map<nat, Pending>, i: nat): seq<Pending> {
    if p == [] then []
    else if i in failed then Surviving(p[1..], failed, i + 1)
    else [p[0]] + Surviving(p[1..], failed, i + 1)
  }

  /** Puts the failed bundles back among the surviving ones: position `i` takes
      the next failed bundle if one was there, else the next survivor. */
  function Refilled(rest: seq<Pending>, failed: map<nat, Pending>, i: nat): seq<Pending>
    decreases |rest| + |failed|
  {
    if i in failed then [failed[i]] + Refilled(rest, failed - {i}, i + 1)
    else if rest == [] then []
    else [rest[0]] + Refilled(rest[1..], failed, i + 1)
  }

  /** The failed positions at or after `i` hold the bundles they recorded. */
  ghost predicate FailedAt(p: seq<Pending>, failed: map<nat, Pending>, i: nat) {
    forall k | k in failed :: i <= k < i + |p| && failed[k] == p[k - i]
  }

  lemma {:induction false} RefilledSurviving(p: seq<Pending>, failed: map<nat, Pending>, i: nat)
    requires FailedAt(p, failed, i)
    ensures Refilled(Surviving(p, failed, i), failed, i) == p
    decreases |p|
  {
    if p == [] {
      assert i !in failed;
    } else if i in failed {
      var others := failed - {i};
      SurvivingForgets(p[1..], failed, others, i + 1);
      RefilledSurviving(p[1..], others, i + 1);
    } else {
      RefilledSurviving(p[1..], failed, i + 1);
    }
  }

  /** Positions before the list do not matter. */
  lemma {:induction false} SurvivingForgets(p: seq<Pending>, failed: map<nat, Pending>, others: map<nat, Pending>,
                                            i: nat)
    requires forall k | k >= i :: k in failed <==> k in others
    ensures Surviving(p, failed, i) == Surviving(p, others, i)
  {
    if p != [] {
      SurvivingForgets(p[1..], failed, others, i + 1);
    }
  }

  lemma {:induction false} SurvivingDistinct(p: seq<Pending>, failed: map<nat, Pending>, i: nat)
    requires DistinctIds(p)
    ensures DistinctIds(Surviving(p, failed, i))
    ensures forall b | b in Surviving(p, failed, i) :: b in p
  {
    if p != [] {
      SurvivingDistinct(p[1..], failed, i + 1);
      var rest := Surviving(p[1..], failed, i + 1);
      forall j | 0 <= j < |rest| ensures rest[j].m6id != p[0].m6id {
        assert rest[j] in p[1..];
      }
    }
  }

  lemma {:induction false} SurvivingFrom(pending: seq<Pending>, failed: map<nat, Pending>, i: nat)
    ensures forall b | b in Surviving(pending, failed, i) :: b in pending
  {
    if pending != [] { SurvivingFrom(pending[1..], failed, i + 1); }
  }

  lemma {:induction false} WithoutFrom(pending: seq<Pending>, m6id: Txid)
    ensures forall b | b in WithoutId(pending, m6id) :: b in pending
  {
    if pending != [] { WithoutFrom(pending[1..], m6id); }
  }

  lemma {:induction false} RemovedDistinct(p: seq<Pending>, m6id: Txid)
    requires DistinctIds(p)
    ensures DistinctIds(WithoutId(p, m6id))
  {
    if p != [] && p[0].m6id != m6id {
      RemovedDistinct(p[1..], m6id);
      WithoutFrom(p[1..], m6id);
      var rest := WithoutId(p[1..], m6id);
      forall j | 0 <= j < |rest| ensures rest[j].m6id != p[0].m6id {
        assert rest[j] in p[1..];
      }
    }
  }

  // ----- Coinbase message diffs

  /** A diff fits the state it was computed against. */
  ghost predicate FitsMsg(d: MsgDiff, st: State) {
    match d
    case NewProposal(id, sidechain) => id !in st.proposals && sidechain.activationHeight.None?
    case AckProposal(id, effect) =>
      && id in st.proposals
      && (match effect
          case NoActivation => true
          case ReplaceActive(replaced) => id.slot in st.active && st.active[id.slot] == replaced
          case SlotActivation => id.slot !in st.active)
    case ProposeBundle(slot, m6id) => slot in st.pending && !HasId(st.pending[slot], m6id)
    case AckBundles(actions) =>
      forall s | s in actions :: s in st.pending && FitsAction(actions[s], st.pending[s])
  }

  function VotePending(actions: map<Slot, AckAction>, pending: map<Slot, seq<Pending>>): map<Slot, seq<Pending>> {
    map s | s in pending :: if s in actions then Vote(actions[s], pending[s]) else pending[s]
  }

  function ApplyMsg(d: MsgDiff, st: State, height: nat): State
    requires FitsMsg(d, st)
  {
    match d
    case NewProposal(id, sidechain) => st.(proposals := st.proposals[id := sidechain])
    case AckProposal(id, effect) =>
      var acked := st.proposals[id].(votes := st.proposals[id].votes + 1);
      if effect.NoActivation? then st.(proposals := st.proposals[id := acked])
      else Activate(st, id, acked.(activationHeight := Some(height)))
    case ProposeBundle(slot, m6id) =>
      st.(pending := st.pending[slot := st.pending[slot] + [Pending(m6id, 1, height)]])
    case AckBundles(actions) => st.(pending := VotePending(actions, st.pending))
  }

  /** Moves a proposal into its slot. The bundles of a replaced sidechain stay. */
  function Activate(st: State, id: ProposalId, sidechain: Sidechain): State {
    st.(active := st.active[id.slot := sidechain],
        pending := if id.slot in st.pending then st.pending else st.pending[id.slot := []],
        proposals := st.proposals - {id})
  }

  function UndoMsg(d: MsgDiff, st: State): Option<State> {
    match d
    case NewProposal(id, _) => Some(st.(proposals := st.proposals - {id}))
    case AckProposal(id, effect) => UndoAck(id, effect, st)
    case ProposeBundle(slot, m6id) =>
      if slot !in st.pending then None
      else Some(st.(pending := st.pending[slot := WithoutId(st.pending[slot], m6id)]))
    case AckBundles(actions) =>
      if forall s | s in actions :: s in st.pending && CanUnvote(actions[s], st.pending[s])
      then Some(st.(pending := UnvotePending(actions, st.pending))) else None
  }

  function UnvotePending(actions: map<Slot, AckAction>, pending: map<Slot, seq<Pending>>): map<Slot, seq<Pending>> {
    map s | s in pending :: if s in actions then Unvote(actions[s], pending[s]) else pending[s]
  }

  /** Takes the vote back, and the activation if there was one. Fails when the
      sidechain is missing or has no vote to take back. */
  function UndoAck(id: ProposalId, effect: Effect, st: State): Option<State> {
    match effect
    case NoActivation =>
      if id !in st.proposals || st.proposals[id].votes == 0 then None
      else Some(st.(proposals := st.proposals[id := st.proposals[id].(votes := st.proposals[id].votes - 1)]))
    case _ =>
      if id.slot !in st.active || st.active[id.slot].votes == 0 then None else
      var sidechain := st.active[id.slot].(votes := st.active[id.slot].votes - 1, activationHeight := None);
      var undone := st.(proposals := st.proposals[id := sidechain]);
      if effect.ReplaceActive? then
        Some(undone.(active := st.active[id.slot := effect.replaced],
                     pending := if id.slot in st.pending then st.pending else st.pending[id.slot := []]))
      else
        Some(undone.(active := st.active - {id.slot}, pending := st.pending - {id.slot}))
  }

  lemma RemoveAdded<K, V>(m: map<K, V>, k: K, v: V)
    requires k !in m
    ensures m[k := v] - {k} == m
  {
  }

  lemma RestoreUpdated<K, V>(m: map<K, V>, k: K, v: V)
    requires k in m
    ensures m[k := v][k := m[k]] == m
  {
  }

  lemma UndoApplyMsg(d: MsgDiff, st: State, height: nat)
    requires Valid(st) && FitsMsg(d, st)
    ensures UndoMsg(d, ApplyMsg(d, st, height)) == Some(st)
  {
    match d
    case NewProposal(id, sidechain) => RemoveAdded(st.proposals, id, sidechain);
    case AckProposal(id, effect) => UndoApplyAck(id, effect, st, height);
    case ProposeBundle(slot, m6id) =>
      var p := st.pending[slot] + [Pending(m6id, 1, height)];
      WithoutIdAt(p, |p| - 1);
      assert p[..|p| - 1] + p[|p|..] == st.pending[slot];
      RestoreUpdated(st.pending, slot, p);
    case AckBundles(actions) => UnvoteVotePending(actions, st.pending);
  }

  lemma UndoApplyAck(id: ProposalId, effect: Effect, st: State, height: nat)
    requires st.pending.Keys == st.active.Keys
    requires FitsMsg(AckProposal(id, effect), st) && st.proposals[id].activationHeight.None?
    ensures UndoAck(id, effect, ApplyMsg(AckProposal(id, effect), st, height)) == Some(st)
  {
    var st' := ApplyMsg(AckProposal(id, effect), st, height);
    var undone := UndoAck(id, effect, st');
    assert undone.Some? && undone.value.proposals[id] == st.proposals[id];
    assert undone.value.proposals == st.proposals;
    assert undone.value.active == st.active;
    assert undone.value.pending == st.pending;
  }

  lemma UnvoteVotePending(actions: map<Slot, AckAction>, pending: map<Slot, seq<Pending>>)
    requires forall s | s in pending :: DistinctIds(pending[s])
    requires forall s | s in actions :: s in pending && FitsAction(actions[s], pending[s])
    ensures forall s | s in actions :: CanUnvote(actions[s], VotePending(actions, pending)[s])
    ensures UnvotePending(actions, VotePending(actions, pending)) == pending
  {
    forall s | s in actions
      ensures CanUnvote(actions[s], Vote(actions[s], pending[s]))
      ensures Unvote(actions[s], Vote(actions[s], pending[s])) == pending[s]
    {
      UnvoteVote(actions[s], pending[s]);
    }
  }

  lemma ApplyMsgValid(d: MsgDiff, st: State, height: nat)
    requires Valid(st) && FitsMsg(d, st)
    ensures Valid(ApplyMsg(d, st, height))
  {
    if d.AckBundles? {
      forall s | s in d.actions ensures DistinctIds(Vote(d.actions[s], st.pending[s])) {
        UnvoteVote(d.actions[s], st.pending[s]);
      }
    }
  }

  // ----- Failed proposals and bundles

  ghost predicate FitsFailed(failedProposals: map<ProposalId, Sidechain>, failed: FailedBundles, st: State) {
    && (forall id | id in failedProposals :: id in st.proposals && st.proposals[id] == failedProposals[id])
    && (forall s | s in failed :: s in st.pending && FailedAt(st.pending[s], failed[s], 0))
  }

  function ApplyFailed(failedProposals: map<ProposalId, Sidechain>, failed: FailedBundles, st: State): State {
    st.(proposals := st.proposals - failedProposals.Keys,
        pending := map s | s in st.pending ::
          if s in failed then Surviving(st.pending[s], failed[s], 0) else st.pending[s])
  }

  function UndoFailed(failedProposals: map<ProposalId, Sidechain>, failed: FailedBundles, st: State): Option<State> {
    if failed.Keys <= st.pending.Keys then
      Some(st.(proposals := st.proposals + failedProposals,
               pending := map s | s in st.pending ::
                 if s in failed then Refilled(st.pending[s], failed[s], 0) else st.pending[s]))
    else None
  }

  lemma UndoApplyFailed(failedProposals: map<ProposalId, Sidechain>, failed: FailedBundles, st: State)
    requires FitsFailed(failedProposals, failed, st)
    ensures UndoFailed(failedProposals, failed, ApplyFailed(failedProposals, failed, st)) == Some(st)
  {
    var st' := ApplyFailed(failedProposals, failed, st);
    assert st'.proposals + failedProposals == st.proposals;
    forall s | s in failed ensures Refilled(st'.pending[s], failed[s], 0) == st.pending[s] {
      RefilledSurviving(st.pending[s], failed[s], 0);
    }
    assert UndoFailed(failedProposals, failed, st').value.pending == st.pending;
  }

  lemma ApplyFailedValid(failedProposals: map<ProposalId, Sidechain>, failed: FailedBundles, st: State)
    requires Valid(st)
    ensures Valid(ApplyFailed(failedProposals, failed, st))
  {
    forall s | s in failed && s in st.pending ensures DistinctIds(Surviving(st.pending[s], failed[s], 0)) {
      SurvivingDistinct(st.pending[s], failed[s], 0);
    }
  }

  // ----- Treasury transactions

  function PushAll(stacks: Stacks, newCtips: map<Slot, Ctip>): Stacks {
    map s | s in stacks.Keys + newCtips.Keys ::
      if s in newCtips then Push(stacks, s, newCtips[s])[s] else stacks[s]
  }

  function PopAll(stacks: Stacks, slots: set<Slot>): Option<Stacks> {
    if forall s | s in slots :: s in stacks && stacks[s] != [] then
      Some(map s | s in stacks && !(s in slots && |stacks[s]| == 1) ::
             if s in slots then stacks[s][..|stacks[s]| - 1] else stacks[s])
    else None
  }

  lemma PopAllIs(stacks: Stacks, slots: set<Slot>, popped: Stacks)
    requires forall s | s in slots :: s in stacks && stacks[s] != []
    requires forall s :: s in popped <==> s in stacks && !(s in slots && |stacks[s]| == 1)
    requires forall s | s in popped :: popped[s] == if s in slots then stacks[s][..|stacks[s]| - 1] else stacks[s]
    ensures PopAll(stacks, slots).Some? && PopAll(stacks, slots).value == popped
  {
  }

  lemma PushedStack(stacks: Stacks, s: Slot, ctip: Ctip)
    ensures var pushed := Push(stacks, s, ctip)[s];
      |pushed| == |StackOf(stacks, s)| + 1 && pushed[..|pushed| - 1] == StackOf(stacks, s)
  {
  }

  lemma PopPushAll(stacks: Stacks, newCtips: map<Slot, Ctip>)
    requires NonEmptyStacks(stacks)
    ensures PopAll(PushAll(stacks, newCtips), newCtips.Keys) == Some(stacks)
    ensures NonEmptyStacks(PushAll(stacks, newCtips))
  {
    var pushed := PushAll(stacks, newCtips);
    forall s | s in newCtips
      ensures |pushed[s]| == |StackOf(stacks, s)| + 1 && pushed[s][..|pushed[s]| - 1] == StackOf(stacks, s)
    {
      PushedStack(stacks, s, newCtips[s]);
    }
    PopAllIs(pushed, newCtips.Keys, stacks);
  }

  ghost predicate FitsTx(d: TxDiff, st: State) {
    d.M6? ==>
      d.slot in st.pending && d.index < |st.pending[d.slot]| && st.pending[d.slot][d.index] == d.removed
  }

  function ApplyTx(d: TxDiff, st: State): State
    requires FitsTx(d, st)
  {
    match d
    case M5(newCtips) => st.(treasury := PushAll(st.treasury, newCtips))
    case M6(slot, newCtip, _, removed) =>
      st.(treasury := Push(st.treasury, slot, newCtip),
          pending := st.pending[slot := WithoutId(st.pending[slot], removed.m6id)])
  }

  function UndoTx(d: TxDiff, st: State): Option<State> {
    match d
    case M5(newCtips) =>
      (match PopAll(st.treasury, newCtips.Keys)
       case None => None
       case Some(treasury) => Some(st.(treasury := treasury)))
    case M6(slot, _, index, removed) =>
      if slot !in st.treasury || st.treasury[slot] == [] || slot !in st.pending || index > |st.pending[slot]| then None
      else Some(st.(treasury := Pop(st.treasury, slot),
                    pending := st.pending[slot := InsertAt(st.pending[slot], index, removed)]))
  }

  lemma UndoApplyTx(d: TxDiff, st: State)
    requires Valid(st) && FitsTx(d, st)
    ensures UndoTx(d, ApplyTx(d, st)) == Some(st)
  {
    match d
    case M5(newCtips) => PopPushAll(st.treasury, newCtips);
    case M6(slot, newCtip, index, removed) =>
      var p := st.pending[slot];
      PopPush(st.treasury, slot, newCtip);
      WithoutIdAt(p, index);
      assert InsertAt(p[..index] + p[index + 1..], index, removed) == p;
      RestoreUpdated(st.pending, slot, p[..index] + p[index + 1..]);
  }

  lemma ApplyTxValid(d: TxDiff, st: State)
    requires Valid(st) && FitsTx(d, st)
    ensures Valid(ApplyTx(d, st))
  {
    match d
    case M5(newCtips) => PopPushAll(st.treasury, newCtips);
    case M6(slot, newCtip, index, removed) =>
      PopPush(st.treasury, slot, newCtip);
      RemovedDistinct(st.pending[slot], removed.m6id);
  }
}
