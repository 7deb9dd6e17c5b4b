/** What an M4 does to the pending bundles, said without the handlers that work
    it out: which bundle gains a vote, which lose one, and which messages are
    refused. */
module VoteEffects {
  import opened Prelude
  import opened Messages
  import opened Ledger
  import opened Validator
  import opened Blocks
  import Votes

  // ----- What one vote does to a list

  /** One vote less, but not below zero. */
  function Lowered(b: Pending): Pending {
    b.(votes := if b.votes == 0 then 0 else b.votes - 1)
  }

  ghost predicate AllLose(before: seq<Pending>, after: seq<Pending>) {
    |after| == |before| && forall j | 0 <= j < |before| :: after[j] == Lowered(before[j])
  }

  /** The bundle at position `k` gains a vote and every other loses one; nothing
      happens once its votes fill 16 bits. */
  ghost predicate Gains(before: seq<Pending>, after: seq<Pending>, k: nat)
    requires k < |before|
  {
    if before[k].votes >= 0xFFFF then after == before else
    && |after| == |before| && after[k] == before[k].(votes := before[k].votes + 1)
    && forall j | 0 <= j < |before| && j != k :: after[j] == Lowered(before[j])
  }

  /** The effect of a two-byte code: 0xFFFF abstains, 0xFFFE takes a vote from
      every bundle, anything else is a position. */
  ghost predicate CodeDoes(code: nat, before: seq<Pending>, after: seq<Pending>) {
    if code == 0xFFFF then after == before
    else if code == 0xFFFE then AllLose(before, after)
    else code < |before| && Gains(before, after, code)
  }

  predicate CodeFits(code: nat, pending: seq<Pending>) {
    code == 0xFFFF || code == 0xFFFE || code < |pending|
  }

  /** A list once an action, if there is one, is applied. */
  function Acted(a: Option<AckAction>, pending: seq<Pending>): seq<Pending> {
    match a case None => pending case Some(a) => Vote(a, pending)
  }

  lemma PositiveAt(pending: seq<Pending>, j: nat)
    requires DistinctIds(pending) && j < |pending|
    ensures pending[j].m6id in PositiveIds(pending) <==> pending[j].votes > 0
  {
  }

  lemma UpvoteDoes(pending: seq<Pending>, k: nat)
    requires DistinctIds(pending) && k < |pending|
    ensures Gains(pending, Acted(UpvoteOf(pending, k), pending), k)
  {
    if pending[k].votes < 0xFFFF {
      var after := Acted(UpvoteOf(pending, k), pending);
      forall j | 0 <= j < |pending|
        ensures after[j] == if j == k then pending[k].(votes := pending[k].votes + 1) else Lowered(pending[j])
      {
        PositiveAt(pending, j);
      }
    }
  }

  lemma AlarmDoes(pending: seq<Pending>)
    requires DistinctIds(pending)
    ensures AllLose(pending, Acted(AlarmOf(pending), pending))
  {
    forall j | 0 <= j < |pending| ensures Acted(AlarmOf(pending), pending)[j] == Lowered(pending[j]) {
      PositiveAt(pending, j);
    }
  }

  lemma CodeDoesIt(pending: seq<Pending>, code: U16)
    requires DistinctIds(pending)
    ensures VoteAction(pending, code).Ok? <==> CodeFits(code, pending)
    ensures VoteAction(pending, code).Ok? ==> CodeDoes(code, pending, Acted(VoteAction(pending, code).value, pending))
  {
    AlarmDoes(pending);
    if code < |pending| { UpvoteDoes(pending, code); }
  }

  // ----- Lists of votes

  function ActionIn(actions: map<Slot, AckAction>, s: Slot): Option<AckAction> {
    if s in actions then Some(actions[s]) else None
  }

  ghost predicate DistinctSlots(slots: seq<Slot>) {
    forall i, j | 0 <= i < j < |slots| :: slots[i] != slots[j]
  }

  ghost predicate Ready(st: State, slots: seq<Slot>) {
    && DistinctSlots(slots)
    && forall i | 0 <= i < |slots| :: slots[i] in st.pending && DistinctIds(st.pending[slots[i]])
  }

  lemma {:induction false} VotesAcceptedExactly(st: State, slots: seq<Slot>, codes: seq<U16>, n: nat)
    requires n <= |slots| == |codes| && Ready(st, slots)
    ensures VoteActions(st, slots, codes, n).Ok? <==> forall i | 0 <= i < n :: CodeFits(codes[i], st.pending[slots[i]])
  {
    if n > 0 {
      VotesAcceptedExactly(st, slots, codes, n - 1);
      CodeDoesIt(st.pending[slots[n - 1]], codes[n - 1]);
    }
  }

  lemma {:induction false} VotesTouch(st: State, slots: seq<Slot>, codes: seq<U16>, n: nat)
    requires n <= |slots| == |codes| && VoteActions(st, slots, codes, n).Ok?
    ensures forall s | s in VoteActions(st, slots, codes, n).value :: s in slots[..n]
  {
    if n > 0 {
      VotesTouch(st, slots, codes, n - 1);
      assert slots[..n] == slots[..n - 1] + [slots[n - 1]];
    }
  }

  /** Every vote has its effect on the bundles of its own sidechain. */
  lemma {:induction false} VotesDo(st: State, slots: seq<Slot>, codes: seq<U16>, n: nat, i: nat)
    requires i < n <= |slots| == |codes| && Ready(st, slots) && VoteActions(st, slots, codes, n).Ok?
    ensures var q := st.pending[slots[i]];
      CodeDoes(codes[i], q, Acted(ActionIn(VoteActions(st, slots, codes, n).value, slots[i]), q))
  {
    if i < n - 1 {
      VotesDo(st, slots, codes, n - 1, i);
      assert slots[i] != slots[n - 1];
    } else {
      VotesTouch(st, slots, codes, n - 1);
      assert slots[i] !in slots[..i];
      CodeDoesIt(st.pending[slots[i]], codes[i]);
    }
  }

  // ----- The whole message

  /** Only votes differ: the same sidechains, with the same bundles in the same
      places. */
  ghost predicate OnlyVotes(st: State, st': State) {
    && st' == st.(pending := st'.pending) && st'.pending.Keys == st.pending.Keys
    && forall s | s in st.pending :: SameBundles(st.pending[s], st'.pending[s])
  }

  ghost predicate SameBundles(before: seq<Pending>, after: seq<Pending>) {
    && |after| == |before|
    && forall j | 0 <= j < |before| ::
      after[j].m6id == before[j].m6id && after[j].proposalHeight == before[j].proposalHeight
  }

  /** One byte is a position, but for its own two sentinels. */
  function CodeOfByte(b: Byte): nat {
    if b == 0xFF then 0xFFFF else if b == 0xFE then 0xFFFE else b
  }

  /** The bundle has at least 50 votes, and 50 more than any other. */
  ghost predicate IsAhead(pending: seq<Pending>, k: nat) {
    && k < |pending| && pending[k].votes >= 50
    && forall j | 0 <= j < |pending| && j != k :: pending[k].votes >= pending[j].votes + 50
  }

  /** What the votes of the parent's block were, if any. */
  ghost predicate FirstVotes(previous: seq<MsgDiff>, i: int) {
    0 <= i < |previous| && previous[i].AckBundles? && forall j | 0 <= j < i :: !previous[j].AckBundles?
  }

  /** Repeating a vote: the same bundle gains if it is still pending, wherever it
      is now. */
  ghost predicate RepeatDoes(a: AckAction, before: seq<Pending>, after: seq<Pending>) {
    match a
    case Alarm(_) => AllLose(before, after)
    case Upvote(m6id, _) =>
      && (forall k | 0 <= k < |before| && before[k].m6id == m6id :: Gains(before, after, k))
      && (!HasId(before, m6id) ==> after == before)
  }

  /** Which M4 is acceptable. */
  ghost predicate M4Fits(st: State, previous: seq<MsgDiff>, m4: M4AckBundles) {
    match m4
    case OneByte(codes) =>
      |codes| == |st.active| && forall i | 0 <= i < |codes| ::
        CodeFits(CodeOfByte(codes[i]), ListAt(st, i))
    case TwoBytes(codes) =>
      && |codes| == |st.active| && (exists i | 0 <= i < |codes| :: codes[i] > 0xFD)
      && forall i | 0 <= i < |codes| :: CodeFits(codes[i], ListAt(st, i))
    case LeadingBy50 => true
    case RepeatPrevious => forall i, s | FirstVotes(previous, i) && s in previous[i].actions :: s in st.pending
  }

  /** The bundles of the `i`-th active sidechain, in slot order. */
  ghost function ListAt(st: State, i: nat): seq<Pending> {
    if i < |ActiveSlots(st)| && ActiveSlots(st)[i] in st.pending then st.pending[ActiveSlots(st)[i]] else []
  }

  /** What an acceptable M4 does. */
  ghost predicate M4Does(st: State, previous: seq<MsgDiff>, m4: M4AckBundles, st': State) {
    match m4
    case OneByte(codes) =>
      forall i | 0 <= i < |codes| :: CodeDoes(CodeOfByte(codes[i]), ListAt(st, i), ListAt(st', i))
    case TwoBytes(codes) =>
      forall i | 0 <= i < |codes| :: CodeDoes(codes[i], ListAt(st, i), ListAt(st', i))
    case LeadingBy50 =>
      st'.pending.Keys == st.pending.Keys && forall s | s in st.pending ::
        && (forall k | IsAhead(st.pending[s], k) :: Gains(st.pending[s], st'.pending[s], k))
        && ((forall k :: !IsAhead(st.pending[s], k)) ==> st'.pending[s] == st.pending[s])
    case RepeatPrevious =>
      st'.pending.Keys == st.pending.Keys && forall s | s in st.pending ::
        && (forall i | FirstVotes(previous, i) && s in previous[i].actions ::
              RepeatDoes(previous[i].actions[s], st.pending[s], st'.pending[s]))
        && ((forall i | FirstVotes(previous, i) :: s !in previous[i].actions) ==> st'.pending[s] == st.pending[s])
  }

  /** The state once the actions of a message are applied. */
  function ActedOn(st: State, actions: map<Slot, AckAction>): State {
    st.(pending := VotePending(actions, st.pending))
  }

  lemma ActedAt(st: State, actions: map<Slot, AckAction>, s: Slot)
    requires s in st.pending
    ensures ActedOn(st, actions).pending[s] == Acted(ActionIn(actions, s), st.pending[s])
    ensures SameBundles(st.pending[s], ActedOn(st, actions).pending[s])
  {
  }

  lemma NothingActed(st: State)
    ensures ActedOn(st, map[]) == st
  {
    assert VotePending(map[], st.pending) == st.pending;
  }

  lemma CodesDo(st: State, codes: seq<U16>, actions: map<Slot, AckAction>)
    requires Ledger.Valid(st) && HandleCodes(st, codes) == Ok(actions)
    ensures |codes| == |st.active|
    ensures forall i | 0 <= i < |codes| :: CodeDoes(codes[i], ListAt(st, i), ListAt(ActedOn(st, actions), i))
  {
    var slots := ActiveSlots(st);
    ActiveSlotsInOrder(st);
    forall i | 0 <= i < |codes| ensures CodeDoes(codes[i], ListAt(st, i), ListAt(ActedOn(st, actions), i)) {
      assert slots[i] in slots;
      VotesDo(st, slots, codes, |codes|, i);
      ActedAt(st, actions, slots[i]);
    }
  }

  lemma CodesFit(st: State, codes: seq<U16>)
    requires Ledger.Valid(st)
    ensures HandleCodes(st, codes).Ok? <==>
      |codes| == |st.active| && forall i | 0 <= i < |codes| :: CodeFits(codes[i], ListAt(st, i))
  {
    var slots := ActiveSlots(st);
    ActiveSlotsInOrder(st);
    forall i | 0 <= i < |slots| ensures slots[i] in st.pending { assert slots[i] in slots; }
    if |codes| == |slots| { VotesAcceptedExactly(st, slots, codes, |codes|); }
  }

  lemma LeadingDoes(st: State)
    requires Ledger.Valid(st)
    ensures M4Does(st, [], LeadingBy50, ActedOn(st, LeadingActions(st)))
  {
    var st' := ActedOn(st, LeadingActions(st));
    forall s | s in st.pending
      ensures forall k | IsAhead(st.pending[s], k) :: Gains(st.pending[s], st'.pending[s], k)
      ensures (forall k :: !IsAhead(st.pending[s], k)) ==> st'.pending[s] == st.pending[s]
    {
      LeaderDoes(st.pending[s]);
      ActedAt(st, LeadingActions(st), s);
    }
  }

  lemma LeaderDoes(q: seq<Pending>)
    requires DistinctIds(q)
    ensures forall k | IsAhead(q, k) :: Gains(q, Acted(LeadingAction(q), q), k)
    ensures (forall k :: !IsAhead(q, k)) ==> LeadingAction(q) == None
  {
    LeaderBelowFinds(q, |q|);
    forall k | IsAhead(q, k) ensures Gains(q, Acted(LeadingAction(q), q), k) {
      assert Leads(q, k);
      UpvoteDoes(q, k);
    }
    if LeaderBelow(q, |q|).Some? { assert IsAhead(q, LeaderBelow(q, |q|).value); }
  }

  lemma {:induction false} PreviousActionsAre(previous: seq<MsgDiff>)
    ensures forall i | FirstVotes(previous, i) :: PreviousActions(previous) == previous[i].actions
    ensures (forall i :: !FirstVotes(previous, i)) ==> PreviousActions(previous) == map[]
  {
    if previous != [] {
      if previous[0].AckBundles? {
        assert FirstVotes(previous, 0);
      } else {
        PreviousActionsAre(previous[1..]);
        forall i | FirstVotes(previous, i) ensures PreviousActions(previous) == previous[i].actions {
          assert forall j | 0 <= j < i - 1 :: previous[1..][j] == previous[j + 1];
          assert FirstVotes(previous[1..], i - 1);
        }
        forall i | FirstVotes(previous[1..], i) ensures FirstVotes(previous, i + 1) {
          assert forall j | 0 < j < i + 1 :: previous[j] == previous[1..][j - 1];
        }
      }
    }
  }

  lemma RepeatDoesIt(a: AckAction, q: seq<Pending>)
    requires DistinctIds(q)
    ensures RepeatDoes(a, q, Acted(RepeatAction(a, q), q))
  {
    AlarmDoes(q);
    if a.Upvote? {
      FindPendingFinds(q, a.m6id);
      forall k | 0 <= k < |q| && q[k].m6id == a.m6id ensures Gains(q, Acted(RepeatAction(a, q), q), k) {
        UpvoteDoes(q, k);
      }
    }
  }

  lemma RepeatingDoes(st: State, previous: seq<MsgDiff>)
    requires Ledger.Valid(st)
    ensures RepeatActions(st, PreviousActions(previous)).Ok? <==> M4Fits(st, previous, RepeatPrevious)
    ensures RepeatActions(st, PreviousActions(previous)).Ok? ==>
      M4Does(st, previous, RepeatPrevious, ActedOn(st, RepeatActions(st, PreviousActions(previous)).value))
  {
    PreviousActionsAre(previous);
    var earlier := PreviousActions(previous);
    var r := RepeatActions(st, earlier);
    if r.Ok? {
      var st' := ActedOn(st, r.value);
      forall s | s in st.pending
        ensures s in earlier ==> RepeatDoes(earlier[s], st.pending[s], st'.pending[s])
        ensures s !in earlier ==> st'.pending[s] == st.pending[s]
      {
        ActedAt(st, r.value, s);
        if s in earlier { RepeatDoesIt(earlier[s], st.pending[s]); }
      }
    }
  }

  lemma HandledDoes(st: State, previous: seq<MsgDiff>, m4: M4AckBundles)
    requires Ledger.Valid(st)
    ensures HandleM4(st, previous, m4).Ok? <==> M4Fits(st, previous, m4)
    ensures HandleM4(st, previous, m4).Ok? ==>
      M4Does(st, previous, m4, ActedOn(st, HandleM4(st, previous, m4).value))
  {
    match m4
    case OneByte(bytes) => BytesDo(st, previous, bytes);
    case TwoBytes(codes) =>
      CodesFit(st, codes);
      if HandleCodes(st, codes).Ok? { CodesDo(st, codes, HandleCodes(st, codes).value); }
    case LeadingBy50 => LeadingDoes(st);
    case RepeatPrevious => RepeatingDoes(st, previous);
  }

  lemma BytesDo(st: State, previous: seq<MsgDiff>, bytes: seq<Byte>)
    requires Ledger.Valid(st)
    ensures var m4 := OneByte(bytes);
      && (HandleM4(st, previous, m4).Ok? <==> M4Fits(st, previous, m4))
      && (HandleM4(st, previous, m4).Ok? ==> M4Does(st, previous, m4, ActedOn(st, HandleM4(st, previous, m4).value)))
  {
    var codes := Votes.Codes(OneByte(bytes));
    assert |codes| == |bytes| && forall i | 0 <= i < |bytes| :: codes[i] == CodeOfByte(bytes[i]);
    CodesFit(st, codes);
    if HandleCodes(st, codes).Ok? { CodesDo(st, codes, HandleCodes(st, codes).value); }
  }

  lemma StepActs(p: Params, previous: seq<MsgDiff>, height: nat, at: MsgProgress, m4: M4AckBundles)
    ensures MessageStep(p, previous, height, at, M4(m4)).Ok? <==> HandleM4(at.st, previous, m4).Ok?
    ensures HandleM4(at.st, previous, m4).Ok? ==>
      MessageStep(p, previous, height, at, M4(m4)).value.st == ActedOn(at.st, HandleM4(at.st, previous, m4).value)
  {
    NothingActed(at.st);
    HandleMessageFits(p, at.st, previous, height, M4(m4));
  }

  /** An M4 is accepted exactly when it fits the active sidechains and their
      bundles, and then it does what its codes say: nothing but votes change. */
  lemma M4Effect(p: Params, previous: seq<MsgDiff>, height: nat, at: MsgProgress, m4: M4AckBundles)
    requires Ledger.Valid(at.st)
    ensures var r := MessageStep(p, previous, height, at, M4(m4));
      && (r.Ok? <==> M4Fits(at.st, previous, m4))
      && (r.Ok? ==> M4Does(at.st, previous, m4, r.value.st) && OnlyVotes(at.st, r.value.st))
  {
    HandledDoes(at.st, previous, m4);
    StepActs(p, previous, height, at, m4);
    if HandleM4(at.st, previous, m4).Ok? {
      forall s | s in at.st.pending
        ensures SameBundles(at.st.pending[s], ActedOn(at.st, HandleM4(at.st, previous, m4).value).pending[s])
      {
        ActedAt(at.st, HandleM4(at.st, previous, m4).value, s);
      }
    }
  }
}
