/** Bundle votes (M4): how the producer chooses one vote per active sidechain,
    how votes are encoded, and how the validator reads them back. */
module Votes {
  import opened Prelude
  import opened Transactions
  import opened Messages

  /** Which pending bundles get a vote without an explicit ACK. */
  datatype Policy = OnlyAcked | KnownBundles | AllBundles | AlarmAll

  datatype Vote = Abstain | Alarm | Upvote(index: U16)

  const ABSTAIN_ONE_BYTE: Byte := 0xFF
  const ALARM_ONE_BYTE: Byte := 0xFE
  const ABSTAIN_TWO_BYTES: U16 := 0xFFFF
  const ALARM_TWO_BYTES: U16 := 0xFFFE
  const MAX_ONE_BYTE_UPVOTE: nat := 0xFD

  // ----- Choosing a vote

  /** The position of the first pending bundle that is wanted. */
  function FirstWanted(pending: seq<Txid>, wanted: set<Txid>): Option<nat> {
    if pending == [] then None
    else if pending[0] in wanted then Some(0)
    else match FirstWanted(pending[1..], wanted) case None => None case Some(i) => Some(i + 1)
  }

  /** A position votes only if it fits the widest encoding. */
  function UpvoteAt(position: Option<nat>): Option<Vote> {
    if position.Some? && position.value <= U16_MAX then Some(Upvote(position.value)) else None
  }

  function Resolve(policy: Policy, pending: seq<Txid>, acked: set<Txid>, ours: set<Txid>): Vote {
    match UpvoteAt(FirstWanted(pending, acked))
    case Some(vote) => vote
    case None =>
      match policy
      case OnlyAcked => Abstain
      case AlarmAll => Alarm
      case KnownBundles =>
        (match UpvoteAt(FirstWanted(pending, ours)) case Some(vote) => vote case None => Abstain)
      case AllBundles => if pending == [] then Abstain else Upvote(0)
  }

  /** `i` is the first position of a wanted bundle. */
  predicate IsFirst(pending: seq<Txid>, wanted: set<Txid>, i: nat) {
    i < |pending| && pending[i] in wanted && forall j | 0 <= j < i :: pending[j] !in wanted
  }

  lemma {:induction false} FirstWantedIsFirst(pending: seq<Txid>, wanted: set<Txid>)
    ensures match FirstWanted(pending, wanted)
      case Some(i) => IsFirst(pending, wanted, i)
      case None => forall j | 0 <= j < |pending| :: pending[j] !in wanted
  {
    if pending != [] && pending[0] !in wanted {
      FirstWantedIsFirst(pending[1..], wanted);
      var rest := FirstWanted(pending[1..], wanted);
      forall j | 0 <= j < |pending| && (rest.Some? ==> j <= rest.value) ensures pending[j] !in wanted {
        assert j > 0 ==> pending[j] == pending[1..][j - 1];
      }
    }
  }

  /** What a vote must be, said without the search: the first explicitly acked
      bundle wins; only without one does the policy speak. */
  ghost predicate Backs(policy: Policy, pending: seq<Txid>, acked: set<Txid>, ours: set<Txid>, vote: Vote) {
    if exists j | 0 <= j < |pending| :: pending[j] in acked then
      vote.Upvote? && IsFirst(pending, acked, vote.index)
    else match policy
      case OnlyAcked => vote == Abstain
      case AlarmAll => vote == Alarm
      case KnownBundles =>
        if exists j | 0 <= j < |pending| :: pending[j] in ours then vote.Upvote? && IsFirst(pending, ours, vote.index)
        else vote == Abstain
      case AllBundles => if pending == [] then vote == Abstain else vote == Upvote(0)
  }

  lemma ResolveBacks(policy: Policy, pending: seq<Txid>, acked: set<Txid>, ours: set<Txid>, vote: Vote)
    requires |pending| <= 0x1_0000
    ensures vote == Resolve(policy, pending, acked, ours) <==> Backs(policy, pending, acked, ours, vote)
  {
    FirstWantedIsFirst(pending, acked);
    FirstWantedIsFirst(pending, ours);
  }

  // ----- Encoding

  predicate NeedsTwoBytes(votes: seq<Vote>) {
    exists i | 0 <= i < |votes| :: votes[i].Upvote? && votes[i].index > MAX_ONE_BYTE_UPVOTE
  }

  function TwoByteCode(vote: Vote): U16 {
    match vote
    case Abstain => ABSTAIN_TWO_BYTES
    case Alarm => ALARM_TWO_BYTES
    case Upvote(index) => index
  }

  /** The low byte of an index, which is all of it when one byte is enough. */
  function OneByteCode(vote: Vote): Byte {
    match vote
    case Abstain => ABSTAIN_ONE_BYTE
    case Alarm => ALARM_ONE_BYTE
    case Upvote(index) => index % 256
  }

  function FromVotes(votes: seq<Vote>): M4AckBundles {
    if NeedsTwoBytes(votes) then TwoBytes(seq(|votes|, i requires 0 <= i < |votes| => TwoByteCode(votes[i])))
    else OneByte(seq(|votes|, i requires 0 <= i < |votes| => OneByteCode(votes[i])))
  }

  // ----- Reading back

  function Widen(code: Byte): U16 {
    if code == ABSTAIN_ONE_BYTE then ABSTAIN_TWO_BYTES
    else if code == ALARM_ONE_BYTE then ALARM_TWO_BYTES
    else code
  }

  /** The two-byte codes of a message that lists votes. */
  function Codes(m4: M4AckBundles): seq<U16>
    requires m4.OneByte? || m4.TwoBytes?
  {
    match m4
    case OneByte(codes) => seq(|codes|, i requires 0 <= i < |codes| => Widen(codes[i]))
    case TwoBytes(codes) => codes
  }

  function VoteOfCode(code: U16): Vote {
    if code == ABSTAIN_TWO_BYTES then Abstain
    else if code == ALARM_TWO_BYTES then Alarm
    else Upvote(code)
  }

  function DecodeVotes(m4: M4AckBundles): seq<Vote>
    requires m4.OneByte? || m4.TwoBytes?
  {
    var codes := Codes(m4);
    seq(|codes|, i requires 0 <= i < |codes| => VoteOfCode(codes[i]))
  }

  /** An upvote whose index is not one of the two-byte sentinels. */
  predicate Encodable(vote: Vote) {
    vote.Upvote? ==> vote.index < ALARM_TWO_BYTES
  }

  lemma CodeOfFromVotes(votes: seq<Vote>, i: nat)
    requires i < |votes|
    ensures |Codes(FromVotes(votes))| == |votes| && Codes(FromVotes(votes))[i] == TwoByteCode(votes[i])
  {
  }

  /** Encoding loses nothing exactly when no upvote names index 0xFFFE or 0xFFFF,
      which read as alarm and abstain. */
  lemma VotesRoundTrip(votes: seq<Vote>)
    ensures DecodeVotes(FromVotes(votes)) == votes <==> forall i | 0 <= i < |votes| :: Encodable(votes[i])
  {
    var decoded := DecodeVotes(FromVotes(votes));
    forall i | 0 <= i < |votes|
      ensures |decoded| == |votes| && (decoded[i] == votes[i] <==> Encodable(votes[i]))
    {
      CodeOfFromVotes(votes, i);
    }
    assert |votes| == 0 ==> decoded == [];
  }

  /** The wide form is used exactly when an index exceeds 0xFD, and then carries
      a code above 253, as the validator demands of it. */
  lemma WideOnlyWhenNeeded(votes: seq<Vote>)
    ensures FromVotes(votes).TwoBytes? <==> NeedsTwoBytes(votes)
    ensures FromVotes(votes).TwoBytes? ==>
      exists i | 0 <= i < |votes| :: FromVotes(votes).twoBytes[i] > 253
  {
    if NeedsTwoBytes(votes) {
      var i :| 0 <= i < |votes| && votes[i].Upvote? && votes[i].index > MAX_ONE_BYTE_UPVOTE;
      assert FromVotes(votes).twoBytes[i] > 253;
    }
  }

  /** One sidechain's view when votes are chosen. */
  datatype View = View(pending: seq<Txid>, acked: set<Txid>, ours: set<Txid>)

  function ChooseVotes(policy: Policy, views: seq<View>): seq<Vote> {
    seq(|views|, i requires 0 <= i < |views| => Resolve(policy, views[i].pending, views[i].acked, views[i].ours))
  }

  /** From choice to chain and back: with fewer than 0xFFFE bundles pending per
      sidechain, the printed M4 parses and decodes to the chosen votes, and each
      upvote names a bundle that is pending. */
  lemma VotesEndToEnd(policy: Policy, views: seq<View>)
    requires forall i | 0 <= i < |views| :: |views[i].pending| < 0xFFFE
    requires Printable(M4(FromVotes(ChooseVotes(policy, views))))
    ensures var votes := ChooseVotes(policy, views);
      && Parse(Print(M4(FromVotes(votes)))) == Some(M4(FromVotes(votes)))
      && DecodeVotes(FromVotes(votes)) == votes
      && forall i | 0 <= i < |views| ::
           && Backs(policy, views[i].pending, views[i].acked, views[i].ours, votes[i])
           && (votes[i].Upvote? ==> votes[i].index < |views[i].pending|)
  {
    var votes := ChooseVotes(policy, views);
    PrintRoundTrip(M4(FromVotes(votes)));
    ChosenBack(policy, views);
    ChosenEncodable(policy, views);
    VotesRoundTrip(votes);
  }

  lemma ChosenBack(policy: Policy, views: seq<View>)
    requires forall i | 0 <= i < |views| :: |views[i].pending| < 0xFFFE
    ensures var votes := ChooseVotes(policy, views);
      forall i | 0 <= i < |views| ::
        && Backs(policy, views[i].pending, views[i].acked, views[i].ours, votes[i])
        && (votes[i].Upvote? ==> votes[i].index < |views[i].pending|)
  {
    var votes := ChooseVotes(policy, views);
    forall i | 0 <= i < |views|
      ensures Backs(policy, views[i].pending, views[i].acked, views[i].ours, votes[i])
      ensures votes[i].Upvote? ==> votes[i].index < |views[i].pending|
    {
      ResolveBacks(policy, views[i].pending, views[i].acked, views[i].ours, votes[i]);
    }
  }

  lemma ChosenEncodable(policy: Policy, views: seq<View>)
    requires forall i | 0 <= i < |views| :: |views[i].pending| < 0xFFFE
    ensures var votes := ChooseVotes(policy, views);
      forall i | 0 <= i < |votes| :: Encodable(votes[i])
  {
    ChosenBack(policy, views);
  }
}
