/** Coinbase messages of BIP 300 and BIP 301, and their encoding as `OP_RETURN`
    outputs. */
module Messages {
  import opened Prelude
  import opened Encoding
  import opened Script
  import opened Transactions

  type U16 = v: int | 0 <= v <= 0xFFFF

  datatype M4AckBundles =
    | RepeatPrevious
    | OneByte(oneByte: seq<Byte>)
    | TwoBytes(twoBytes: seq<U16>)
    | LeadingBy50

  datatype Message =
    | M1ProposeSidechain(slot: Slot, description: Bytes)
    | M2AckSidechain(slot: Slot, hash: Bytes)
    | M3ProposeBundle(slot: Slot, m6id: Txid)
    | M4(votes: M4AckBundles)
    | M7BmmAccept(slot: Slot, commitment: Bytes)

  const M1_TAG: Bytes := [0xD5, 0xE0, 0xC4, 0xAF]
  const M2_TAG: Bytes := [0xD6, 0xE1, 0xC5, 0xDF]
  const M3_TAG: Bytes := [0xD4, 0x5A, 0xA9, 0x43]
  const M4_TAG: Bytes := [0xD7, 0x7D, 0x17, 0x76]
  const M7_TAG: Bytes := [0xD1, 0x61, 0x73, 0x68]

  /** Hashes and commitments are 32 bytes. */
  predicate WellTyped(m: Message) {
    match m
    case M2AckSidechain(_, hash) => |hash| == 32
    case M3ProposeBundle(_, m6id) => |m6id| == 32
    case M7BmmAccept(_, commitment) => |commitment| == 32
    case _ => true
  }

  // ----- Printing

  function EncodeU16s(votes: seq<U16>): Bytes {
    if votes == [] then [] else LittleEndian(votes[0], 2) + EncodeU16s(votes[1..])
  }

  function M4Data(m4: M4AckBundles): Bytes {
    match m4
    case RepeatPrevious => [0x00]
    case OneByte(votes) => [0x01] + votes
    case TwoBytes(votes) => [0x02] + EncodeU16s(votes)
    case LeadingBy50 => [0x03]
  }

  function Data(m: Message): Bytes {
    match m
    case M1ProposeSidechain(slot, description) => M1_TAG + ([slot] + description)
    case M2AckSidechain(slot, hash) => M2_TAG + ([slot] + hash)
    case M3ProposeBundle(slot, m6id) => M3_TAG + ([slot] + m6id)
    case M4(votes) => M4_TAG + M4Data(votes)
    case M7BmmAccept(slot, commitment) => M7_TAG + ([slot] + commitment)
  }

  function DataLength(m: Message): nat {
    match m
    case M1ProposeSidechain(_, description) => 5 + |description|
    case M2AckSidechain(_, hash) => 5 + |hash|
    case M3ProposeBundle(_, m6id) => 5 + |m6id|
    case M4(OneByte(votes)) => 5 + |votes|
    case M4(TwoBytes(votes)) => 5 + 2 * |votes|
    case M4(_) => 5
    case M7BmmAccept(_, commitment) => 5 + |commitment|
  }

  lemma {:induction false} U16sLength(votes: seq<U16>)
    ensures |EncodeU16s(votes)| == 2 * |votes|
  {
    if votes != [] { U16sLength(votes[1..]); }
  }

  lemma DataLengthIs(m: Message)
    ensures |Data(m)| == DataLength(m)
  {
    if m.M4? && m.votes.TwoBytes? { U16sLength(m.votes.twoBytes); }
  }

  /** Whether the message fits one push; only an absurdly long one does not. */
  predicate Printable(m: Message) {
    DataLength(m) <= U32_MAX
  }

  function Print(m: Message): Bytes
    requires Printable(m)
  {
    DataLengthIs(m);
    OpReturn(Data(m))
  }

  /** What a message carries besides its slot. */
  function Payload(m: Message): Bytes
    requires !m.M4?
  {
    match m
    case M1ProposeSidechain(_, description) => description
    case M2AckSidechain(_, hash) => hash
    case M3ProposeBundle(_, m6id) => m6id
    case M7BmmAccept(_, commitment) => commitment
  }

  /** The bytes of the short messages, and the tags of all. */
  lemma MessageBytes(m: Message)
    requires Printable(m)
    ensures Data(m)[..4] ==
      match m
      case M1ProposeSidechain(_, _) => [0xD5, 0xE0, 0xC4, 0xAF]
      case M2AckSidechain(_, _) => [0xD6, 0xE1, 0xC5, 0xDF]
      case M3ProposeBundle(_, _) => [0xD4, 0x5A, 0xA9, 0x43]
      case M4(_) => [0xD7, 0x7D, 0x17, 0x76]
      case M7BmmAccept(_, _) => [0xD1, 0x61, 0x73, 0x68]
    ensures |Data(m)| < 76 ==> Print(m) == [0x6A, |Data(m)|] + Data(m)
    ensures !m.M4? ==> Data(m)[4..] == [m.slot] + Payload(m)
  {
  }

  // ----- Parsing

  function PairValue(low: int, high: int): U16
    requires 0 <= low < 256 && 0 <= high < 256
  {
    low + 256 * high
  }

  function DecodeU16s(bytes: Bytes): Option<seq<U16>> {
    if bytes == [] then Some([])
    else if |bytes| == 1 then None
    else
      match DecodeU16s(bytes[2..])
      case None => None
      case Some(rest) => Some([PairValue(bytes[0], bytes[1])] + rest)
  }

  function ParseM4(body: Bytes): Option<M4AckBundles> {
    if body == [] then None
    else if body[0] == 0x00 then (if |body| == 1 then Some(RepeatPrevious) else None)
    else if body[0] == 0x01 then Some(OneByte(body[1..]))
    else if body[0] == 0x02 then
      (match DecodeU16s(body[1..]) case None => None case Some(votes) => Some(TwoBytes(votes)))
    else if body[0] == 0x03 then (if |body| == 1 then Some(LeadingBy50) else None)
    else None
  }

  predicate HasTag(data: Bytes, tag: Bytes)
    requires |data| >= 4 && |tag| == 4
  {
    data[0] == tag[0] && data[1] == tag[1] && data[2] == tag[2] && data[3] == tag[3]
  }

  function ParseData(data: Bytes): Option<Message> {
    if |data| < 4 then None
    else if HasTag(data, M1_TAG) then
      if |data| < 5 then None else Some(M1ProposeSidechain(data[4], data[5..]))
    else if HasTag(data, M2_TAG) then
      if |data| != 37 then None else Some(M2AckSidechain(data[4], data[5..]))
    else if HasTag(data, M3_TAG) then
      if |data| != 37 then None else Some(M3ProposeBundle(data[4], data[5..]))
    else if HasTag(data, M4_TAG) then
      (match ParseM4(data[4..]) case None => None case Some(votes) => Some(M4(votes)))
    else if HasTag(data, M7_TAG) then
      if |data| != 37 then None else Some(M7BmmAccept(data[4], data[5..]))
    else None
  }

  function Parse(script: Bytes): Option<Message> {
    match ParseOpReturn(script)
    case None => None
    case Some(data) => ParseData(data)
  }

  lemma {:induction false} U16sRoundTrip(votes: seq<U16>)
    ensures DecodeU16s(EncodeU16s(votes)) == Some(votes)
  {
    if votes != [] {
      var v := votes[0];
      var bytes := EncodeU16s(votes);
      assert LittleEndian(v, 2) == [v % 256, v / 256] by {
        assert LittleEndian(v / 256, 1) == [v / 256 % 256] + LittleEndian(v / 256 / 256, 0);
      }
      assert bytes[2..] == EncodeU16s(votes[1..]);
      U16sRoundTrip(votes[1..]);
      assert votes == [v] + votes[1..];
    }
  }

  lemma {:induction false} U16sOfBytes(bytes: Bytes)
    ensures var r := DecodeU16s(bytes);
      r.Some? ==> EncodeU16s(r.value) == bytes
  {
    if |bytes| >= 2 {
      U16sOfBytes(bytes[2..]);
      var v := PairValue(bytes[0], bytes[1]);
      assert LittleEndian(v, 2) == [bytes[0], bytes[1]] by {
        assert v % 256 == bytes[0] && v / 256 == bytes[1];
        assert LittleEndian(v / 256, 1) == [v / 256 % 256] + LittleEndian(v / 256 / 256, 0);
      }
      if DecodeU16s(bytes).Some? {
        assert DecodeU16s(bytes).value[1..] == DecodeU16s(bytes[2..]).value;
        assert bytes == [bytes[0], bytes[1]] + bytes[2..];
      }
    }
  }

  lemma M4RoundTrip(m4: M4AckBundles)
    ensures ParseM4(M4Data(m4)) == Some(m4)
  {
    match m4
    case OneByte(votes) => assert M4Data(m4)[1..] == votes;
    case TwoBytes(votes) =>
      U16sRoundTrip(votes);
      assert M4Data(m4)[1..] == EncodeU16s(votes);
    case _ =>
  }

  /** Every message reads back from the data that prints it. */
  lemma DataRoundTrip(m: Message)
    requires WellTyped(m)
    ensures ParseData(Data(m)) == Some(m)
  {
    var data := Data(m);
    match m
    case M1ProposeSidechain(slot, description) => assert data[5..] == description;
    case M2AckSidechain(slot, hash) => assert data[5..] == hash;
    case M3ProposeBundle(slot, m6id) => assert data[5..] == m6id;
    case M4(votes) =>
      M4RoundTrip(votes);
      assert data[4..] == M4Data(votes);
    case M7BmmAccept(slot, commitment) => assert data[5..] == commitment;
  }

  /** And the data is the only one that reads as the message: no trailing or
      alternative bytes are accepted. */
  lemma ParseDataExact(data: Bytes)
    ensures var r := ParseData(data);
      r.Some? ==> WellTyped(r.value) && Data(r.value) == data
  {
    var r := ParseData(data);
    if r.Some? {
      assert data == [data[0], data[1], data[2], data[3]] + data[4..];
      if r.value.M4? {
        ParseM4Exact(data[4..]);
      } else {
        assert data[4..] == [data[4]] + data[5..];
      }
    }
  }

  lemma ParseM4Exact(body: Bytes)
    ensures var r := ParseM4(body);
      r.Some? ==> M4Data(r.value) == body
  {
    var r := ParseM4(body);
    if r.Some? {
      assert body == [body[0]] + body[1..];
      if r.value.TwoBytes? { U16sOfBytes(body[1..]); }
    }
  }

  /** A printed message reads back as itself. */
  lemma PrintRoundTrip(m: Message)
    requires WellTyped(m) && Printable(m)
    ensures Parse(Print(m)) == Some(m)
  {
    DataLengthIs(m);
    OpReturnRoundTrip(Data(m));
    DataRoundTrip(m);
  }

  method PrintOutput(m: Message) returns (r: Option<TxOut>)
    requires WellTyped(m)
    ensures r.Some? <==> Printable(m)
    ensures r.Some? ==> r.value.value == 0 && Parse(r.value.script) == Some(m)
  {
    if !Printable(m) { return None; }
    PrintRoundTrip(m);
    r := Some(TxOut(0, Print(m)));
  }
}
