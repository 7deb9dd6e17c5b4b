/** The parts of Bitcoin Script that drivechain messages use: data pushes,
    the instruction reader, `OP_RETURN <push>` scripts and treasury scripts. */
module Script {
  import opened Prelude
  import opened Encoding

  const OP_PUSHBYTES_1: Byte := 0x01
  const OP_PUSHDATA1: Byte := 0x4C
  const OP_PUSHDATA2: Byte := 0x4D
  const OP_PUSHDATA4: Byte := 0x4E
  const OP_TRUE: Byte := 0x51
  const OP_RETURN: Byte := 0x6A

  /** The longest push a script can carry. */
  predicate Pushable(data: Bytes) {
    |data| <= U32_MAX
  }

  /** The shortest push of `data`, as script builders emit it. */
  function PushSlice(data: Bytes): Bytes
    requires Pushable(data)
  {
    if |data| < 0x4C then [|data|] + data
    else if |data| <= 0xFF then [OP_PUSHDATA1, |data|] + data
    else if |data| <= U16_MAX then [OP_PUSHDATA2] + (LittleEndian(|data|, 2) + data)
    else [OP_PUSHDATA4] + (LittleEndian(|data|, 4) + data)
  }

  function OpReturn(data: Bytes): Bytes
    requires Pushable(data)
  {
    [OP_RETURN] + PushSlice(data)
  }

  datatype Instruction = Op(code: Byte) | PushBytes(data: Bytes)

  /** What the instruction reader finds next. */
  datatype Next = End | Malformed | Next(instruction: Instruction, rest: Bytes)

  function TakePush(script: Bytes, n: nat): Next {
    if |script| < n then Malformed else Next.Next(PushBytes(script[..n]), script[n..])
  }

  /** The number of length bytes that follow a push-data opcode. */
  function LengthBytes(opcode: Byte): nat {
    if opcode == OP_PUSHDATA1 then 1 else if opcode == OP_PUSHDATA2 then 2 else 4
  }

  /** Reads one instruction; non-minimal pushes are accepted. */
  function NextInstruction(script: Bytes): Next {
    if script == [] then End
    else if script[0] < OP_PUSHDATA1 then TakePush(script[1..], script[0])
    else if script[0] <= OP_PUSHDATA4 then
      match DecodeLittleEndian(script[1..], LengthBytes(script[0]))
      case None => Malformed
      case Some(Parsed(n, rest)) => TakePush(rest, n)
    else Next.Next(Op(script[0]), script[1..])
  }

  /** The pushed data of a script that is exactly `OP_RETURN <push>`. */
  function ParseOpReturn(script: Bytes): Option<Bytes> {
    match NextInstruction(script)
    case Next(Op(code), rest) =>
      if code != OP_RETURN then None
      else (match NextInstruction(rest)
            case Next(PushBytes(data), rest') =>
              if NextInstruction(rest') == End then Some(data) else None
            case _ => None)
    case _ => None
  }

  lemma TakePushReads(data: Bytes, rest: Bytes)
    ensures TakePush(data + rest, |data|) == Next.Next(PushBytes(data), rest)
  {
    assert (data + rest)[..|data|] == data && (data + rest)[|data|..] == rest;
  }

  /** A push-data opcode with its length bytes reads back the data. */
  lemma PushDataReads(opcode: Byte, length: Bytes, data: Bytes, rest: Bytes)
    requires OP_PUSHDATA1 <= opcode <= OP_PUSHDATA4
    requires DecodeLittleEndian(length + (data + rest), LengthBytes(opcode)) == Some(Parsed(|data|, data + rest))
    ensures NextInstruction(([opcode] + (length + data)) + rest) == Next.Next(PushBytes(data), rest)
  {
    var script := ([opcode] + (length + data)) + rest;
    assert script[1..] == length + (data + rest);
    TakePushReads(data, rest);
  }

  lemma LittleEndianByte(n: nat)
    requires n < 256
    ensures LittleEndian(n, 1) == [n]
  {
    assert LittleEndian(n / 256, 0) == [];
  }

  lemma DirectPushReads(data: Bytes, rest: Bytes)
    requires |data| < 0x4C
    ensures NextInstruction(PushSlice(data) + rest) == Next.Next(PushBytes(data), rest)
  {
    assert (PushSlice(data) + rest)[1..] == data + rest;
    TakePushReads(data, rest);
  }

  lemma OneByteLengthReads(n: nat, rest: Bytes)
    requires n < 256
    ensures DecodeLittleEndian([n] + rest, LengthBytes(OP_PUSHDATA1)) == Some(Parsed(n, rest))
  {
    LittleEndianByte(n);
    Pow256Values();
    assert Pow256(1) == 256;
    DecodeLittleEndianRoundTrip(n, 1, rest);
  }

  lemma ShortPushReads(data: Bytes, rest: Bytes)
    requires |data| <= 0xFF
    ensures NextInstruction(PushSlice(data) + rest) == Next.Next(PushBytes(data), rest)
  {
    if |data| < 0x4C {
      DirectPushReads(data, rest);
    } else {
      OneByteLengthReads(|data|, data + rest);
      PushDataReads(OP_PUSHDATA1, [|data|], data, rest);
      assert PushSlice(data) == [OP_PUSHDATA1] + ([|data|] + data);
    }
  }

  lemma PushSliceReads(data: Bytes, rest: Bytes)
    requires Pushable(data)
    ensures NextInstruction(PushSlice(data) + rest) == Next.Next(PushBytes(data), rest)
  {
    Pow256Values();
    if |data| <= 0xFF {
      ShortPushReads(data, rest);
    } else if |data| <= U16_MAX {
      DecodeLittleEndianRoundTrip(|data|, 2, data + rest);
      PushDataReads(OP_PUSHDATA2, LittleEndian(|data|, 2), data, rest);
    } else {
      DecodeLittleEndianRoundTrip(|data|, 4, data + rest);
      PushDataReads(OP_PUSHDATA4, LittleEndian(|data|, 4), data, rest);
    }
  }

  lemma OpReturnRoundTrip(data: Bytes)
    requires Pushable(data)
    ensures ParseOpReturn(OpReturn(data)) == Some(data)
  {
    PushSliceReads(data, []);
    assert PushSlice(data) + [] == PushSlice(data);
    assert OpReturn(data)[1..] == PushSlice(data);
  }

  /** Of all scripts that read as `OP_RETURN <8 bytes>`, the canonical one is
      the one with no push-data opcode, hence the one of ten bytes. */
  lemma CanonicalOpReturn(script: Bytes)
    requires ParseOpReturn(script).Some? && |ParseOpReturn(script).value| == 8
    ensures script == OpReturn(ParseOpReturn(script).value) <==> |script| == 10
  {
    var data := ParseOpReturn(script).value;
    var push := script[1..];
    assert script == [OP_RETURN] + push;
    assert NextInstruction(push).Next? && NextInstruction(push).instruction == PushBytes(data);
    assert NextInstruction(push).rest == [];
    if push[0] < OP_PUSHDATA1 {
      assert push == [push[0]] + push[1..][..8] + push[1..][8..];
    }
  }

  // ----- Treasury scripts

  /** `OP_DRIVECHAIN OP_PUSHBYTES_1 <slot> OP_TRUE`. */
  function TreasuryScript(op: Byte, slot: Slot): Bytes {
    [op, OP_PUSHBYTES_1, slot, OP_TRUE]
  }

  /** The slot of a treasury script under the network's opcode. */
  function ParseTreasuryScript(op: Byte, script: Bytes): Option<Slot> {
    if |script| == 4 && script[0] == op && script[1] == OP_PUSHBYTES_1 && script[3] == OP_TRUE
    then Some(script[2]) else None
  }

  lemma TreasuryScriptRoundTrip(op: Byte, script: Bytes, slot: Slot)
    ensures ParseTreasuryScript(op, script) == Some(slot) <==> script == TreasuryScript(op, slot)
  {
    if ParseTreasuryScript(op, script) == Some(slot) {
      assert script == [script[0], script[1], script[2], script[3]];
    }
  }
}
