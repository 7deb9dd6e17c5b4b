/** The consensus encoding of transactions, with and without the BIP 144
    marker, and the decoder that reads a stored or broadcast bundle back from
    either frame. Witness stacks are read and dropped: no bundle carries any. */
module TxCodec {
  import opened Prelude
  import opened Encoding
  import opened Transactions
  import BlindedM6

  // ----- Outputs

  function EncodeTxOut(o: TxOut): Bytes {
    LittleEndian(o.value, 8) + EncodeBytes(o.script)
  }

  function DecodeTxOut(bytes: Bytes): Option<Parsed<TxOut>> {
    match DecodeLittleEndian(bytes, 8)
    case None => None
    case Some(Parsed(value, rest)) =>
      match DecodeBytes(rest)
      case None => None
      case Some(Parsed(script, rest')) => Some(Parsed(TxOut(value, script), rest'))
  }

  function EncodeTxOuts(outputs: seq<TxOut>): Bytes {
    EncodeMany(EncodeTxOut, outputs)
  }

  function DecodeTxOuts(n: nat, bytes: Bytes): Option<Parsed<seq<TxOut>>> {
    DecodeMany(DecodeTxOut, n, bytes)
  }

  /** The machine widths of an output's fields. */
  predicate FitsTxOut(o: TxOut) {
    o.value <= U64_MAX && |o.script| <= U64_MAX
  }

  lemma TxOutRoundTrip(o: TxOut, rest: Bytes)
    requires FitsTxOut(o)
    ensures DecodeTxOut(EncodeTxOut(o) + rest) == Some(Parsed(o, rest))
  {
    Pow256Values();
    assert EncodeTxOut(o) + rest == LittleEndian(o.value, 8) + (EncodeBytes(o.script) + rest);
    DecodeLittleEndianRoundTrip(o.value, 8, EncodeBytes(o.script) + rest);
    BytesRoundTrip(o.script, rest);
  }

  lemma TxOutsRoundTrip(outputs: seq<TxOut>, rest: Bytes)
    requires forall o | o in outputs :: FitsTxOut(o)
    ensures DecodeTxOuts(|outputs|, EncodeTxOuts(outputs) + rest) == Some(Parsed(outputs, rest))
  {
    forall i, tail | 0 <= i < |outputs| ensures DecodeTxOut(EncodeTxOut(outputs[i]) + tail)
        == Some(Parsed(outputs[i], tail)) {
      TxOutRoundTrip(outputs[i], tail);
    }
    ManyRoundTrip(EncodeTxOut, DecodeTxOut, outputs, rest);
  }

  function DecodeOutputVec(bytes: Bytes): Option<Parsed<seq<TxOut>>> {
    match DecodeCompactSize(bytes)
    case None => None
    case Some(Parsed(n, rest)) => DecodeTxOuts(n, rest)
  }

  // ----- Inputs and witness stacks

  function DecodeTxIn(bytes: Bytes): Option<Parsed<TxIn>> {
    if |bytes| < 36 then None else
    match DecodeBytes(bytes[36..])
    case None => None
    case Some(Parsed(script, rest)) =>
      match DecodeLittleEndian(rest, 4)
      case None => None
      case Some(Parsed(sequence, rest')) =>
        var previous := OutPoint(bytes[..32], LittleEndianValue(bytes[32..36]));
        Some(Parsed(TxIn(previous, script, sequence), rest'))
  }

  function DecodeTxIns(n: nat, bytes: Bytes): Option<Parsed<seq<TxIn>>> {
    DecodeMany(DecodeTxIn, n, bytes)
  }

  function DecodeInputVec(bytes: Bytes): Option<Parsed<seq<TxIn>>> {
    match DecodeCompactSize(bytes)
    case None => None
    case Some(Parsed(n, rest)) => DecodeTxIns(n, rest)
  }

  function SkipItems(n: nat, bytes: Bytes): Option<Bytes> {
    if n == 0 then Some(bytes) else
    match DecodeBytes(bytes)
    case None => None
    case Some(Parsed(_, rest)) => SkipItems(n - 1, rest)
  }

  /** Reads `n` witness stacks; the value says whether any has an item. */
  function DecodeWitnesses(n: nat, bytes: Bytes): Option<Parsed<bool>> {
    if n == 0 then Some(Parsed(false, bytes)) else
    match DecodeCompactSize(bytes)
    case None => None
    case Some(Parsed(items, rest)) =>
      match SkipItems(items, rest)
      case None => None
      case Some(rest') =>
        match DecodeWitnesses(n - 1, rest')
        case None => None
        case Some(Parsed(any, rest'')) => Some(Parsed(any || items > 0, rest''))
  }

  // ----- The standard frame

  /** The standard encoding of a transaction without inputs: the BIP 144 marker
      and flag, then the (empty) input vector. */
  function EncodeStandard(tx: Transaction): Bytes
    requires tx.inputs == []
  {
    LittleEndian(tx.version, 4) + ([0x00, 0x01, 0x00] +
      (CompactSize(|tx.outputs|) + (EncodeTxOuts(tx.outputs) + LittleEndian(tx.lockTime, 4))))
  }

  /** Outputs and lock time, which must end the bytes. */
  function DecodeTail(version: nat, inputs: seq<TxIn>, bytes: Bytes, segwit: bool): Option<Transaction> {
    match DecodeOutputVec(bytes)
    case None => None
    case Some(Parsed(outputs, rest)) =>
      match if segwit then DecodeWitnesses(|inputs|, rest) else Some(Parsed(true, rest))
      case None => None
      case Some(Parsed(any, rest')) =>
        if inputs != [] && !any then None else
        match DecodeLittleEndian(rest', 4)
        case None => None
        case Some(Parsed(lockTime, end)) =>
          if end == [] then Some(Transaction(version, lockTime, inputs, outputs)) else None
  }

  function DecodeStandard(bytes: Bytes): Option<Transaction> {
    match DecodeLittleEndian(bytes, 4)
    case None => None
    case Some(Parsed(version, rest)) =>
      match DecodeInputVec(rest)
      case None => None
      case Some(Parsed(inputs, rest')) =>
        if inputs != [] then DecodeTail(version, inputs, rest', false)
        else if rest' == [] || rest'[0] != 0x01 then None
        else
          match DecodeInputVec(rest'[1..])
          case None => None
          case Some(Parsed(inputs', rest'')) => DecodeTail(version, inputs', rest'', true)
  }

  // ----- The legacy frame of a transaction without inputs

  function EncodeLegacy(tx: Transaction): Bytes
    requires tx.inputs == []
  {
    LittleEndian(tx.version, 4) + ([0x00] +
      (CompactSize(|tx.outputs|) + (EncodeTxOuts(tx.outputs) + LittleEndian(tx.lockTime, 4))))
  }

  function DecodeLegacy(bytes: Bytes): Option<Transaction> {
    match DecodeLittleEndian(bytes, 4)
    case None => None
    case Some(Parsed(version, rest)) =>
      match DecodeCompactSize(rest)
      case None => None
      case Some(Parsed(n, rest')) =>
        if n != 0 then None else DecodeTail(version, [], rest', false)
  }

  /** The standard frame if it reads, the legacy frame otherwise. */
  function DecodeEither(bytes: Bytes): Option<Transaction> {
    match DecodeStandard(bytes)
    case Some(tx) => Some(tx)
    case None => DecodeLegacy(bytes)
  }

  /** The output loop of the decoder: a cursor moves through the bytes one
      output at a time, so an absurd count fails as soon as they run out. */
  method ReadTxOuts(n: nat, bytes: Bytes) returns (r: Option<Parsed<seq<TxOut>>>)
    ensures r == DecodeTxOuts(n, bytes)
  {
    var cursor := bytes;
    var outputs: seq<TxOut> := [];
    PrependNothing(DecodeTxOuts(n, bytes));
    for i := 0 to n
      invariant DecodeTxOuts(n, bytes) == Prepend(outputs, DecodeTxOuts(n - i, cursor))
    {
      var output := DecodeTxOut(cursor);
      if output.None? { return None; }
      PrependStep(outputs, output.value.value, DecodeTxOuts(n - i - 1, output.value.rest));
      outputs := outputs + [output.value.value];
      cursor := output.value.rest;
    }
    assert outputs + [] == outputs;
    r := Some(Parsed(outputs, cursor));
  }

  method DeserializeTx(bytes: Bytes) returns (r: Option<Transaction>)
    ensures r == DecodeEither(bytes)
  {
    r := DecodeStandard(bytes);
    if r.Some? { return; }
    var version := DecodeLittleEndian(bytes, 4);
    if version.None? { return None; }
    var inputCount := DecodeCompactSize(version.value.rest);
    if inputCount.None? || inputCount.value.value != 0 { return None; }
    var outputCount := DecodeCompactSize(inputCount.value.rest);
    if outputCount.None? { return None; }
    var outputs := ReadTxOuts(outputCount.value.value, outputCount.value.rest);
    if outputs.None? { return None; }
    var lockTime := DecodeLittleEndian(outputs.value.rest, 4);
    if lockTime.None? || lockTime.value.rest != [] { return None; }
    r := Some(Transaction(version.value.value, lockTime.value.value, [], outputs.value.value));
  }

  ghost function Prepend(front: seq<TxOut>, p: Option<Parsed<seq<TxOut>>>): Option<Parsed<seq<TxOut>>> {
    match p
    case None => None
    case Some(Parsed(back, rest)) => Some(Parsed(front + back, rest))
  }

  lemma PrependNothing(p: Option<Parsed<seq<TxOut>>>)
    ensures Prepend([], p) == p
  {
    if p.Some? {
      assert [] + p.value.value == p.value.value;
    }
  }

  lemma PrependStep(front: seq<TxOut>, o: TxOut, p: Option<Parsed<seq<TxOut>>>)
    ensures Prepend(front, Prepend([o], p)) == Prepend(front + [o], p)
  {
    if p.Some? {
      assert front + ([o] + p.value.value) == front + [o] + p.value.value;
    }
  }

  // ----- Both frames read back

  /** The machine widths of a transaction's fields. */
  predicate Fits(tx: Transaction) {
    && tx.version <= U32_MAX && tx.lockTime <= U32_MAX && |tx.outputs| <= U64_MAX
    && forall o | o in tx.outputs :: FitsTxOut(o)
  }

  lemma TailRoundTrip(tx: Transaction, segwit: bool)
    requires tx.inputs == [] && Fits(tx)
    ensures DecodeTail(tx.version, [], CompactSize(|tx.outputs|)
                         + (EncodeTxOuts(tx.outputs) + LittleEndian(tx.lockTime, 4)), segwit) == Some(tx)
  {
    Pow256Values();
    var end := LittleEndian(tx.lockTime, 4);
    CompactSizeRoundTrip(|tx.outputs|, EncodeTxOuts(tx.outputs) + end);
    TxOutsRoundTrip(tx.outputs, end);
    DecodeLittleEndianRoundTrip(tx.lockTime, 4, []);
    assert end + [] == end;
  }

  /** Without inputs, marker and flag lead to the rest of the frame. */
  lemma SegwitFrame(version: nat, tail: Bytes)
    requires version <= U32_MAX
    ensures DecodeStandard(LittleEndian(version, 4) + ([0x00, 0x01, 0x00] + tail))
         == DecodeTail(version, [], tail, true)
  {
    Pow256Values();
    var frame := [0x00, 0x01, 0x00] + tail;
    DecodeLittleEndianRoundTrip(version, 4, frame);
    assert frame[1..] == [0x01, 0x00] + tail;
    assert frame[1..][1..] == [0x00] + tail;
    assert ([0x00] + tail)[1..] == tail;
  }

  lemma StandardRoundTrip(tx: Transaction)
    requires tx.inputs == [] && Fits(tx)
    ensures DecodeStandard(EncodeStandard(tx)) == Some(tx)
  {
    SegwitFrame(tx.version, CompactSize(|tx.outputs|) + (EncodeTxOuts(tx.outputs) + LittleEndian(tx.lockTime, 4)));
    TailRoundTrip(tx, true);
  }

  /** The standard decoder refuses the legacy frame unless the output count
      reads as the segwit flag, that is unless there is exactly one output. */
  lemma LegacyIsNotStandard(tx: Transaction)
    requires tx.inputs == [] && Fits(tx) && |tx.outputs| != 1
    ensures DecodeStandard(EncodeLegacy(tx)) == None
  {
    Pow256Values();
    var tail := CompactSize(|tx.outputs|) + (EncodeTxOuts(tx.outputs) + LittleEndian(tx.lockTime, 4));
    DecodeLittleEndianRoundTrip(tx.version, 4, [0x00] + tail);
    assert ([0x00] + tail)[1..] == tail;
    assert tail[0] == CompactSize(|tx.outputs|)[0] != 0x01;
  }

  lemma LegacyRoundTrip(tx: Transaction)
    requires tx.inputs == [] && Fits(tx) && |tx.outputs| != 1
    ensures DecodeEither(EncodeLegacy(tx)) == Some(tx)
  {
    Pow256Values();
    LegacyIsNotStandard(tx);
    var tail := CompactSize(|tx.outputs|) + (EncodeTxOuts(tx.outputs) + LittleEndian(tx.lockTime, 4));
    DecodeLittleEndianRoundTrip(tx.version, 4, [0x00] + tail);
    assert ([0x00] + tail)[1..] == tail;
    TailRoundTrip(tx, false);
  }

  /** Every valid bundle survives both encodings: its nonzero payout forces a
      second output, so the legacy output count never reads as a segwit flag. */
  lemma BundleRoundTrip(b: BlindedM6.Bundle)
    requires BlindedM6.Valid(b) && Fits(b.tx)
    ensures DecodeEither(EncodeStandard(b.tx)) == Some(b.tx)
    ensures DecodeEither(EncodeLegacy(b.tx)) == Some(b.tx)
    ensures BlindedM6.TryFrom(DecodeEither(EncodeStandard(b.tx)).value) == Ok(b)
    ensures BlindedM6.TryFrom(DecodeEither(EncodeLegacy(b.tx)).value) == Ok(b)
  {
    BlindedM6.ValidBundle(b);
    StandardRoundTrip(b.tx);
    LegacyRoundTrip(b.tx);
  }
}
