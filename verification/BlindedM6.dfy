/** Withdrawal bundles (M6): the blinded form that is voted on, the finalized
    transaction that spends the treasury, and the id that links the two. */
module BlindedM6 {
  import opened Prelude
  import opened Encoding
  import opened Script
  import opened Transactions

  /** A bundle as it is proposed: no inputs, the fee in an `OP_RETURN` at index
      zero, the payouts behind it. `fee` and `payout` are read off `tx`. */
  datatype Bundle = Bundle(fee: nat, payout: nat, tx: Transaction)

  datatype BundleError =
    | NonEmptyInputs
    | MissingFeeOutput
    | NonZeroFeeValue
    | OutputAmountOverflow
    | ZeroPayout
    | InvalidFeeScript

  function TryFrom(tx: Transaction): Result<Bundle, BundleError> {
    if tx.inputs != [] then Err(NonEmptyInputs)
    else if tx.outputs == [] then Err(MissingFeeOutput)
    else if tx.outputs[0].value != 0 then Err(NonZeroFeeValue)
    else if CheckedTotal(tx.outputs).None? then Err(OutputAmountOverflow)
    else if TotalOut(tx.outputs) == 0 then Err(ZeroPayout)
    else
      match ParseOpReturn(tx.outputs[0].script)
      case None => Err(InvalidFeeScript)
      case Some(fee) =>
        if |fee| != 8 then Err(InvalidFeeScript)
        else Ok(Bundle(BigEndianValue(fee), TotalOut(tx.outputs), tx))
  }

  ghost predicate Valid(b: Bundle) {
    TryFrom(b.tx) == Ok(b)
  }

  /** The fee output that every id computation writes. */
  function FeeOutput(fee: nat): TxOut {
    TxOut(0, OpReturn(BigEndian(fee, 8)))
  }

  predicate CanonicalFeeScript(b: Bundle)
    requires b.tx.outputs != []
  {
    |b.tx.outputs[0].script| == 10
  }

  /** A valid bundle has a fee below 2^64, a nonzero payout and at least one
      output besides the fee; its fee output is the canonical one exactly when
      its script has ten bytes. */
  lemma ValidBundle(b: Bundle)
    requires Valid(b)
    ensures b.fee <= U64_MAX && 0 < b.payout <= U64_MAX
    ensures b.tx.inputs == [] && |b.tx.outputs| >= 2
    ensures b.payout == TotalOut(b.tx.outputs[1..])
    ensures b.tx.outputs[0] == FeeOutput(b.fee) <==> CanonicalFeeScript(b)
  {
    Pow256Values();
    var fee := ParseOpReturn(b.tx.outputs[0].script).value;
    BigEndianOfValue(fee);
    CanonicalOpReturn(b.tx.outputs[0].script);
    assert b.payout == TotalOut(b.tx.outputs[1..]);
    assert b.tx.outputs[1..] != [];
  }

  // ----- Finalizing

  datatype Underflow = Underflow

  /** What finalizing must produce: all treasury inputs, and the remaining
      treasury in place of the fee output. */
  function Finalized(b: Bundle, op: Byte, slot: Slot, ctips: seq<Ctip>): Transaction
    requires b.payout + b.fee <= TotalValue(ctips)
  {
    b.tx.(inputs := SpendAll(ctips),
          outputs := [TxOut(TotalValue(ctips) - b.payout - b.fee, TreasuryScript(op, slot))] + Payouts(b))
  }

  /** The outputs behind the fee. */
  function Payouts(b: Bundle): seq<TxOut> {
    if b.tx.outputs == [] then [] else b.tx.outputs[1..]
  }

  /** Turns a blinded bundle into the transaction that pays it out, or fails
      when the treasury cannot cover it. The treasury inputs are bounded by the
      money supply, which the code takes for granted. */
  method IntoM6(b: Bundle, op: Byte, slot: Slot, consolidated: Ctip, unconsolidated: seq<Ctip>)
    returns (r: Result<Transaction, Underflow>)
    requires Valid(b)
    requires TotalValue([consolidated] + unconsolidated) <= U64_MAX
    ensures r.Ok? <==> b.payout + b.fee <= TotalValue([consolidated] + unconsolidated)
    ensures r.Ok? ==> r.value == Finalized(b, op, slot, [consolidated] + unconsolidated)
  {
    var treasury := consolidated.value;
    var inputs := b.tx.inputs + [Spend(consolidated.outpoint)];
    for i := 0 to |unconsolidated|
      invariant inputs == [Spend(consolidated.outpoint)] + SpendAll(unconsolidated[..i])
      invariant treasury == consolidated.value + TotalValue(unconsolidated[..i])
    {
      NextCoin(unconsolidated, i);
      treasury := treasury + unconsolidated[i].value;
      inputs := inputs + [Spend(unconsolidated[i].outpoint)];
    }
    assert unconsolidated[..|unconsolidated|] == unconsolidated;
    FirstCoin(consolidated, unconsolidated);
    if treasury < b.payout || treasury - b.payout < b.fee {
      return Err(Underflow);
    }
    var outputs := b.tx.outputs[0 := TxOut(treasury - b.payout - b.fee, TreasuryScript(op, slot))];
    assert outputs == [outputs[0]] + b.tx.outputs[1..];
    r := Ok(b.tx.(inputs := inputs, outputs := outputs));
  }

  lemma FirstCoin(first: Ctip, others: seq<Ctip>)
    ensures TotalValue([first] + others) == first.value + TotalValue(others)
    ensures SpendAll([first] + others) == [Spend(first.outpoint)] + SpendAll(others)
  {
    TotalValueAppend([first], others);
    SpendAllAppend([first], others);
    assert [first][..0] == [];
    assert TotalValue([first]) == TotalValue([first][..0]) + first.value;
  }

  // ----- The id of a finalized bundle

  datatype M6idError =
    | MissingTreasuryOutput
    | InvalidSpk
    | MissingTreasuryInputs
    | WithdrawalAmountOverflow
    | TotalOutputAmountOverflow
    | InsufficientTreasury

  /** Blinds a finalized bundle again: drops the treasury inputs and writes the
      fee that the spent treasury value implies at index zero. */
  function Blind(op: Byte, tx: Transaction, treasuryIn: nat): Result<(Transaction, Slot), M6idError> {
    if tx.outputs == [] then Err(MissingTreasuryOutput)
    else if ParseTreasuryScript(op, tx.outputs[0].script).None? then Err(InvalidSpk)
    else if tx.inputs == [] then Err(MissingTreasuryInputs)
    else if CheckedTotal(tx.outputs[1..]).None? then Err(WithdrawalAmountOverflow)
    else
      var out := tx.outputs[0].value + TotalOut(tx.outputs[1..]);
      if out > U64_MAX then Err(TotalOutputAmountOverflow)
      else if out > treasuryIn then Err(InsufficientTreasury)
      else Ok((tx.(inputs := [], outputs := tx.outputs[0 := FeeOutput(treasuryIn - out)]),
               ParseTreasuryScript(op, tx.outputs[0].script).value))
  }

  function ComputeM6id(txid: TxidFn, op: Byte, tx: Transaction, treasuryIn: nat): Result<(Txid, Slot), M6idError> {
    match Blind(op, tx, treasuryIn)
    case Err(e) => Err(e)
    case Ok((blinded, slot)) => Ok((txid(blinded), slot))
  }

  /** The bundle with a canonical fee output. */
  function Reblinded(b: Bundle): Transaction {
    b.tx.(outputs := [FeeOutput(b.fee)] + Payouts(b))
  }

  /** Blinding undoes finalizing, up to the encoding of the fee push: the same
      transaction with a canonical fee output comes back. */
  lemma BlindFinalized(b: Bundle, op: Byte, slot: Slot, ctips: seq<Ctip>)
    requires Valid(b) && ctips != []
    requires b.payout + b.fee <= TotalValue(ctips) <= U64_MAX
    ensures Blind(op, Finalized(b, op, slot, ctips), TotalValue(ctips)) == Ok((Reblinded(b), slot))
  {
    ValidBundle(b);
    var m6 := Finalized(b, op, slot, ctips);
    assert m6.outputs[1..] == b.tx.outputs[1..];
    assert m6.outputs[0 := FeeOutput(b.fee)] == [FeeOutput(b.fee)] + b.tx.outputs[1..];
  }

  /** Unblinding then reblinding gives back the bundle's own id and slot exactly
      when the fee script is canonical. A fee push with a push-data opcode is
      accepted as a bundle, but its finalized transaction has another id. */
  lemma M6idRoundTrip(txid: TxidFn, b: Bundle, op: Byte, slot: Slot, ctips: seq<Ctip>)
    requires CollisionFree(txid)
    requires Valid(b) && ctips != []
    requires b.payout + b.fee <= TotalValue(ctips) <= U64_MAX
    ensures ComputeM6id(txid, op, Finalized(b, op, slot, ctips), TotalValue(ctips)) == Ok((txid(b.tx), slot))
       <==> CanonicalFeeScript(b)
  {
    ValidBundle(b);
    BlindFinalized(b, op, slot, ctips);
    var again := Reblinded(b);
    assert b.tx.outputs == [b.tx.outputs[0]] + b.tx.outputs[1..];
    assert again.outputs[0] == FeeOutput(b.fee);
    assert again == b.tx <==> b.tx.outputs[0] == FeeOutput(b.fee);
    assert txid(again) == txid(b.tx) <==> again == b.tx;
  }

  /** A fee push with OP_PUSHDATA1 reads like the canonical one. */
  lemma PushDataFee(fee: Bytes)
    requires |fee| == 8
    ensures ParseOpReturn([OP_RETURN, OP_PUSHDATA1, 8] + fee) == Some(fee)
  {
    var script := [OP_RETURN, OP_PUSHDATA1, 8] + fee;
    assert script[1..] == [OP_PUSHDATA1] + ([8] + fee);
    assert LittleEndianValue([8]) == 8 by { assert [8][1..] == []; }
    assert ([8] + (fee + []))[..1] == [8] && ([8] + (fee + []))[1..] == fee + [];
    PushDataReads(OP_PUSHDATA1, [8], fee, []);
    assert ([OP_PUSHDATA1] + ([8] + fee)) + [] == script[1..];
  }

  /** A bundle that no canonical fee script could have produced: its fee push
      uses OP_PUSHDATA1. */
  lemma NonCanonicalBundleExists() returns (b: Bundle)
    ensures Valid(b) && !CanonicalFeeScript(b)
  {
    var fee := BigEndian(1000, 8);
    PushDataFee(fee);
    var outputs := [TxOut(0, [OP_RETURN, OP_PUSHDATA1, 8] + fee), TxOut(50_000, [])];
    assert TotalOut(outputs[1..]) == 50_000 by { assert outputs[1..][1..] == []; }
    b := Bundle(BigEndianValue(fee), 50_000, Transaction(2, 0, [], outputs));
  }
}
