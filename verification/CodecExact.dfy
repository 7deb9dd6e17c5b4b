/** The decoder of stored bundles accepts nothing but the two frames: whatever it
    reads encodes to the bytes it was read from. */
module CodecExact {
  import opened Prelude
  import opened Encoding
  import opened Script
  import opened Transactions
  import opened TxCodec
  import BlindedM6

  lemma {:induction false} LittleEndianOfValue(s: Bytes)
    ensures LittleEndianValue(s) < Pow256(|s|) && LittleEndian(LittleEndianValue(s), |s|) == s
  {
    if s != [] {
      var v := LittleEndianValue(s[1..]);
      LittleEndianOfValue(s[1..]);
      DivMod256(v, s[0], Pow256(|s| - 1));
      assert s == [s[0]] + s[1..];
    }
  }

  lemma NumberExact(bytes: Bytes, k: nat)
    requires DecodeLittleEndian(bytes, k).Some?
    ensures var d := DecodeLittleEndian(bytes, k).value;
      bytes == LittleEndian(d.value, k) + d.rest && d.value < Pow256(k)
  {
    LittleEndianOfValue(bytes[..k]);
    assert bytes == bytes[..k] + bytes[k..];
  }

  lemma PrefixedExact(prefix: Byte, bytes: Bytes, k: nat)
    requires bytes != [] && bytes[0] == prefix && DecodeLittleEndian(bytes[1..], k).Some?
    ensures var d := DecodeLittleEndian(bytes[1..], k).value;
      bytes == ([prefix] + LittleEndian(d.value, k)) + d.rest && d.value < Pow256(k)
  {
    NumberExact(bytes[1..], k);
    assert bytes == [prefix] + bytes[1..];
  }

  /** Lengths are read in their shortest form only. */
  lemma CompactSizeExact(bytes: Bytes)
    requires DecodeCompactSize(bytes).Some?
    ensures var d := DecodeCompactSize(bytes).value;
      bytes == CompactSize(d.value) + d.rest && d.value <= U64_MAX
  {
    Pow256Values();
    if bytes[0] < 0xFD {
      assert bytes == [bytes[0]] + bytes[1..];
    } else if bytes[0] == 0xFD {
      PrefixedExact(0xFD, bytes, 2);
    } else if bytes[0] == 0xFE {
      PrefixedExact(0xFE, bytes, 4);
    } else {
      PrefixedExact(0xFF, bytes, 8);
    }
  }

  lemma BytesExact(bytes: Bytes)
    requires DecodeBytes(bytes).Some?
    ensures var d := DecodeBytes(bytes).value;
      bytes == EncodeBytes(d.value) + d.rest && |d.value| <= U64_MAX
  {
    CompactSizeExact(bytes);
    var d := DecodeCompactSize(bytes).value;
    assert d.rest == d.rest[..d.value] + d.rest[d.value..];
  }

  lemma TxOutExact(bytes: Bytes)
    requires DecodeTxOut(bytes).Some?
    ensures var d := DecodeTxOut(bytes).value;
      bytes == EncodeTxOut(d.value) + d.rest && FitsTxOut(d.value)
  {
    Pow256Values();
    NumberExact(bytes, 8);
    var value := DecodeLittleEndian(bytes, 8).value;
    BytesExact(value.rest);
    var d := DecodeTxOut(bytes).value;
    assert bytes == LittleEndian(value.value, 8) + (EncodeBytes(d.value.script) + d.rest);
  }

  lemma {:induction false} TxOutsExact(n: nat, bytes: Bytes)
    requires DecodeTxOuts(n, bytes).Some?
    ensures var d := DecodeTxOuts(n, bytes).value;
      && |d.value| == n && bytes == EncodeTxOuts(d.value) + d.rest
      && forall o | o in d.value :: FitsTxOut(o)
  {
    var d := DecodeTxOuts(n, bytes).value;
    if n == 0 {
      assert bytes == [] + bytes;
    } else {
      TxOutExact(bytes);
      var first := DecodeTxOut(bytes).value;
      TxOutsExact(n - 1, first.rest);
      assert d.value[1..] == DecodeTxOuts(n - 1, first.rest).value.value;
      assert bytes == EncodeTxOut(first.value) + (EncodeTxOuts(d.value[1..]) + d.rest);
    }
  }

  /** A tail without inputs is a list of outputs and a lock time, to the last
      byte. */
  lemma TailExact(version: nat, bytes: Bytes, segwit: bool)
    requires DecodeTail(version, [], bytes, segwit).Some?
    ensures var tx := DecodeTail(version, [], bytes, segwit).value;
      && tx.version == version && tx.inputs == []
      && bytes == CompactSize(|tx.outputs|) + (EncodeTxOuts(tx.outputs) + LittleEndian(tx.lockTime, 4))
      && (version <= U32_MAX ==> Fits(tx))
  {
    Pow256Values();
    CompactSizeExact(bytes);
    var count := DecodeCompactSize(bytes).value;
    TxOutsExact(count.value, count.rest);
    var outputs := DecodeTxOuts(count.value, count.rest).value;
    NumberExact(outputs.rest, 4);
    var lockTime := DecodeLittleEndian(outputs.rest, 4).value;
    assert lockTime.rest == [];
    assert LittleEndian(lockTime.value, 4) + [] == LittleEndian(lockTime.value, 4);
  }

  lemma NoInputs(bytes: Bytes)
    requires DecodeInputVec(bytes).Some? && DecodeInputVec(bytes).value.value == []
    ensures bytes == [0x00] + DecodeInputVec(bytes).value.rest
  {
    CompactSizeExact(bytes);
    var n := DecodeCompactSize(bytes).value;
    assert n.value == 0;
  }

  lemma StandardExact(bytes: Bytes)
    requires DecodeStandard(bytes).Some? && DecodeStandard(bytes).value.inputs == []
    ensures Fits(DecodeStandard(bytes).value) && bytes == EncodeStandard(DecodeStandard(bytes).value)
  {
    Pow256Values();
    var tx := DecodeStandard(bytes).value;
    NumberExact(bytes, 4);
    var version := DecodeLittleEndian(bytes, 4).value;
    var marker := DecodeInputVec(version.rest).value;
    TailInputs(version.value, marker.value, marker.rest, false);
    NoInputs(version.rest);
    var flag := marker.rest;
    var inputs := DecodeInputVec(flag[1..]).value;
    TailInputs(version.value, inputs.value, inputs.rest, true);
    NoInputs(flag[1..]);
    TailExact(version.value, inputs.rest, true);
    assert flag == [0x01] + flag[1..];
    assert version.rest == [0x00, 0x01, 0x00] + inputs.rest;
  }

  lemma TailInputs(version: nat, inputs: seq<TxIn>, bytes: Bytes, segwit: bool)
    ensures DecodeTail(version, inputs, bytes, segwit).Some? ==>
      DecodeTail(version, inputs, bytes, segwit).value.inputs == inputs
  {
  }

  lemma LegacyExact(bytes: Bytes)
    requires DecodeLegacy(bytes).Some?
    ensures var tx := DecodeLegacy(bytes).value;
      tx.inputs == [] && Fits(tx) && bytes == EncodeLegacy(tx)
  {
    Pow256Values();
    NumberExact(bytes, 4);
    var version := DecodeLittleEndian(bytes, 4).value;
    CompactSizeExact(version.rest);
    var n := DecodeCompactSize(version.rest).value;
    TailExact(version.value, n.rest, false);
  }

  /** A bundle, which has no inputs, is read from the bytes of its standard or its
      legacy frame, and from no others. */
  lemma ReadExactly(bytes: Bytes, tx: Transaction)
    requires DecodeEither(bytes) == Some(tx) && tx.inputs == []
    ensures Fits(tx) && (bytes == EncodeStandard(tx) || bytes == EncodeLegacy(tx))
  {
    if DecodeStandard(bytes).Some? { StandardExact(bytes); } else { LegacyExact(bytes); }
  }

  /** Every list of payouts with a sum that is positive and fits 64 bits makes a
      bundle, with any fee that fits. */
  lemma CanonicalIsBundle(version: nat, lockTime: nat, fee: nat, payouts: seq<TxOut>)
    requires fee <= U64_MAX && 0 < TotalOut(payouts) <= U64_MAX
    ensures var tx := Transaction(version, lockTime, [], [BlindedM6.FeeOutput(fee)] + payouts);
      BlindedM6.TryFrom(tx) == Ok(BlindedM6.Bundle(fee, TotalOut(payouts), tx))
  {
    Pow256Values();
    var outputs := [BlindedM6.FeeOutput(fee)] + payouts;
    assert outputs[1..] == payouts;
    OpReturnRoundTrip(BigEndian(fee, 8));
    BigEndianRoundTrip(fee, 8);
  }
}
