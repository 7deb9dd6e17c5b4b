/** Transactions, treasury outputs and their weight. */
module Transactions {
  import opened Prelude
  import opened Encoding

  type Txid = Bytes

  datatype OutPoint = OutPoint(txid: Txid, vout: nat)

  datatype TxIn = TxIn(previous: OutPoint, scriptSig: Bytes, sequence: nat)

  datatype TxOut = TxOut(value: nat, script: Bytes)

  datatype Transaction = Transaction(version: nat, lockTime: nat, inputs: seq<TxIn>, outputs: seq<TxOut>)

  /** A treasury UTXO. */
  datatype Ctip = Ctip(outpoint: OutPoint, value: nat)

  /** Transaction ids. Every result holds for any such function; the ones that
      need ids to be collision free say so. */
  type TxidFn = Transaction -> Txid

  ghost predicate CollisionFree(txid: TxidFn) {
    forall a, b :: txid(a) == txid(b) ==> a == b
  }

  /** An input with an empty script and the default sequence number. */
  function Spend(outpoint: OutPoint): TxIn {
    TxIn(outpoint, [], U32_MAX)
  }

  function SpendAll(ctips: seq<Ctip>): seq<TxIn> {
    seq(|ctips|, i requires 0 <= i < |ctips| => Spend(ctips[i].outpoint))
  }

  function TotalOut(outputs: seq<TxOut>): nat {
    if outputs == [] then 0 else outputs[0].value + TotalOut(outputs[1..])
  }

  /** A sum of 64-bit amounts: an overflow is an error. */
  function CheckedTotal(outputs: seq<TxOut>): Option<nat> {
    if TotalOut(outputs) > U64_MAX then None else Some(TotalOut(outputs))
  }

  function TotalValue(ctips: seq<Ctip>): nat {
    if ctips == [] then 0 else TotalValue(ctips[..|ctips| - 1]) + ctips[|ctips| - 1].value
  }

  lemma {:induction false} TotalValueAppend(a: seq<Ctip>, b: seq<Ctip>)
    ensures TotalValue(a + b) == TotalValue(a) + TotalValue(b)
  {
    if b == [] {
      assert a + b == a;
    } else {
      var n := |b| - 1;
      assert (a + b)[..|a + b| - 1] == a + b[..n];
      TotalValueAppend(a, b[..n]);
    }
  }

  lemma SpendAllAppend(a: seq<Ctip>, b: seq<Ctip>)
    ensures SpendAll(a + b) == SpendAll(a) + SpendAll(b)
  {
  }

  /** One more coin. */
  lemma NextCoin(coins: seq<Ctip>, i: nat)
    requires i < |coins|
    ensures SpendAll(coins[..i + 1]) == SpendAll(coins[..i]) + [Spend(coins[i].outpoint)]
    ensures TotalValue(coins[..i + 1]) == TotalValue(coins[..i]) + coins[i].value
  {
    assert coins[..i + 1][..i] == coins[..i];
  }

  // ----- Weight of a transaction without witness data: four units a byte

  function InputsSize(inputs: seq<TxIn>): nat {
    if inputs == [] then 0
    else InputsSize(inputs[..|inputs| - 1]) + 36 + |EncodeBytes(inputs[|inputs| - 1].scriptSig)| + 4
  }

  function OutputsSize(outputs: seq<TxOut>): nat {
    if outputs == [] then 0
    else OutputsSize(outputs[..|outputs| - 1]) + 8 + |EncodeBytes(outputs[|outputs| - 1].script)|
  }

  function Weight(tx: Transaction): nat {
    4 * (4 + CompactSizeLength(|tx.inputs|) + InputsSize(tx.inputs)
           + CompactSizeLength(|tx.outputs|) + OutputsSize(tx.outputs) + 4)
  }
}
