/** The four tables that record every treasury UTXO of every slot, and the one
    stack per slot that they implement. */
module Treasury {
  import opened Prelude
  import opened Transactions

  datatype TreasuryUtxo = TreasuryUtxo(outpoint: OutPoint, value: nat, previous: nat)

  /** The treasury history of each slot, oldest first; no stack is empty. */
  type Stacks = map<Slot, seq<TreasuryUtxo>>

  function StackOf(stacks: Stacks, slot: Slot): seq<TreasuryUtxo> {
    if slot in stacks then stacks[slot] else []
  }

  function Top(stack: seq<TreasuryUtxo>): Ctip
    requires stack != []
  {
    Ctip(stack[|stack| - 1].outpoint, stack[|stack| - 1].value)
  }

  function CtipOf(stacks: Stacks, slot: Slot): Option<Ctip> {
    if StackOf(stacks, slot) == [] then None else Some(Top(StackOf(stacks, slot)))
  }

  /** The value the treasury holds before the next UTXO is recorded. */
  function CurrentValue(stacks: Stacks, slot: Slot): nat {
    match CtipOf(stacks, slot) case None => 0 case Some(ctip) => ctip.value
  }

  function Push(stacks: Stacks, slot: Slot, ctip: Ctip): Stacks {
    stacks[slot := StackOf(stacks, slot) + [TreasuryUtxo(ctip.outpoint, ctip.value, CurrentValue(stacks, slot))]]
  }

  function Pop(stacks: Stacks, slot: Slot): Stacks
    requires slot in stacks && stacks[slot] != []
  {
    var stack := stacks[slot];
    if |stack| == 1 then stacks - {slot} else stacks[slot := stack[..|stack| - 1]]
  }

  ghost predicate NonEmptyStacks(stacks: Stacks) {
    forall s | s in stacks :: stacks[s] != []
  }

  /** An outpoint is recorded when it is or ever was a slot's treasury UTXO. */
  ghost predicate Recorded(stacks: Stacks, outpoint: OutPoint) {
    exists s, i :: s in stacks && 0 <= i < |stacks[s]| && stacks[s][i].outpoint == outpoint
  }

  /** What the outpoint index answers: the slot and value of a recorded UTXO. */
  ghost function Find(stacks: Stacks, outpoint: OutPoint): Option<(Slot, nat)> {
    if Recorded(stacks, outpoint) then
      var s, i :| s in stacks && 0 <= i < |stacks[s]| && stacks[s][i].outpoint == outpoint;
      Some((s, stacks[s][i].value))
    else None
  }

  /** Popping undoes pushing, whatever was on the stack before. */
  lemma PopPush(stacks: Stacks, slot: Slot, ctip: Ctip)
    requires NonEmptyStacks(stacks)
    ensures NonEmptyStacks(Push(stacks, slot, ctip))
    ensures Pop(Push(stacks, slot, ctip), slot) == stacks
  {
    var stack := StackOf(stacks, slot);
    assert Push(stacks, slot, ctip)[slot][..|stack|] == stack;
  }

  // ----- How each table follows from the stacks

  type Index = map<OutPoint, (Slot, nat, nat)>
  type Utxos = map<(Slot, nat), TreasuryUtxo>

  ghost predicate HeadsOf(ctip: map<Slot, Ctip>, count: map<Slot, nat>, stacks: Stacks) {
    && NonEmptyStacks(stacks)
    && ctip.Keys == stacks.Keys && count.Keys == stacks.Keys
    && forall s | s in stacks :: count[s] == |stacks[s]| && ctip[s] == Top(stacks[s])
  }

  ghost predicate At(stacks: Stacks, s: Slot, i: nat) {
    s in stacks && i < |stacks[s]|
  }

  lemma AtPush(stacks: Stacks, slot: Slot, ctip: Ctip)
    ensures var stacks' := Push(stacks, slot, ctip); var n := |StackOf(stacks, slot)|;
      forall s: Slot, i: nat ::
        && (At(stacks', s, i) <==> At(stacks, s, i) || (s == slot && i == n))
        && (At(stacks, s, i) ==> stacks'[s][i] == stacks[s][i])
  {
  }

  lemma AtPop(stacks: Stacks, slot: Slot)
    requires slot in stacks && stacks[slot] != []
    ensures var stacks' := Pop(stacks, slot); var n := |stacks[slot]| - 1;
      forall s: Slot, i: nat ::
        && (At(stacks', s, i) <==> At(stacks, s, i) && !(s == slot && i == n))
        && (At(stacks', s, i) ==> stacks'[s][i] == stacks[s][i])
  {
  }

  ghost predicate UtxosOf(utxos: Utxos, stacks: Stacks) {
    && (forall k | k in utxos :: At(stacks, k.0, k.1) && utxos[k] == stacks[k.0][k.1])
    && (forall s: Slot, i: nat | At(stacks, s, i) :: (s, i) in utxos)
  }

  ghost predicate IndexOf(index: Index, stacks: Stacks) {
    && (forall s: Slot, i: nat | At(stacks, s, i) ::
          stacks[s][i].outpoint in index && index[stacks[s][i].outpoint] == (s, stacks[s][i].value, i))
    && (forall o | o in index :: EntryOf(index[o], stacks, o))
  }

  ghost predicate EntryOf(entry: (Slot, nat, nat), stacks: Stacks, o: OutPoint) {
    && At(stacks, entry.0, entry.2)
    && stacks[entry.0][entry.2].outpoint == o && stacks[entry.0][entry.2].value == entry.1
  }

  lemma UtxosPush(utxos: Utxos, stacks: Stacks, slot: Slot, ctip: Ctip)
    requires UtxosOf(utxos, stacks)
    ensures var n := |StackOf(stacks, slot)|;
      UtxosOf(utxos[(slot, n) := Push(stacks, slot, ctip)[slot][n]], Push(stacks, slot, ctip))
  {
    AtPush(stacks, slot, ctip);
  }

  lemma UtxosPop(utxos: Utxos, stacks: Stacks, slot: Slot)
    requires UtxosOf(utxos, stacks) && slot in stacks && stacks[slot] != []
    ensures UtxosOf(utxos - {(slot, |stacks[slot]| - 1)}, Pop(stacks, slot))
  {
    AtPop(stacks, slot);
  }

  /** The index stays in line exactly when the outpoint is new. */
  lemma IndexPush(index: Index, stacks: Stacks, slot: Slot, ctip: Ctip)
    requires IndexOf(index, stacks)
    ensures IndexOf(index[ctip.outpoint := (slot, ctip.value, |StackOf(stacks, slot)|)], Push(stacks, slot, ctip))
       <==> !Recorded(stacks, ctip.outpoint)
  {
    var index' := index[ctip.outpoint := (slot, ctip.value, |StackOf(stacks, slot)|)];
    var stacks' := Push(stacks, slot, ctip);
    AtPush(stacks, slot, ctip);
    if Recorded(stacks, ctip.outpoint) {
      var s: Slot, i: nat :| At(stacks, s, i) && stacks[s][i].outpoint == ctip.outpoint;
      assert At(stacks', s, i) && index'[stacks'[s][i].outpoint] != (s, stacks'[s][i].value, i);
    } else {
      forall o | o in index' ensures EntryOf(index'[o], stacks', o) {
        if o != ctip.outpoint { assert index'[o] == index[o]; }
      }
    }
  }

  lemma IndexPop(index: Index, stacks: Stacks, slot: Slot)
    requires IndexOf(index, stacks) && slot in stacks && stacks[slot] != []
    ensures IndexOf(index - {Top(stacks[slot]).outpoint}, Pop(stacks, slot))
  {
    var index' := index - {Top(stacks[slot]).outpoint};
    var stacks' := Pop(stacks, slot);
    AtPop(stacks, slot);
    forall o | o in index'
      ensures EntryOf(index'[o], stacks', o)
    {
      assert index'[o] == index[o];
      assert index[o].0 == slot ==> index[o].2 != |stacks[slot]| - 1;
    }
  }

  lemma HeadsPush(ctip: map<Slot, Ctip>, count: map<Slot, nat>, stacks: Stacks, slot: Slot, newCtip: Ctip)
    requires HeadsOf(ctip, count, stacks)
    ensures HeadsOf(ctip[slot := newCtip], count[slot := |StackOf(stacks, slot)| + 1], Push(stacks, slot, newCtip))
  {
  }

  lemma HeadsPop(ctip: map<Slot, Ctip>, count: map<Slot, nat>, stacks: Stacks, slot: Slot)
    requires HeadsOf(ctip, count, stacks) && slot in stacks
    ensures var n := count[slot] - 1;
      if n == 0 then HeadsOf(ctip - {slot}, count - {slot}, Pop(stacks, slot))
      else HeadsOf(ctip[slot := Ctip(stacks[slot][n - 1].outpoint, stacks[slot][n - 1].value)],
                   count[slot := n], Pop(stacks, slot))
  {
  }

  /** The tables' contents. */
  datatype Rows = Rows(
    /** The current treasury UTXO of each slot. */
    ctip: map<Slot, Ctip>,
    /** Every recorded outpoint, with its slot, value and sequence number. */
    index: Index,
    utxos: Utxos,
    /** How many UTXOs a slot has had; never zero. */
    count: map<Slot, nat>)

  ghost predicate Represents(rows: Rows, stacks: Stacks) {
    HeadsOf(rows.ctip, rows.count, stacks) && UtxosOf(rows.utxos, stacks) && IndexOf(rows.index, stacks)
  }

  /** The rows left once the top UTXO of a slot is taken back. */
  ghost function PoppedRows(rows: Rows, stacks: Stacks, slot: Slot): Rows
    requires slot in stacks && stacks[slot] != []
  {
    var n := |stacks[slot]| - 1;
    var index := rows.index - {Top(stacks[slot]).outpoint};
    var utxos := rows.utxos - {(slot, n)};
    if n == 0 then Rows(rows.ctip - {slot}, index, utxos, rows.count - {slot})
    else Rows(rows.ctip[slot := Top(stacks[slot][..n])], index, utxos, rows.count[slot := n])
  }

  lemma RowsTop(rows: Rows, stacks: Stacks, slot: Slot)
    requires Represents(rows, stacks) && slot in stacks
    ensures slot in rows.count && rows.count[slot] == |stacks[slot]|
    ensures slot in rows.ctip && rows.ctip[slot] == Top(stacks[slot])
    ensures |stacks[slot]| > 1 ==>
      (slot, |stacks[slot]| - 2) in rows.utxos
          && rows.utxos[(slot, |stacks[slot]| - 2)] == stacks[slot][|stacks[slot]| - 2]
  {
    if |stacks[slot]| > 1 {
      assert At(stacks, slot, |stacks[slot]| - 2);
    }
  }

  lemma PoppedHeads(rows: Rows, stacks: Stacks, slot: Slot)
    requires HeadsOf(rows.ctip, rows.count, stacks) && slot in stacks
    ensures HeadsOf(PoppedRows(rows, stacks, slot).ctip, PoppedRows(rows, stacks, slot).count, Pop(stacks, slot))
  {
    HeadsPop(rows.ctip, rows.count, stacks, slot);
    var n := |stacks[slot]| - 1;
    if n > 0 { assert Top(stacks[slot][..n]) == Ctip(stacks[slot][n - 1].outpoint, stacks[slot][n - 1].value); }
  }

  lemma RowsPop(rows: Rows, stacks: Stacks, slot: Slot)
    requires Represents(rows, stacks) && slot in stacks
    ensures Represents(PoppedRows(rows, stacks, slot), Pop(stacks, slot))
  {
    PoppedHeads(rows, stacks, slot);
    UtxosPop(rows.utxos, stacks, slot);
    IndexPop(rows.index, stacks, slot);
  }

  class Tables {
    var rows: Rows
    ghost var stacks: Stacks

    ghost predicate Valid()
      reads this
    {
      Represents(rows, stacks)
    }

    constructor ()
      ensures Valid() && stacks == map[]
    {
      rows := Rows(map[], map[], map[], map[]);
      stacks := map[];
    }

    /** Records a treasury UTXO and returns its sequence number. The history grows
        by it; the index has one row per outpoint, which is overwritten, so the
        tables stay in line exactly when the outpoint is new. */
    method PutCtip(slot: Slot, ctip: Ctip) returns (sequence: nat)
      requires Valid()
      modifies this
      ensures stacks == Push(old(stacks), slot, ctip) && sequence == |StackOf(old(stacks), slot)|
      ensures HeadsOf(rows.ctip, rows.count, stacks) && UtxosOf(rows.utxos, stacks)
      ensures rows.index == old(rows.index)[ctip.outpoint := (slot, ctip.value, sequence)]
      ensures Valid() <==> !Recorded(old(stacks), ctip.outpoint)
    {
      HeadsPush(rows.ctip, rows.count, stacks, slot, ctip);
      UtxosPush(rows.utxos, stacks, slot, ctip);
      IndexPush(rows.index, stacks, slot, ctip);
      sequence := if slot in rows.count then rows.count[slot] else 0;
      var previous := if slot in rows.ctip then rows.ctip[slot].value else 0;
      var utxo := TreasuryUtxo(ctip.outpoint, ctip.value, previous);
      rows := Rows(rows.ctip[slot := ctip],
                   rows.index[ctip.outpoint := (slot, ctip.value, sequence)],
                   rows.utxos[(slot, sequence) := utxo],
                   rows.count[slot := sequence + 1]);
      stacks := Push(stacks, slot, ctip);
    }

    /** Takes the current treasury UTXO back, as a block disconnect does; fails
        when the slot has none. */
    method DeleteCtip(slot: Slot) returns (ok: bool)
      requires Valid()
      modifies this
      ensures Valid() && ok == (slot in old(stacks))
      ensures stacks == if ok then Pop(old(stacks), slot) else old(stacks)
    {
      if slot !in rows.ctip { return false; }
      RowsTop(rows, stacks, slot);
      RowsPop(rows, stacks, slot);
      var sequence := rows.count[slot] - 1;
      var utxos := rows.utxos - {(slot, sequence)};
      var count, ctip := rows.count - {slot}, rows.ctip - {slot};
      if sequence != 0 {
        var previous := utxos[(slot, sequence - 1)];
        count := rows.count[slot := sequence];
        ctip := rows.ctip[slot := Ctip(previous.outpoint, previous.value)];
      }
      rows := Rows(ctip, rows.index - {rows.ctip[slot].outpoint}, utxos, count);
      stacks := Pop(stacks, slot);
      ok := true;
    }
  }

  /** A lookup in the index table gives that answer. */
  lemma IndexAnswers(index: Index, stacks: Stacks, o: OutPoint)
    requires IndexOf(index, stacks)
    ensures Find(stacks, o) == if o in index then Some((index[o].0, index[o].1)) else None
  {
    if o in index {
      assert EntryOf(index[o], stacks, o);
      assert Recorded(stacks, o);
    }
    if Recorded(stacks, o) {
      var s: Slot, i: nat :| s in stacks && 0 <= i < |stacks[s]| && stacks[s][i].outpoint == o &&
        Find(stacks, o) == Some((s, stacks[s][i].value));
      assert At(stacks, s, i);
    }
  }

  lemma HeadsDetermined(ctip: map<Slot, Ctip>, count: map<Slot, nat>,
                        ctip': map<Slot, Ctip>, count': map<Slot, nat>, stacks: Stacks)
    requires HeadsOf(ctip, count, stacks) && HeadsOf(ctip', count', stacks)
    ensures ctip == ctip' && count == count'
  {
  }

  lemma IndexDetermined(a: Index, b: Index, stacks: Stacks)
    requires IndexOf(a, stacks) && IndexOf(b, stacks)
    ensures a == b
  {
    forall o | o in a ensures o in b && a[o] == b[o] {
      assert EntryOf(a[o], stacks, o);
    }
    forall o | o in b ensures o in a {
      assert EntryOf(b[o], stacks, o);
    }
  }

  lemma UtxosDetermined(a: Utxos, b: Utxos, stacks: Stacks)
    requires UtxosOf(a, stacks) && UtxosOf(b, stacks)
    ensures a == b
  {
  }

  /** The stacks determine the tables, so whatever restores the stacks restores
      all four of them. */
  lemma TablesDetermined(a: Rows, b: Rows, stacks: Stacks)
    requires Represents(a, stacks) && Represents(b, stacks)
    ensures a == b
  {
    HeadsDetermined(a.ctip, a.count, b.ctip, b.count, stacks);
    IndexDetermined(a.index, b.index, stacks);
    UtxosDetermined(a.utxos, b.utxos, stacks);
  }
}
