/** The messages of one coinbase: a list in output order, an index that finds a
    duplicate without searching, and a builder that appends new messages. */
module CoinbaseList {
  import opened Prelude
  import opened Transactions
  import opened Messages

  datatype Entry = Entry(message: Message, vout: nat)

  /** Two messages that one coinbase may not both carry. */
  predicate Clash(a: Message, b: Message) {
    match a
    case M1ProposeSidechain(_, _) => b.M1ProposeSidechain?
    case M2AckSidechain(slot, _) => b.M2AckSidechain? && b.slot == slot
    case M3ProposeBundle(_, _) => b.M3ProposeBundle?
    case M4(_) => b.M4?
    case M7BmmAccept(slot, _) => b.M7BmmAccept? && b.slot == slot
  }

  predicate Clashes(entries: seq<Entry>, m: Message) {
    exists i | 0 <= i < |entries| :: Clash(entries[i].message, m)
  }

  ghost predicate ClashFree(entries: seq<Entry>) {
    forall i, j | 0 <= i < j < |entries| :: !Clash(entries[i].message, entries[j].message)
  }

  /** Where the message that would clash sits, by kind and slot. */
  datatype Index = Index(
    m1: Option<nat>,
    m2: map<Slot, nat>,
    m3: Option<nat>,
    m4: Option<nat>,
    m7: map<Slot, (Bytes, nat)>)

  function Lookup(index: Index, m: Message): Option<nat> {
    match m
    case M1ProposeSidechain(_, _) => index.m1
    case M2AckSidechain(slot, _) => if slot in index.m2 then Some(index.m2[slot]) else None
    case M3ProposeBundle(_, _) => index.m3
    case M4(_) => index.m4
    case M7BmmAccept(slot, _) => if slot in index.m7 then Some(index.m7[slot].1) else None
  }

  function Insert(index: Index, m: Message, vout: nat): Index {
    match m
    case M1ProposeSidechain(_, _) => index.(m1 := Some(vout))
    case M2AckSidechain(slot, _) => index.(m2 := index.m2[slot := vout])
    case M3ProposeBundle(_, _) => index.(m3 := Some(vout))
    case M4(_) => index.(m4 := Some(vout))
    case M7BmmAccept(slot, commitment) => index.(m7 := index.m7[slot := (commitment, vout)])
  }

  /** The index agrees with a scan of the list: it finds exactly the entry that
      clashes, and knows the commitment of every M7. */
  ghost predicate Indexes(index: Index, entries: seq<Entry>) {
    && (forall i | 0 <= i < |entries| :: Lookup(index, entries[i].message) == Some(entries[i].vout))
    && (forall m: Message | Lookup(index, m).Some? :: Clashes(entries, m))
    && (forall i | 0 <= i < |entries| && entries[i].message.M7BmmAccept? ::
          index.m7[entries[i].message.slot].0 == entries[i].message.commitment)
  }

  lemma ClashSymmetric(a: Message, b: Message, c: Message)
    ensures Clash(a, b) ==> Clash(b, a)
    ensures Clash(a, b) && Clash(b, c) ==> Clash(a, c)
    ensures Clash(a, a)
  {
  }

  lemma LookupClash(index: Index, a: Message, b: Message)
    requires Clash(a, b)
    ensures Lookup(index, a) == Lookup(index, b)
  {
  }

  /** The message of each output, if it is one. */
  function ParseEach(outputs: seq<TxOut>): seq<Option<Message>> {
    seq(|outputs|, i requires 0 <= i < |outputs| => Parse(outputs[i].script))
  }

  /** The list that coinbase outputs make, `None` when some message repeats.
      Outputs that are no message are skipped. */
  function Scan(parsed: seq<Option<Message>>): Option<seq<Entry>> {
    if parsed == [] then Some([]) else
    var n := |parsed| - 1;
    match Scan(parsed[..n])
    case None => None
    case Some(entries) =>
      match parsed[n]
      case None => Some(entries)
      case Some(m) => if Clashes(entries, m) then None else Some(entries + [Entry(m, n)])
  }

  /** A scan finds messages without clashes, at increasing positions. */
  lemma {:induction false} ScanFinds(parsed: seq<Option<Message>>)
    requires Scan(parsed).Some?
    ensures var entries := Scan(parsed).value;
      && ClashFree(entries)
      && (forall i | 0 <= i < |entries| :: entries[i].vout < |parsed|)
      && (forall i, j | 0 <= i < j < |entries| :: entries[i].vout < entries[j].vout)
      && (forall i | 0 <= i < |entries| :: parsed[entries[i].vout] == Some(entries[i].message))
  {
    if parsed != [] {
      ScanFinds(parsed[..|parsed| - 1]);
    }
  }

  datatype Duplicate = Duplicate(first: nat)

  class CoinbaseMessages {
    var entries: seq<Entry>
    var index: Index

    ghost predicate Valid()
      reads this
    {
      ClashFree(entries) && Indexes(index, entries)
    }

    constructor ()
      ensures Valid() && entries == []
    {
      entries := [];
      index := Index(None, map[], None, None, map[]);
    }

    /** Appends a message, or refuses it and names the output it repeats. */
    method Push(m: Message, vout: nat) returns (r: Result<(), Duplicate>)
      requires Valid()
      modifies this
      ensures Valid()
      ensures r.Ok? <==> !Clashes(old(entries), m)
      ensures r.Ok? ==> entries == old(entries) + [Entry(m, vout)]
      ensures r.Err? ==> entries == old(entries) && index == old(index)
      ensures r.Err? ==> exists i | 0 <= i < |entries| ::
          Clash(entries[i].message, m) && entries[i].vout == r.error.first
    {
      var clash := Lookup(index, m);
      if clash.Some? {
        LookupFinds(index, entries, m);
        return Err(Duplicate(clash.value));
      }
      LookupMisses(index, entries, m);
      InsertExtends(index, m, vout);
      IndexesAppend(index, Insert(index, m, vout), entries, m, vout);
      index := Insert(index, m, vout);
      entries := entries + [Entry(m, vout)];
      r := Ok(());
    }

    /** Reads the messages of a coinbase, or refuses a repeated one. */
    static method FromOutputs(outputs: seq<TxOut>) returns (ok: bool, list: CoinbaseMessages)
      ensures fresh(list) && list.Valid()
      ensures ok == Scan(ParseEach(outputs)).Some?
      ensures ok ==> list.entries == Scan(ParseEach(outputs)).value
    {
      ok, list := FromParsed(ParseEach(outputs));
    }

    static method FromParsed(parsed: seq<Option<Message>>) returns (ok: bool, list: CoinbaseMessages)
      ensures fresh(list) && list.Valid()
      ensures ok == Scan(parsed).Some?
      ensures ok ==> list.entries == Scan(parsed).value
    {
      list := new CoinbaseMessages();
      for n := 0 to |parsed|
        invariant fresh(list) && list.Valid()
        invariant Scan(parsed[..n]) == Some(list.entries)
      {
        assert parsed[..n + 1][..n] == parsed[..n];
        if parsed[n].Some? {
          var r := list.Push(parsed[n].value, n);
          if r.Err? {
            ScanRefuses(parsed, n + 1);
            return false, list;
          }
        }
      }
      assert parsed[..|parsed|] == parsed;
      ok := true;
    }
  }

  lemma LookupFinds(index: Index, entries: seq<Entry>, m: Message)
    requires Indexes(index, entries) && Lookup(index, m).Some?
    ensures exists i | 0 <= i < |entries| :: Clash(entries[i].message, m) && entries[i].vout == Lookup(index, m).value
  {
    var i :| 0 <= i < |entries| && Clash(entries[i].message, m);
    LookupClash(index, entries[i].message, m);
  }

  lemma LookupMisses(index: Index, entries: seq<Entry>, m: Message)
    requires Indexes(index, entries) && Lookup(index, m).None?
    ensures !Clashes(entries, m)
  {
    forall i | 0 <= i < |entries| ensures !Clash(entries[i].message, m) {
      if Clash(entries[i].message, m) { LookupClash(index, entries[i].message, m); }
    }
  }

  /** A new index entry answers for exactly the messages that clash with it. */
  ghost predicate Extends(index: Index, index': Index, m: Message, vout: nat) {
    && (forall a: Message :: Lookup(index', a) == if Clash(m, a) then Some(vout) else Lookup(index, a))
    && (forall s | s in index.m7 && !(m.M7BmmAccept? && m.slot == s) :: s in index'.m7 && index'.m7[s] == index.m7[s])
    && (m.M7BmmAccept? ==> m.slot in index'.m7 && index'.m7[m.slot].0 == m.commitment)
  }

  lemma InsertExtends(index: Index, m: Message, vout: nat)
    requires Lookup(index, m).None?
    ensures Extends(index, Insert(index, m, vout), m, vout)
  {
  }

  lemma IndexesAppend(index: Index, index': Index, entries: seq<Entry>, m: Message, vout: nat)
    requires Indexes(index, entries) && !Clashes(entries, m) && Extends(index, index', m, vout)
    ensures Indexes(index', entries + [Entry(m, vout)])
  {
    var entries' := entries + [Entry(m, vout)];
    forall i | 0 <= i < |entries'|
      ensures Lookup(index', entries'[i].message) == Some(entries'[i].vout)
      ensures entries'[i].message.M7BmmAccept? ==>
        index'.m7[entries'[i].message.slot].0 == entries'[i].message.commitment
    {
      if i < |entries| {
        ClashSymmetric(m, entries[i].message, m);
      } else {
        ClashSymmetric(m, m, m);
      }
    }
    forall a: Message | Lookup(index', a).Some? ensures Clashes(entries', a) {
      if Clash(m, a) {
        assert Clash(entries'[|entries|].message, a);
      } else {
        var i :| 0 <= i < |entries| && Clash(entries[i].message, a);
        assert Clash(entries'[i].message, a);
      }
    }
  }

  lemma {:induction false} ScanRefuses(parsed: seq<Option<Message>>, n: nat)
    requires n <= |parsed| && Scan(parsed[..n]).None?
    ensures Scan(parsed).None?
    decreases |parsed| - n
  {
    if n == |parsed| {
      assert parsed[..n] == parsed;
    } else {
      assert parsed[..n + 1][..n] == parsed[..n];
      ScanRefuses(parsed, n + 1);
    }
  }

  // ----- Appending messages to a coinbase

  /** A list whose first `found` messages are those of the `n` outputs there
      are, and whose other messages wait for the outputs that follow. */
  ghost predicate Queued(parsed: seq<Option<Message>>, entries: seq<Entry>, found: nat) {
    && found <= |entries|
    && Scan(parsed) == Some(entries[..found])
    && forall k | found <= k < |entries| ::
         entries[k].vout == |parsed| + k - found && WellTyped(entries[k].message)
  }

  /** The first output index past the outputs there are and the last message. */
  function NextVout(n: nat, entries: seq<Entry>): nat {
    if entries == [] then n
    else
      var last := entries[|entries| - 1].vout;
      if last + 1 > n then last + 1 else n
  }

  lemma QueuedAppend(parsed: seq<Option<Message>>, entries: seq<Entry>, found: nat, m: Message)
    requires Queued(parsed, entries, found) && WellTyped(m)
    ensures NextVout(|parsed|, entries) == |parsed| + |entries| - found
    ensures Queued(parsed, entries + [Entry(m, |parsed| + |entries| - found)], found)
  {
    ScanFinds(parsed);
    assert found == |entries| > 0 ==> entries[..found][found - 1].vout < |parsed|;
    assert (entries + [Entry(m, |parsed| + |entries| - found)])[..found] == entries[..found];
  }

  function Somes(entries: seq<Entry>): seq<Option<Message>> {
    seq(|entries|, i requires 0 <= i < |entries| => Some(entries[i].message))
  }

  /** Once every waiting message has its output, a scan finds the whole list. */
  lemma {:induction false} ScanQueued(parsed: seq<Option<Message>>, entries: seq<Entry>, found: nat, k: nat)
    requires Queued(parsed, entries, found) && ClashFree(entries) && found <= k <= |entries|
    ensures Scan(parsed + Somes(entries[found..k])) == Some(entries[..k])
  {
    if k == found {
      assert parsed + Somes(entries[found..k]) == parsed;
    } else {
      ScanQueued(parsed, entries, found, k - 1);
      ScanOneMore(parsed, entries, found, k - 1);
    }
  }

  /** The outputs and the messages, both up to one more message. */
  lemma OneMoreOutput(parsed: seq<Option<Message>>, entries: seq<Entry>, found: nat, k: nat)
    requires found <= k < |entries|
    ensures parsed + Somes(entries[found..k + 1]) == parsed + Somes(entries[found..k]) + [Some(entries[k].message)]
    ensures entries[..k + 1] == entries[..k] + [entries[k]]
  {
    assert entries[found..k + 1] == entries[found..k] + [entries[k]];
  }

  lemma ClashFreeBelow(entries: seq<Entry>, k: nat)
    requires ClashFree(entries) && k < |entries|
    ensures !Clashes(entries[..k], entries[k].message)
  {
  }

  lemma ScanOneMore(parsed: seq<Option<Message>>, entries: seq<Entry>, found: nat, k: nat)
    requires ClashFree(entries) && found <= k < |entries| && entries[k].vout == |parsed| + k - found
    requires Scan(parsed + Somes(entries[found..k])) == Some(entries[..k])
    ensures Scan(parsed + Somes(entries[found..k + 1])) == Some(entries[..k + 1])
  {
    ClashFreeBelow(entries, k);
    OneMoreOutput(parsed, entries, found, k);
    ScanAppend(parsed + Somes(entries[found..k]), entries[..k], entries[k], parsed + Somes(entries[found..k + 1]),
               entries[..k + 1]);
  }

  lemma ScanAppend(parsed: seq<Option<Message>>, entries: seq<Entry>, e: Entry, parsed': seq<Option<Message>>,
                   entries': seq<Entry>)
    requires Scan(parsed) == Some(entries) && !Clashes(entries, e.message) && e.vout == |parsed|
    requires parsed' == parsed + [Some(e.message)] && entries' == entries + [e]
    ensures Scan(parsed') == Some(entries')
  {
    assert parsed'[..|parsed|] == parsed;
  }

  lemma ParseEachAppend(a: seq<TxOut>, b: seq<TxOut>)
    ensures ParseEach(a + b) == ParseEach(a) + ParseEach(b)
  {
  }

  lemma BuiltScan(outputs: seq<TxOut>, extension: seq<TxOut>, entries: seq<Entry>, found: nat)
    requires Queued(ParseEach(outputs), entries, found) && ClashFree(entries)
    requires ParseEach(extension) == Somes(entries[found..])
    ensures Scan(ParseEach(outputs + extension)) == Some(entries)
  {
    ParseEachAppend(outputs, extension);
    ScanQueued(ParseEach(outputs), entries, found, |entries|);
    assert entries[found..|entries|] == entries[found..] && entries[..|entries|] == entries;
  }

  /** Skips the messages that are already in the coinbase. */
  method SkipFound(n: nat, entries: seq<Entry>, ghost parsed: seq<Option<Message>>, ghost found: nat)
    returns (k: nat)
    requires n == |parsed| && Queued(parsed, entries, found)
    ensures k == found
  {
    ScanFinds(parsed);
    ghost var head := entries[..found];
    assert forall i | 0 <= i < found :: entries[i] == head[i];
    k := 0;
    while k < |entries| && entries[k].vout < n
      invariant k <= found
    {
      k := k + 1;
    }
  }

  /** Prints one output for each message. */
  method PrintAll(entries: seq<Entry>) returns (r: Option<seq<TxOut>>)
    requires forall i | 0 <= i < |entries| :: WellTyped(entries[i].message)
    ensures r.Some? <==> forall i | 0 <= i < |entries| :: Printable(entries[i].message)
    ensures r.Some? ==> ParseEach(r.value) == Somes(entries)
  {
    var all: seq<TxOut> := [];
    for i := 0 to |entries|
      invariant forall j | 0 <= j < i :: Printable(entries[j].message)
      invariant ParseEach(all) == Somes(entries[..i])
    {
      var output := PrintOutput(entries[i].message);
      if output.None? { return None; }
      ParseEachAppend(all, [output.value]);
      assert Somes(entries[..i + 1]) == Somes(entries[..i]) + [Some(entries[i].message)];
      all := all + [output.value];
    }
    assert entries[..|entries|] == entries;
    r := Some(all);
  }

  class CoinbaseBuilder {
    /** The outputs the coinbase already has. */
    const outputs: seq<TxOut>
    const list: CoinbaseMessages
    /** How many of the messages were found in `outputs`. */
    ghost const found: nat

    ghost predicate Valid()
      reads this, list
    {
      list.Valid() && Queued(ParseEach(outputs), list.entries, found)
    }

    /** Over the messages already in the coinbase. */
    constructor (outputs: seq<TxOut>, list: CoinbaseMessages)
      requires list.Valid() && Scan(ParseEach(outputs)) == Some(list.entries)
      ensures Valid() && this.outputs == outputs && this.list == list && found == |list.entries|
    {
      this.outputs := outputs;
      this.list := list;
      this.found := |list.entries|;
      new;
      assert list.entries[..found] == list.entries;
    }

    /** Queues a message for the next free output. */
    method Add(m: Message) returns (r: Result<(), Duplicate>)
      requires Valid() && WellTyped(m)
      modifies list
      ensures Valid()
      ensures r.Ok? <==> !Clashes(old(list.entries), m)
      ensures r.Ok? ==> list.entries == old(list.entries) + [Entry(m, |outputs| + |old(list.entries)| - found)]
      ensures r.Err? ==> list.entries == old(list.entries)
    {
      ghost var before := list.entries;
      QueuedAppend(ParseEach(outputs), before, found, m);
      r := list.Push(m, NextVout(|outputs|, list.entries));
      assert Queued(ParseEach(outputs), list.entries, found);
    }

    /** The coinbase with the queued messages appended, one output each. What it
        carries is exactly the list, at exactly the outputs the list names; the
        outputs it had are untouched. Fails only on an oversized message. */
    method Build() returns (r: Option<seq<TxOut>>)
      requires Valid()
      ensures r.Some? <==> forall k | found <= k < |list.entries| :: Printable(list.entries[k].message)
      ensures r.Some? ==> outputs <= r.value && |r.value| == |outputs| + |list.entries| - found
      ensures r.Some? ==> Scan(ParseEach(r.value)) == Some(list.entries)
    {
      ghost var parsed := ParseEach(outputs);
      var k := SkipFound(|outputs|, list.entries, parsed, found);
      var entries := list.entries;
      var extension := PrintAll(entries[k..]);
      assert forall i | found <= i < |entries| :: entries[i] == entries[k..][i - found];
      if extension.None? { return None; }
      BuiltScan(outputs, extension.value, entries, found);
      r := Some(outputs + extension.value);
    }
  }
}
