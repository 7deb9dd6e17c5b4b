/** The canonical summary of consensus state, for comparing two validators, and
    the diff that must find every difference between two summaries. */
module SyncSummary {
  import opened Prelude
  import opened Encoding
  import opened Transactions
  import opened Ledger
  import opened PendingSort

  /** Keys are ordered by slot, then by hash as a number of 32 bytes. */
  type Key = ProposalId

  predicate Before(a: Key, b: Key) {
    a.slot < b.slot || (a.slot == b.slot && BigEndianValue(a.hash) < BigEndianValue(b.hash))
  }

  predicate IsKey(k: Key) {
    |k.hash| == 32
  }

  lemma Comparable(a: Key, b: Key)
    requires IsKey(a) && IsKey(b) && a != b
    ensures Before(a, b) || Before(b, a)
  {
    if a.slot == b.slot && BigEndianValue(a.hash) == BigEndianValue(b.hash) {
      SameNumberSameHash(a.hash, b.hash);
      assert false;
    }
  }

  datatype Entry = Entry(
    slot: Slot,
    hash: Bytes,
    title: Option<Bytes>,
    description: Option<Bytes>,
    votes: nat,
    proposalHeight: nat,
    activationHeight: Option<nat>,
    ctip: Option<Ctip>,
    sequence: Option<nat>,
    pending: seq<Pending>)

  datatype Summary = Summary(tipHash: Bytes, tipHeight: nat, sidechains: seq<Entry>)

  function KeyOf(e: Entry): Key {
    ProposalId(e.slot, e.hash)
  }

  /** Strictly ascending, so without repeated keys. */
  ghost predicate Canonical(list: seq<Entry>) {
    && (forall i | 0 <= i < |list| :: IsKey(KeyOf(list[i])))
    && (forall i, j | 0 <= i < j < |list| :: Before(KeyOf(list[i]), KeyOf(list[j])))
  }

  /** The list as a map: of entries with one key, the last. */
  function AsMap(list: seq<Entry>): map<Key, Entry> {
    if list == [] then map[] else
    var n := |list| - 1;
    AsMap(list[..n])[KeyOf(list[n]) := list[n]]
  }

  lemma {:induction false} AsMapFinds(list: seq<Entry>)
    ensures forall k :: k in AsMap(list) <==> exists i | 0 <= i < |list| :: KeyOf(list[i]) == k
    ensures forall k | k in AsMap(list) :: AsMap(list)[k] in list && KeyOf(AsMap(list)[k]) == k
  {
    if list != [] {
      var n := |list| - 1;
      AsMapFinds(list[..n]);
      forall k ensures k in AsMap(list) <==> exists i | 0 <= i < |list| :: KeyOf(list[i]) == k {
        if k in AsMap(list[..n]) {
          var i :| 0 <= i < n && KeyOf(list[..n][i]) == k;
          assert KeyOf(list[i]) == k;
        }
        if i :| 0 <= i < |list| && KeyOf(list[i]) == k {
          assert i < n ==> list[..n][i] == list[i];
        }
      }
    }
  }

  lemma {:induction false} CanonicalEntries(list: seq<Entry>)
    requires Canonical(list)
    ensures forall i | 0 <= i < |list| :: KeyOf(list[i]) in AsMap(list) && AsMap(list)[KeyOf(list[i])] == list[i]
  {
    if list != [] {
      var n := |list| - 1;
      CanonicalEntries(list[..n]);
      forall i | 0 <= i < n ensures KeyOf(list[i]) != KeyOf(list[n]) && list[..n][i] == list[i] {
        assert Before(KeyOf(list[i]), KeyOf(list[n]));
      }
    }
  }

  lemma LastIsGreatest(list: seq<Entry>, k: Key)
    requires Canonical(list) && list != [] && k in AsMap(list)
    ensures var last := list[|list| - 1];
      (k == KeyOf(last) || Before(k, KeyOf(last))) && KeyOf(last) in AsMap(list) && AsMap(list)[KeyOf(last)] == last
  {
    AsMapFinds(list);
    CanonicalEntries(list);
    var i :| 0 <= i < |list| && KeyOf(list[i]) == k;
  }

  /** The last entry of a canonical list is the one with the greatest key. */
  lemma SameLast(a: seq<Entry>, b: seq<Entry>)
    requires Canonical(a) && Canonical(b) && AsMap(a) == AsMap(b) && a != [] && b != []
    ensures a[|a| - 1] == b[|b| - 1]
  {
    var x, y := KeyOf(a[|a| - 1]), KeyOf(b[|b| - 1]);
    CanonicalEntries(a);
    CanonicalEntries(b);
    LastIsGreatest(a, y);
    LastIsGreatest(b, x);
  }

  lemma AsMapFront(list: seq<Entry>)
    requires Canonical(list) && list != []
    ensures AsMap(list[..|list| - 1]) == AsMap(list) - {KeyOf(list[|list| - 1])}
  {
    var n := |list| - 1;
    LastIsNew(list);
    RemoveAdded(AsMap(list[..n]), KeyOf(list[n]), list[n]);
  }

  lemma LastIsNew(list: seq<Entry>)
    requires Canonical(list) && list != []
    ensures KeyOf(list[|list| - 1]) !in AsMap(list[..|list| - 1])
  {
    var n := |list| - 1;
    AsMapFinds(list[..n]);
    forall i | 0 <= i < n ensures KeyOf(list[..n][i]) != KeyOf(list[n]) {
      assert Before(KeyOf(list[i]), KeyOf(list[n]));
    }
  }

  lemma EmptyMapEmptyList(list: seq<Entry>)
    ensures AsMap(list) == map[] <==> list == []
  {
    if list != [] { assert KeyOf(list[|list| - 1]) in AsMap(list); }
  }

  /** A canonical list is determined by its map. */
  lemma {:induction false} CanonicalUnique(a: seq<Entry>, b: seq<Entry>)
    requires Canonical(a) && Canonical(b) && AsMap(a) == AsMap(b)
    ensures a == b
  {
    if a == [] || b == [] {
      EmptyMapEmptyList(a);
      EmptyMapEmptyList(b);
    } else {
      SameLast(a, b);
      AsMapFront(a);
      AsMapFront(b);
      CanonicalUnique(a[..|a| - 1], b[..|b| - 1]);
      assert a == a[..|a| - 1] + [a[|a| - 1]] && b == b[..|b| - 1] + [b[|b| - 1]];
    }
  }

  // ----- The diff

  datatype Field =
    | Votes
    | ProposalHeight
    | ActivationHeight
    | Sequence
    | Title
    | Description
    | CurrentCtip
    | PendingBundles

  datatype Difference =
    | TipHash
    | TipHeight
    | OnlyCurrent(key: Key)
    | OnlyReference(key: Key)
    | Differs(key: Key, field: Field)

  predicate FieldDiffers(a: Entry, b: Entry, f: Field) {
    match f
    case Votes => a.votes != b.votes
    case ProposalHeight => a.proposalHeight != b.proposalHeight
    case ActivationHeight => a.activationHeight != b.activationHeight
    case Sequence => a.sequence != b.sequence
    case Title => a.title != b.title
    case Description => a.description != b.description
    case CurrentCtip => a.ctip != b.ctip
    case PendingBundles => a.pending != b.pending
  }

  const FIELDS: seq<Field> := [Votes, ProposalHeight, ActivationHeight, Sequence, Title, Description, CurrentCtip,
      PendingBundles]

  lemma AllFields(f: Field)
    ensures f in FIELDS
  {
    assert FIELDS[0] == Votes && FIELDS[1] == ProposalHeight && FIELDS[2] == ActivationHeight && FIELDS[3] == Sequence
        && FIELDS[4] == Title && FIELDS[5] == Description && FIELDS[6] == CurrentCtip && FIELDS[7] == PendingBundles;
  }

  /** What it is for a difference to be one. */
  predicate IsDifference(a: Summary, b: Summary, d: Difference) {
    var x, y := AsMap(a.sidechains), AsMap(b.sidechains);
    match d
    case TipHash => a.tipHash != b.tipHash
    case TipHeight => a.tipHeight != b.tipHeight
    case OnlyCurrent(k) => k in x && k !in y
    case OnlyReference(k) => k in y && k !in x
    case Differs(k, f) => k in x && k in y && FieldDiffers(x[k], y[k], f)
  }

  method FieldDiffs(k: Key, a: Entry, b: Entry) returns (diffs: seq<Difference>)
    ensures forall d :: d in diffs <==> d.Differs? && d.key == k && FieldDiffers(a, b, d.field)
  {
    diffs := [];
    for i := 0 to |FIELDS|
      invariant forall d :: d in diffs <==>
          d.Differs? && d.key == k && d.field in FIELDS[..i] && FieldDiffers(a, b, d.field)
    {
      assert FIELDS[..i + 1] == FIELDS[..i] + [FIELDS[i]];
      if FieldDiffers(a, b, FIELDS[i]) { diffs := diffs + [Differs(k, FIELDS[i])]; }
    }
    assert FIELDS[..|FIELDS|] == FIELDS;
    forall f: Field ensures f in FIELDS { AllFields(f); }
  }

  /** Reports exactly the differences there are. */
  method Diff(a: Summary, b: Summary) returns (diffs: seq<Difference>)
    ensures forall d :: d in diffs <==> IsDifference(a, b, d)
  {
    diffs := (if a.tipHash != b.tipHash then [TipHash] else [])
        + (if a.tipHeight != b.tipHeight then [TipHeight] else []);
    var x, y := AsMap(a.sidechains), AsMap(b.sidechains);
    var todo := x.Keys;
    while todo != {}
      invariant todo <= x.Keys
      invariant forall d :: d in diffs <==>
        IsDifference(a, b, d) && !d.OnlyReference? && (d.OnlyCurrent? || d.Differs? ==> d.key !in todo)
    {
      var k :| k in todo;
      ghost var before := diffs;
      if k !in y {
        diffs := diffs + [OnlyCurrent(k)];
      } else {
        var more := FieldDiffs(k, x[k], y[k]);
        diffs := diffs + more;
      }
      todo := todo - {k};
    }
    todo := y.Keys - x.Keys;
    while todo != {}
      invariant todo <= y.Keys - x.Keys
      invariant forall d :: d in diffs <==> IsDifference(a, b, d) && (d.OnlyReference? ==> d.key !in todo)
    {
      var k :| k in todo;
      diffs := diffs + [OnlyReference(k)];
      todo := todo - {k};
    }
  }

  /** An empty diff means the same tip and the same entry for every key. */
  lemma EmptyDiffMeans(a: Summary, b: Summary)
    ensures (forall d :: !IsDifference(a, b, d)) <==>
      a.tipHash == b.tipHash && a.tipHeight == b.tipHeight && AsMap(a.sidechains) == AsMap(b.sidechains)
  {
    var x, y := AsMap(a.sidechains), AsMap(b.sidechains);
    if forall d :: !IsDifference(a, b, d) {
      assert !IsDifference(a, b, TipHash) && !IsDifference(a, b, TipHeight);
      forall k | k in x ensures k in y && x[k] == y[k] {
        assert !IsDifference(a, b, OnlyCurrent(k));
        NoFieldDiffers(a, b, k);
      }
      forall k | k in y ensures k in x { assert !IsDifference(a, b, OnlyReference(k)); }
    }
  }

  lemma NoFieldDiffers(a: Summary, b: Summary, k: Key)
    requires forall d :: !IsDifference(a, b, d)
    requires k in AsMap(a.sidechains) && k in AsMap(b.sidechains)
    ensures AsMap(a.sidechains)[k] == AsMap(b.sidechains)[k]
  {
    AsMapFinds(a.sidechains);
    AsMapFinds(b.sidechains);
    forall f: Field ensures !FieldDiffers(AsMap(a.sidechains)[k], AsMap(b.sidechains)[k], f) {
      assert !IsDifference(a, b, Differs(k, f));
    }
    assert !FieldDiffers(AsMap(a.sidechains)[k], AsMap(b.sidechains)[k], Votes);
    assert !FieldDiffers(AsMap(a.sidechains)[k], AsMap(b.sidechains)[k], Sequence);
    assert !FieldDiffers(AsMap(a.sidechains)[k], AsMap(b.sidechains)[k], Title);
    assert !FieldDiffers(AsMap(a.sidechains)[k], AsMap(b.sidechains)[k], Description);
    assert !FieldDiffers(AsMap(a.sidechains)[k], AsMap(b.sidechains)[k], CurrentCtip);
    assert !FieldDiffers(AsMap(a.sidechains)[k], AsMap(b.sidechains)[k], PendingBundles);
    assert !FieldDiffers(AsMap(a.sidechains)[k], AsMap(b.sidechains)[k], ProposalHeight);
    assert !FieldDiffers(AsMap(a.sidechains)[k], AsMap(b.sidechains)[k], ActivationHeight);
  }

  /** Between canonical summaries, an empty diff means they are identical. */
  lemma DiffDecidesEquality(a: Summary, b: Summary)
    requires Canonical(a.sidechains) && Canonical(b.sidechains)
    ensures (forall d :: !IsDifference(a, b, d)) <==> a == b
  {
    EmptyDiffMeans(a, b);
    if AsMap(a.sidechains) == AsMap(b.sidechains) { CanonicalUnique(a.sidechains, b.sidechains); }
  }

  /** A summary read from a file need not be canonical, and then an empty diff
      does not mean that the two are identical: a repeated entry goes unseen. */
  lemma RepeatedEntryUnseen(a: Summary)
    requires a.sidechains != []
    ensures var b := a.(sidechains := a.sidechains + [a.sidechains[|a.sidechains| - 1]]);
      a != b && forall d :: !IsDifference(a, b, d)
  {
    var e := a.sidechains[|a.sidechains| - 1];
    var b := a.(sidechains := a.sidechains + [e]);
    assert (a.sidechains + [e])[..|a.sidechains|] == a.sidechains;
    AsMapFinds(a.sidechains);
    assert KeyOf(a.sidechains[|a.sidechains| - 1]) in AsMap(a.sidechains);
    assert AsMap(a.sidechains)[KeyOf(e)] == e;
    assert AsMap(b.sidechains) == AsMap(a.sidechains);
    EmptyDiffMeans(a, b);
    assert |b.sidechains| != |a.sidechains|;
  }
}
