/** The summary of a state: how it is built, and exactly what it tells. */
module SyncStates {
  import opened Prelude
  import opened Treasury
  import opened Ledger
  import opened PendingSort
  import opened SyncSummary

  // ----- What a summary says about a state

  /** How the fields of a proposal are read from its description. */
  datatype Reader = Reader(hash: Bytes -> Bytes, title: Bytes -> Option<Bytes>, text: Bytes -> Option<Bytes>)

  /** The number of the current treasury UTXO, counted from zero. */
  function SequenceOf(stacks: Stacks, slot: Slot): Option<nat> {
    if StackOf(stacks, slot) == [] then None else Some(|StackOf(stacks, slot)| - 1)
  }

  function PendingOf(st: State, slot: Slot): seq<Pending> {
    if slot in st.pending then st.pending[slot] else []
  }

  /** One sidechain; only an active one has a treasury and bundles. */
  function EntryOf(r: Reader, st: State, sc: Sidechain): Entry {
    var slot, active := sc.proposal.slot, sc.activationHeight.Some?;
    Entry(slot, r.hash(sc.proposal.description), r.title(sc.proposal.description), r.text(sc.proposal.description),
          sc.votes, sc.proposalHeight, sc.activationHeight,
          if active then CtipOf(st.treasury, slot) else None,
          if active then SequenceOf(st.treasury, slot) else None,
          if active then SortPending(PendingOf(st, slot)) else [])
  }

  function KeyFor(r: Reader, sc: Sidechain): Key {
    ProposalId(sc.proposal.slot, r.hash(sc.proposal.description))
  }

  /** Sidechains are filed under their own slot and hash, and are active exactly
      in the table of active ones. */
  ghost predicate WellKeyed(r: Reader, st: State) {
    && (forall d :: |r.hash(d)| == 32)
    && (forall s | s in st.active :: st.active[s].proposal.slot == s && st.active[s].activationHeight.Some?)
    && (forall id | id in st.proposals :: KeyFor(r, st.proposals[id]) == id && st.proposals[id].activationHeight.None?)
  }

  ghost function ActiveKeys(r: Reader, st: State, slots: set<Slot>): set<Key> {
    set s | s in slots && s in st.active :: KeyFor(r, st.active[s])
  }

  ghost function ActiveRows(r: Reader, st: State, slots: set<Slot>): map<Key, Entry> {
    map k | k in ActiveKeys(r, st, slots) && k.slot in st.active :: EntryOf(r, st, st.active[k.slot])
  }

  ghost function ProposalRows(r: Reader, st: State, ids: set<ProposalId>): map<Key, Entry> {
    map id | id in ids && id in st.proposals :: EntryOf(r, st, st.proposals[id])
  }

  /** The rows of some of the sidechains: where an active sidechain has been
      proposed again, the active one wins. */
  ghost function RowsOf(r: Reader, st: State, slots: set<Slot>, ids: set<ProposalId>): map<Key, Entry> {
    ProposalRows(r, st, ids) + ActiveRows(r, st, slots)
  }

  ghost function SummaryMap(r: Reader, st: State): map<Key, Entry> {
    RowsOf(r, st, st.active.Keys, st.proposals.Keys)
  }

  // ----- Building it

  /** Inserts an entry where its key belongs. */
  function Insert(list: seq<Entry>, e: Entry): seq<Entry> {
    if list == [] || Before(KeyOf(list[|list| - 1]), KeyOf(e)) then list + [e]
    else Insert(list[..|list| - 1], e) + [list[|list| - 1]]
  }

  lemma AppendCanonical(list: seq<Entry>, e: Entry)
    requires Canonical(list) && IsKey(KeyOf(e)) && forall i | 0 <= i < |list| :: Before(KeyOf(list[i]), KeyOf(e))
    ensures Canonical(list + [e])
  {
  }

  lemma AllBeforeLast(list: seq<Entry>, e: Entry)
    requires Canonical(list) && (list == [] || Before(KeyOf(list[|list| - 1]), KeyOf(e)))
    ensures forall i | 0 <= i < |list| :: Before(KeyOf(list[i]), KeyOf(e))
  {
    forall i | 0 <= i < |list| - 1 ensures Before(KeyOf(list[i]), KeyOf(e)) {
      assert Before(KeyOf(list[i]), KeyOf(list[|list| - 1]));
    }
  }

  lemma {:induction false} InsertHas(list: seq<Entry>, e: Entry)
    ensures forall x :: x in Insert(list, e) <==> x in list || x == e
  {
    if list != [] && !Before(KeyOf(list[|list| - 1]), KeyOf(e)) {
      var n := |list| - 1;
      InsertHas(list[..n], e);
      assert list == list[..n] + [list[n]];
    }
  }

  lemma {:induction false} InsertCanonical(list: seq<Entry>, e: Entry)
    requires Canonical(list) && IsKey(KeyOf(e)) && forall i | 0 <= i < |list| :: KeyOf(list[i]) != KeyOf(e)
    ensures Canonical(Insert(list, e))
  {
    if list == [] || Before(KeyOf(list[|list| - 1]), KeyOf(e)) {
      AllBeforeLast(list, e);
      AppendCanonical(list, e);
    } else {
      var n := |list| - 1;
      assert forall i | 0 <= i < n :: list[..n][i] == list[i];
      InsertCanonical(list[..n], e);
      Comparable(KeyOf(list[n]), KeyOf(e));
      InsertHas(list[..n], e);
      AllBefore(list, e, Insert(list[..n], e));
      AppendCanonical(Insert(list[..n], e), list[n]);
    }
  }

  lemma AllBefore(list: seq<Entry>, e: Entry, rest: seq<Entry>)
    requires Canonical(list) && list != [] && Before(KeyOf(e), KeyOf(list[|list| - 1]))
    requires forall x | x in rest :: x in list[..|list| - 1] || x == e
    ensures forall i | 0 <= i < |rest| :: Before(KeyOf(rest[i]), KeyOf(list[|list| - 1]))
  {
    var n := |list| - 1;
    forall i | 0 <= i < |rest| ensures Before(KeyOf(rest[i]), KeyOf(list[n])) {
      assert rest[i] in rest;
      if rest[i] != e {
        var j :| 0 <= j < n && list[..n][j] == rest[i];
        assert list[j] == rest[i];
      }
    }
  }

  lemma SwapUpdates<K, V>(m: map<K, V>, k: K, v: V, k': K, v': V)
    requires k != k'
    ensures m[k := v][k' := v'] == m[k' := v'][k := v]
  {
  }

  lemma AsMapAppend(list: seq<Entry>, e: Entry)
    ensures AsMap(list + [e]) == AsMap(list)[KeyOf(e) := e]
  {
    assert (list + [e])[..|list|] == list;
  }

  lemma {:induction false} InsertAsMap(list: seq<Entry>, e: Entry)
    requires forall i | 0 <= i < |list| :: KeyOf(list[i]) != KeyOf(e)
    ensures AsMap(Insert(list, e)) == AsMap(list)[KeyOf(e) := e]
  {
    if list == [] || Before(KeyOf(list[|list| - 1]), KeyOf(e)) {
      AsMapAppend(list, e);
    } else {
      var n := |list| - 1;
      InsertAsMap(list[..n], e);
      AsMapAppend(Insert(list[..n], e), list[n]);
      SwapUpdates(AsMap(list[..n]), KeyOf(e), e, KeyOf(list[n]), list[n]);
    }
  }

  method AddNew(list: seq<Entry>, e: Entry) returns (list': seq<Entry>)
    requires Canonical(list) && IsKey(KeyOf(e))
    ensures Canonical(list')
    ensures AsMap(list') == if KeyOf(e) in AsMap(list) then AsMap(list) else AsMap(list)[KeyOf(e) := e]
  {
    AsMapFinds(list);
    if exists i | 0 <= i < |list| :: KeyOf(list[i]) == KeyOf(e) { return list; }
    InsertCanonical(list, e);
    InsertAsMap(list, e);
    list' := Insert(list, e);
  }

  lemma ActiveRowsMore(r: Reader, st: State, slots: set<Slot>, s: Slot)
    requires WellKeyed(r, st) && s in st.active && s !in slots
    ensures var e := EntryOf(r, st, st.active[s]);
      && KeyOf(e) !in ActiveRows(r, st, slots)
      && ActiveRows(r, st, slots + {s}) == ActiveRows(r, st, slots)[KeyOf(e) := e]
  {
    var k := KeyFor(r, st.active[s]);
    assert ActiveKeys(r, st, slots + {s}) == ActiveKeys(r, st, slots) + {k};
    forall k' | k' in ActiveKeys(r, st, slots) ensures k'.slot in slots && k'.slot != s {}
  }

  lemma UnionUpdate<K, V>(m: map<K, V>, n: map<K, V>, k: K, v: V)
    ensures m[k := v] + n == if k in n then m + n else (m + n)[k := v]
  {
  }

  lemma OneProposalMore(r: Reader, st: State, ids: set<ProposalId>, id: ProposalId)
    requires id in st.proposals && id !in ids
    ensures id !in ProposalRows(r, st, ids)
    ensures ProposalRows(r, st, ids + {id}) == ProposalRows(r, st, ids)[id := EntryOf(r, st, st.proposals[id])]
  {
  }

  lemma ProposalRowsMore(r: Reader, st: State, slots: set<Slot>, ids: set<ProposalId>, id: ProposalId)
    requires WellKeyed(r, st) && id in st.proposals && id !in ids
    ensures var e := EntryOf(r, st, st.proposals[id]);
      var before := RowsOf(r, st, slots, ids);
      && KeyOf(e) == id
      && RowsOf(r, st, slots, ids + {id}) == if id in before then before else before[id := e]
  {
    OneProposalMore(r, st, ids, id);
    UnionUpdate(ProposalRows(r, st, ids), ActiveRows(r, st, slots), id, EntryOf(r, st, st.proposals[id]));
  }

  lemma RowsStart(r: Reader, st: State)
    ensures ActiveRows(r, st, {}) == map[] && RowsOf(r, st, st.active.Keys, {}) == ActiveRows(r, st, st.active.Keys)
  {
    assert ActiveKeys(r, st, {}) == {};
    assert ProposalRows(r, st, {}) == map[];
  }

  method ListActive(r: Reader, st: State) returns (list: seq<Entry>)
    requires WellKeyed(r, st)
    ensures Canonical(list) && AsMap(list) == ActiveRows(r, st, st.active.Keys)
  {
    list := [];
    RowsStart(r, st);
    var todo := st.active.Keys;
    ghost var done: set<Slot> := {};
    while todo != {}
      invariant todo + done == st.active.Keys && todo !! done
      invariant Canonical(list) && AsMap(list) == ActiveRows(r, st, done)
    {
      var s :| s in todo;
      ActiveRowsMore(r, st, done, s);
      list := AddNew(list, EntryOf(r, st, st.active[s]));
      todo := todo - {s};
      done := done + {s};
    }
  }

  method AddProposal(r: Reader, st: State, list: seq<Entry>, ghost done: set<ProposalId>, id: ProposalId)
    returns (list': seq<Entry>)
    requires WellKeyed(r, st) && id in st.proposals && id !in done
    requires Canonical(list) && AsMap(list) == RowsOf(r, st, st.active.Keys, done)
    ensures Canonical(list') && AsMap(list') == RowsOf(r, st, st.active.Keys, done + {id})
  {
    ProposalRowsMore(r, st, st.active.Keys, done, id);
    list' := AddNew(list, EntryOf(r, st, st.proposals[id]));
  }

  method AddProposals(r: Reader, st: State, active: seq<Entry>) returns (list: seq<Entry>)
    requires WellKeyed(r, st) && Canonical(active) && AsMap(active) == RowsOf(r, st, st.active.Keys, {})
    ensures Canonical(list) && AsMap(list) == RowsOf(r, st, st.active.Keys, st.proposals.Keys)
  {
    list := active;
    var todo := st.proposals.Keys;
    ghost var done: set<ProposalId> := {};
    while todo != {}
      invariant todo + done == st.proposals.Keys && todo !! done
      invariant Canonical(list) && AsMap(list) == RowsOf(r, st, st.active.Keys, done)
    {
      var id :| id in todo;
      list := AddProposal(r, st, list, done, id);
      todo := todo - {id};
      done := done + {id};
    }
    assert done == st.proposals.Keys;
  }

  /** The summary's list is canonical, and has exactly the summary's rows. The
      sidechains of each table may come in any order; active ones come first and
      win. */
  method Summarize(r: Reader, st: State) returns (list: seq<Entry>)
    requires WellKeyed(r, st)
    ensures Canonical(list) && AsMap(list) == SummaryMap(r, st)
  {
    list := ListActive(r, st);
    RowsStart(r, st);
    list := AddProposals(r, st, list);
  }

  /** A summary is a normal form: there is one list only, whatever order the tables
      are read in. */
  lemma SummaryUnique(r: Reader, st: State, a: seq<Entry>, b: seq<Entry>)
    requires Canonical(a) && AsMap(a) == SummaryMap(r, st)
    requires Canonical(b) && AsMap(b) == SummaryMap(r, st)
    ensures a == b
  {
    CanonicalUnique(a, b);
  }

  /** What a row says, field by field: the sidechain's own numbers, and for an
      active one its current treasury UTXO with its sequence number, and its bundles
      ordered by id. */
  lemma RowsSay(r: Reader, st: State, sc: Sidechain)
    ensures var e, slot := EntryOf(r, st, sc), sc.proposal.slot;
      && e.slot == slot && e.hash == r.hash(sc.proposal.description)
      && e.title == r.title(sc.proposal.description) && e.description == r.text(sc.proposal.description)
      && e.votes == sc.votes && e.proposalHeight == sc.proposalHeight && e.activationHeight == sc.activationHeight
      && (sc.activationHeight.None? ==> e.ctip == None && e.sequence == None && e.pending == [])
      && (sc.activationHeight.Some? ==>
            && multiset(e.pending) == multiset(PendingOf(st, slot)) && SortedById(e.pending)
            && e.ctip == CtipOf(st.treasury, slot)
            && (slot in st.treasury && st.treasury[slot] != [] ==> e.sequence == Some(|st.treasury[slot]| - 1)))
  {
    SortPendingSorts(PendingOf(st, sc.proposal.slot));
  }

  // ----- What equal summaries mean

  ghost predicate Holds(st: State, sc: Sidechain) {
    sc in st.active.Values || sc in st.proposals.Values
  }

  /** No sidechain of one state has the slot and the hash of another sidechain of
      the other state. */
  ghost predicate NoCollision(r: Reader, a: State, b: State) {
    forall x, y | Holds(a, x) && Holds(b, y) && KeyFor(r, x) == KeyFor(r, y) :: x.proposal == y.proposal
  }

  /** The proposals that a summary shows: not those of active sidechains that were
      proposed again. */
  ghost function Visible(r: Reader, st: State): map<ProposalId, Sidechain> {
    map id | id in st.proposals && id !in ActiveKeys(r, st, st.active.Keys) :: st.proposals[id]
  }

  /** Everything that two states with equal summaries share: the active sidechains
      and the visible proposals, each treasury's current UTXO and its number, and
      each sidechain's bundles, in some order. */
  ghost predicate SameVisible(r: Reader, a: State, b: State) {
    && a.active == b.active && Visible(r, a) == Visible(r, b)
    && forall s | s in a.active :: SameSlot(a, b, s)
  }

  ghost predicate SameSlot(a: State, b: State, s: Slot) {
    && CtipOf(a.treasury, s) == CtipOf(b.treasury, s) && SequenceOf(a.treasury, s) == SequenceOf(b.treasury, s)
    && multiset(PendingOf(a, s)) == multiset(PendingOf(b, s))
  }

  ghost predicate PlainPending(st: State) {
    forall s: Slot :: PlainIds(PendingOf(st, s))
  }

  lemma RowFor(r: Reader, st: State, k: Key)
    requires WellKeyed(r, st)
    ensures k in SummaryMap(r, st) <==> k in ActiveKeys(r, st, st.active.Keys) || k in st.proposals
    ensures k in ActiveKeys(r, st, st.active.Keys) ==>
      k.slot in st.active && KeyFor(r, st.active[k.slot]) == k
          && SummaryMap(r, st)[k] == EntryOf(r, st, st.active[k.slot])
    ensures k !in ActiveKeys(r, st, st.active.Keys) && k in st.proposals ==>
        SummaryMap(r, st)[k] == EntryOf(r, st, st.proposals[k])
  {
  }

  lemma ActiveKey(r: Reader, st: State, s: Slot)
    requires WellKeyed(r, st) && s in st.active
    ensures KeyFor(r, st.active[s]) in ActiveKeys(r, st, st.active.Keys) && KeyFor(r, st.active[s]).slot == s
  {
  }

  /** An entry tells its sidechain, and for an active one the treasury and the
      bundles in some order. */
  lemma EntryTells(r: Reader, a: State, b: State, x: Sidechain, y: Sidechain)
    requires KeyFor(r, x) == KeyFor(r, y) ==> x.proposal == y.proposal
    requires PlainPending(a) && PlainPending(b)
    ensures EntryOf(r, a, x) == EntryOf(r, b, y) <==>
      x == y && (x.activationHeight.Some? ==> SameSlot(a, b, x.proposal.slot))
  {
    var s := x.proposal.slot;
    SortedEqualExactly(PendingOf(a, s), PendingOf(b, s));
    if EntryOf(r, a, x) == EntryOf(r, b, y) { assert KeyFor(r, x) == KeyFor(r, y); }
  }

  lemma SameSummaryActive(r: Reader, a: State, b: State, s: Slot)
    requires WellKeyed(r, a) && WellKeyed(r, b) && NoCollision(r, a, b) && PlainPending(a) && PlainPending(b)
    requires SummaryMap(r, a) == SummaryMap(r, b) && s in a.active
    ensures s in b.active && a.active[s] == b.active[s] && SameSlot(a, b, s)
  {
    var k := KeyFor(r, a.active[s]);
    assert Holds(a, a.active[s]);
    ActiveKey(r, a, s);
    RowFor(r, a, k);
    RowFor(r, b, k);
    assert k in ActiveKeys(r, b, b.active.Keys);
    assert Holds(b, b.active[s]);
    EntryTells(r, a, b, a.active[s], b.active[s]);
  }

  lemma SameSummaryProposal(r: Reader, a: State, b: State, id: ProposalId)
    requires WellKeyed(r, a) && WellKeyed(r, b) && NoCollision(r, a, b) && PlainPending(a) && PlainPending(b)
    requires SummaryMap(r, a) == SummaryMap(r, b) && id in Visible(r, a)
    ensures id in b.proposals && a.proposals[id] == b.proposals[id]
  {
    assert Holds(a, a.proposals[id]);
    RowFor(r, a, id);
    RowFor(r, b, id);
    assert id !in ActiveKeys(r, b, b.active.Keys);
    assert Holds(b, b.proposals[id]);
    EntryTells(r, a, b, a.proposals[id], b.proposals[id]);
  }

  lemma SameSummaryTells(r: Reader, a: State, b: State)
    requires WellKeyed(r, a) && WellKeyed(r, b) && NoCollision(r, a, b) && PlainPending(a) && PlainPending(b)
    requires SummaryMap(r, a) == SummaryMap(r, b)
    ensures forall s | s in a.active :: s in b.active && a.active[s] == b.active[s] && SameSlot(a, b, s)
    ensures forall id | id in Visible(r, a) :: id in b.proposals && a.proposals[id] == b.proposals[id]
  {
    forall s | s in a.active ensures s in b.active && a.active[s] == b.active[s] && SameSlot(a, b, s) {
      SameSummaryActive(r, a, b, s);
    }
    forall id | id in Visible(r, a) ensures id in b.proposals && a.proposals[id] == b.proposals[id] {
      SameSummaryProposal(r, a, b, id);
    }
  }

  lemma SameKeys(r: Reader, a: State, b: State)
    requires a.active == b.active
    ensures ActiveKeys(r, a, a.active.Keys) == ActiveKeys(r, b, b.active.Keys)
  {
  }

  lemma SameVisibleSummary(r: Reader, a: State, b: State)
    requires WellKeyed(r, a) && WellKeyed(r, b) && PlainPending(a) && PlainPending(b)
    requires SameVisible(r, a, b)
    ensures SummaryMap(r, a) == SummaryMap(r, b)
  {
    var x, y := SummaryMap(r, a), SummaryMap(r, b);
    forall k | k in x ensures k in y && x[k] == y[k] { SameVisibleRow(r, a, b, k); }
    forall k | k in y ensures k in x { SameVisibleRow(r, a, b, k); }
    MapsEqual(x, y);
  }

  ghost predicate SameRow(r: Reader, a: State, b: State, k: Key) {
    && (k in SummaryMap(r, a) <==> k in SummaryMap(r, b))
    && (k in SummaryMap(r, a) ==> SummaryMap(r, a)[k] == SummaryMap(r, b)[k])
  }

  lemma SameVisibleRow(r: Reader, a: State, b: State, k: Key)
    requires WellKeyed(r, a) && WellKeyed(r, b) && PlainPending(a) && PlainPending(b)
    requires SameVisible(r, a, b)
    ensures SameRow(r, a, b, k)
  {
    SameKeys(r, a, b);
    RowFor(r, a, k);
    RowFor(r, b, k);
    assert k in Visible(r, a) <==> k in Visible(r, b);
    if k in ActiveKeys(r, a, a.active.Keys) {
      EntryTells(r, a, b, a.active[k.slot], b.active[k.slot]);
    } else if k in Visible(r, a) {
      assert Visible(r, a)[k] == Visible(r, b)[k];
      EntryTells(r, a, b, a.proposals[k], b.proposals[k]);
    }
  }

  /** Two states have equal summaries exactly when they share everything a summary
      shows. What it forgets: the order of pending bundles, by which votes name
      them; the treasury UTXOs below the current one; and the proposals of active
      sidechains that were proposed again. */
  lemma SummariesEqualExactly(r: Reader, a: State, b: State, x: seq<Entry>, y: seq<Entry>)
    requires WellKeyed(r, a) && WellKeyed(r, b) && NoCollision(r, a, b) && PlainPending(a) && PlainPending(b)
    requires Canonical(x) && AsMap(x) == SummaryMap(r, a)
    requires Canonical(y) && AsMap(y) == SummaryMap(r, b)
    ensures x == y <==> SameVisible(r, a, b)
  {
    if SameVisible(r, a, b) {
      SameVisibleSummary(r, a, b);
      CanonicalUnique(x, y);
    }
    if x == y { SameSummaryVisible(r, a, b); }
  }

  lemma SameSummaryVisible(r: Reader, a: State, b: State)
    requires WellKeyed(r, a) && WellKeyed(r, b) && NoCollision(r, a, b) && PlainPending(a) && PlainPending(b)
    requires SummaryMap(r, a) == SummaryMap(r, b)
    ensures SameVisible(r, a, b)
  {
    SameSummaryTells(r, a, b);
    SameSummaryTells(r, b, a);
    MapsEqual(a.active, b.active);
    SameKeys(r, a, b);
    MapsEqual(Visible(r, a), Visible(r, b));
  }

  /** There are such states: two bundles of one active sidechain, in either order. */
  lemma StatesToCompare() returns (r: Reader, a: State, b: State)
    ensures WellKeyed(r, a) && WellKeyed(r, b) && NoCollision(r, a, b) && PlainPending(a) && PlainPending(b)
    ensures a != b && SameVisible(r, a, b)
  {
    var ones, twos: Bytes := seq(32, _ => 1), seq(32, _ => 2);
    assert ones[0] != twos[0];
    var x, y := Pending(ones, 1, 0), Pending(twos, 1, 0);
    r := Reader(_ => ones, _ => None, _ => None);
    var sc := Sidechain(Proposal(0, []), 0, 0, Some(0));
    a := State(map[], map[0 := sc], map[0 := [x, y]], map[]);
    b := a.(pending := map[0 := [y, x]]);
    assert a.pending[0][0] != b.pending[0][0];
    VisibleKept(r, a, b);
  }

  lemma MapsEqual<K, V>(m: map<K, V>, n: map<K, V>)
    requires (forall k | k in m :: k in n && m[k] == n[k]) && (forall k | k in n :: k in m)
    ensures m == n
  {
  }

  function Swapped(p: seq<Pending>, i: nat, j: nat): seq<Pending>
    requires i < |p| && j < |p|
  {
    p[i := p[j]][j := p[i]]
  }

  lemma SwappedPlain(p: seq<Pending>, i: nat, j: nat)
    requires PlainIds(p) && i < j < |p|
    ensures PlainIds(Swapped(p, i, j)) && Swapped(p, i, j) != p && multiset(Swapped(p, i, j)) == multiset(p)
  {
    assert Swapped(p, i, j)[i].m6id != p[i].m6id;
  }

  /** So equal summaries do not mean equal states: swap any two bundles of any
      active sidechain, and what a vote for either position means is swapped, but
      the summary stays the same. */
  lemma OrderForgotten(r: Reader, st: State, s: Slot, i: nat, j: nat)
    requires WellKeyed(r, st) && PlainPending(st)
    requires s in st.active && s in st.pending && i < j < |st.pending[s]|
    ensures var other := st.(pending := st.pending[s := Swapped(st.pending[s], i, j)]);
      other != st && WellKeyed(r, other) && SummaryMap(r, other) == SummaryMap(r, st)
  {
    var q := Swapped(st.pending[s], i, j);
    var other := st.(pending := st.pending[s := q]);
    assert PlainIds(PendingOf(st, s));
    SwappedPlain(st.pending[s], i, j);
    assert other.pending[s] != st.pending[s];
    forall t: Slot ensures PlainIds(PendingOf(other, t))
        && multiset(PendingOf(other, t)) == multiset(PendingOf(st, t)) {
      assert t != s ==> PendingOf(other, t) == PendingOf(st, t);
      assert PlainIds(PendingOf(st, t));
    }
    VisibleKept(r, st, other);
    SameVisibleSummary(r, other, st);
  }

  lemma VisibleKept(r: Reader, st: State, other: State)
    requires other.active == st.active && other.proposals == st.proposals
    ensures Visible(r, other) == Visible(r, st)
  {
    SameKeys(r, other, st);
  }

  /** And whatever the treasury UTXOs below the current ones were, the summary is
      the same. */
  lemma HistoryForgotten(r: Reader, st: State, stacks: Stacks)
    requires WellKeyed(r, st) && PlainPending(st)
    requires forall s | s in st.active ::
      CtipOf(stacks, s) == CtipOf(st.treasury, s) && SequenceOf(stacks, s) == SequenceOf(st.treasury, s)
    ensures SummaryMap(r, st.(treasury := stacks)) == SummaryMap(r, st)
  {
    var other := st.(treasury := stacks);
    forall s: Slot ensures PlainIds(PendingOf(other, s)) { assert PlainIds(PendingOf(st, s)); }
    VisibleKept(r, st, other);
    SameVisibleSummary(r, other, st);
  }
}
