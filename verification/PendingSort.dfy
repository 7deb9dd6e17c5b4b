/** Pending bundles sorted by id, as summaries list them. */
module PendingSort {
  import opened Prelude
  import opened Encoding
  import opened Ledger

  lemma SameNumberSameHash(a: Bytes, b: Bytes)
    requires |a| == |b| && BigEndianValue(a) == BigEndianValue(b)
    ensures a == b
  {
    BigEndianOfValue(a);
    BigEndianOfValue(b);
  }

  function SortPending(p: seq<Pending>): seq<Pending> {
    if p == [] then [] else InsertPending(SortPending(p[..|p| - 1]), p[|p| - 1])
  }

  function InsertPending(p: seq<Pending>, b: Pending): seq<Pending> {
    if p == [] || BigEndianValue(p[|p| - 1].m6id) <= BigEndianValue(b.m6id) then p + [b]
    else InsertPending(p[..|p| - 1], b) + [p[|p| - 1]]
  }

  ghost predicate SortedById(p: seq<Pending>) {
    forall i, j | 0 <= i < j < |p| :: BigEndianValue(p[i].m6id) <= BigEndianValue(p[j].m6id)
  }

  lemma BelowLast(front: seq<Pending>, last: Pending, b: Pending, rest: seq<Pending>)
    requires SortedById(front + [last]) && BigEndianValue(b.m6id) < BigEndianValue(last.m6id)
    requires multiset(rest) == multiset(front) + multiset{b}
    ensures forall i | 0 <= i < |rest| :: BigEndianValue(rest[i].m6id) <= BigEndianValue(last.m6id)
  {
    forall i | 0 <= i < |rest| ensures BigEndianValue(rest[i].m6id) <= BigEndianValue(last.m6id) {
      assert rest[i] in multiset(rest);
      if rest[i] != b {
        assert rest[i] in multiset(front);
        var j :| 0 <= j < |front| && front[j] == rest[i];
        assert (front + [last])[j] == front[j] && (front + [last])[|front|] == last;
      }
    }
  }

  lemma {:induction false} InsertPendingSorts(p: seq<Pending>, b: Pending)
    requires SortedById(p)
    ensures SortedById(InsertPending(p, b)) && multiset(InsertPending(p, b)) == multiset(p) + multiset{b}
  {
    if p != [] && BigEndianValue(p[|p| - 1].m6id) > BigEndianValue(b.m6id) {
      var front, last := p[..|p| - 1], p[|p| - 1];
      assert p == front + [last];
      InsertPendingSorts(front, b);
      BelowLast(front, last, b, InsertPending(front, b));
      AppendSorted(InsertPending(front, b), last);
    }
  }

  lemma AppendSorted(p: seq<Pending>, last: Pending)
    requires SortedById(p) && forall i | 0 <= i < |p| :: BigEndianValue(p[i].m6id) <= BigEndianValue(last.m6id)
    ensures SortedById(p + [last])
  {
  }

  /** Sorting gives an ordered permutation. */
  lemma {:induction false} SortPendingSorts(p: seq<Pending>)
    ensures SortedById(SortPending(p)) && multiset(SortPending(p)) == multiset(p)
  {
    if p != [] {
      var front, last := p[..|p| - 1], p[|p| - 1];
      assert p == front + [last];
      SortPendingSorts(front);
      InsertPendingSorts(SortPending(front), last);
    }
  }

  /** Ids are 32 bytes and distinct, as the validator keeps them. */
  ghost predicate PlainIds(p: seq<Pending>) {
    DistinctIds(p) && forall i | 0 <= i < |p| :: |p[i].m6id| == 32
  }

  /** The greatest id of a set of bundles. */
  ghost predicate Greatest(m: multiset<Pending>, b: Pending) {
    b in m && forall x | x in m :: BigEndianValue(x.m6id) <= BigEndianValue(b.m6id)
  }

  lemma LastGreatest(p: seq<Pending>)
    requires SortedById(p) && p != []
    ensures Greatest(multiset(p), p[|p| - 1])
  {
    forall x | x in multiset(p) ensures BigEndianValue(x.m6id) <= BigEndianValue(p[|p| - 1].m6id) {
      var i :| 0 <= i < |p| && p[i] == x;
    }
  }

  /** Different bundles have ids of different value. */
  ghost predicate DistinctNumbers(m: multiset<Pending>) {
    forall x, y | x in m && y in m && BigEndianValue(x.m6id) == BigEndianValue(y.m6id) :: x == y
  }

  lemma GreatestUnique(m: multiset<Pending>, x: Pending, y: Pending)
    requires DistinctNumbers(m) && Greatest(m, x) && Greatest(m, y)
    ensures x == y
  {
  }

  lemma FrontOf(p: seq<Pending>)
    requires p != []
    ensures multiset(p[..|p| - 1]) == multiset(p) - multiset{p[|p| - 1]}
    ensures DistinctNumbers(multiset(p)) ==> DistinctNumbers(multiset(p[..|p| - 1]))
  {
    assert p == p[..|p| - 1] + [p[|p| - 1]];
    assert forall x | x in multiset(p[..|p| - 1]) :: x in multiset(p);
  }

  /** A sorted list is determined by what is in it. */
  lemma {:induction false} SortedUnique(a: seq<Pending>, b: seq<Pending>)
    requires SortedById(a) && SortedById(b) && multiset(a) == multiset(b) && DistinctNumbers(multiset(a))
    ensures a == b
  {
    SameLength(a, b);
    if a != [] {
      var n := |a| - 1;
      LastsEqual(a, b);
      FrontsAgree(a, b);
      SortedUnique(a[..n], b[..n]);
      SameParts(a, b, n);
    }
  }

  lemma FrontSorted(p: seq<Pending>)
    requires SortedById(p) && p != []
    ensures SortedById(p[..|p| - 1])
  {
  }

  lemma FrontsAgree(a: seq<Pending>, b: seq<Pending>)
    requires SortedById(a) && SortedById(b) && multiset(a) == multiset(b) && DistinctNumbers(multiset(a))
    requires a != [] && b != [] && a[|a| - 1] == b[|b| - 1]
    ensures SortedById(a[..|a| - 1]) && SortedById(b[..|b| - 1])
    ensures multiset(a[..|a| - 1]) == multiset(b[..|b| - 1]) && DistinctNumbers(multiset(a[..|a| - 1]))
  {
    FrontOf(a);
    FrontOf(b);
    FrontSorted(a);
    FrontSorted(b);
  }

  lemma SameLength(a: seq<Pending>, b: seq<Pending>)
    requires multiset(a) == multiset(b)
    ensures |a| == |b|
  {
    assert |a| == |multiset(a)| && |b| == |multiset(b)|;
  }

  lemma LastsEqual(a: seq<Pending>, b: seq<Pending>)
    requires SortedById(a) && SortedById(b) && multiset(a) == multiset(b) && DistinctNumbers(multiset(a)) && a != []
        && b != []
    ensures a[|a| - 1] == b[|b| - 1]
  {
    LastGreatest(a);
    LastGreatest(b);
    GreatestUnique(multiset(a), a[|a| - 1], b[|b| - 1]);
  }

  lemma SameParts(a: seq<Pending>, b: seq<Pending>, n: nat)
    requires |a| == |b| == n + 1 && a[..n] == b[..n] && a[n] == b[n]
    ensures a == b
  {
    assert a == a[..n] + [a[n]] && b == b[..n] + [b[n]];
  }

  lemma PlainNumbers(p: seq<Pending>)
    requires PlainIds(p)
    ensures DistinctNumbers(multiset(p))
  {
    forall x, y | x in multiset(p) && y in multiset(p) && BigEndianValue(x.m6id) == BigEndianValue(y.m6id)
        ensures x == y {
      var i :| 0 <= i < |p| && p[i] == x;
      var j :| 0 <= j < |p| && p[j] == y;
      SameNumberSameHash(x.m6id, y.m6id);
    }
  }

  /** Sorted lists are equal exactly when the lists are permutations. */
  lemma SortedEqualExactly(a: seq<Pending>, b: seq<Pending>)
    requires PlainIds(a) && PlainIds(b)
    ensures SortPending(a) == SortPending(b) <==> multiset(a) == multiset(b)
  {
    SortPendingSorts(a);
    SortPendingSorts(b);
    PlainNumbers(a);
    if multiset(a) == multiset(b) { SortedUnique(SortPending(a), SortPending(b)); }
  }
}
