/** One row of the block producer's policy tables: the mark that says in which
    block its proposal was mined or its bundle settled, against a scan of the
    whole chain. */
module PolicyMarks {
  import opened Prelude
  import opened Ledger

  datatype BundleKey = BundleKey(slot: Slot, m6id: Bytes)

  datatype EventKind = Submitted | Failed | Succeeded

  datatype BundleEvent = BundleEvent(key: BundleKey, kind: EventKind)

  /** What a block says to the policy tables; `nonce` is all the rest of it. */
  datatype BlockInfo = BlockInfo(nonce: nat, proposals: seq<ProposalId>, bundles: seq<BundleEvent>)

  /** The blocks from the first one on, so position is height. */
  type Chain = seq<BlockInfo>

  /** A block hash names a block together with all its ancestors, so the chain
      that ends in the block stands for its hash. */
  type BlockId = Chain

  /** What a block says about one row: for a bundle, whether it was paid out. */
  type Hit = BlockInfo -> Option<bool>

  /** The block that marks a row, with what it says. */
  type Mark = Option<(BlockId, bool)>

  /** A row takes marks only from blocks above the height it was queued at. */
  predicate Above(queuedAt: Option<nat>, height: nat) {
    queuedAt.None? || queuedAt.value < height
  }

  predicate Matches(hit: Hit, q: Option<nat>, c: Chain, i: nat)
    requires i < |c|
  {
    Above(q, i) && hit(c[i]).Some?
  }

  /** The whole-chain scan: the last matching block among the first `n`. */
  function LastHit(hit: Hit, q: Option<nat>, c: Chain, n: nat): Mark
    requires n <= |c|
  {
    if n == 0 then None
    else if Matches(hit, q, c, n - 1) then Some((c[..n], hit(c[n - 1]).value))
    else LastHit(hit, q, c, n - 1)
  }

  /** Marking a row block by block, from height `lo` up to `n`. */
  function Through(hit: Hit, q: Option<nat>, c: Chain, lo: nat, n: nat, mark: Mark): Mark
    requires lo <= n <= |c|
  {
    if n == lo then mark
    else if Matches(hit, q, c, n - 1) then Some((c[..n], hit(c[n - 1]).value))
    else Through(hit, q, c, lo, n - 1, mark)
  }

  ghost predicate HitBetween(hit: Hit, q: Option<nat>, c: Chain, lo: nat, n: nat)
    requires lo <= n <= |c|
  {
    exists i | lo <= i < n :: Matches(hit, q, c, i)
  }

  // ----- Scans

  /** The scan finds a matching block, above which none matches, or there is
      none. */
  lemma {:induction false} LastHitFinds(hit: Hit, q: Option<nat>, c: Chain, n: nat)
    requires n <= |c|
    ensures match LastHit(hit, q, c, n)
      case None => !HitBetween(hit, q, c, 0, n)
      case Some((block, v)) =>
        && 0 < |block| <= n && block == c[..|block|]
        && Matches(hit, q, c, |block| - 1) && hit(c[|block| - 1]) == Some(v)
        && !HitBetween(hit, q, c, |block|, n)
  {
    if n > 0 && !Matches(hit, q, c, n - 1) { LastHitFinds(hit, q, c, n - 1); }
  }

  lemma {:induction false} LastHitPrefix(hit: Hit, q: Option<nat>, a: Chain, b: Chain, n: nat)
    requires n <= |a| && n <= |b| && a[..n] == b[..n]
    ensures LastHit(hit, q, a, n) == LastHit(hit, q, b, n)
  {
    if n > 0 {
      assert a[n - 1] == a[..n][n - 1] == b[..n][n - 1] == b[n - 1];
      assert a[..n - 1] == a[..n][..n - 1] == b[..n][..n - 1] == b[..n - 1];
      LastHitPrefix(hit, q, a, b, n - 1);
    }
  }

  /** Marking block by block ends at the last match above `lo`, or leaves the
      mark alone. */
  lemma {:induction false} ThroughIs(hit: Hit, q: Option<nat>, c: Chain, lo: nat, n: nat, mark: Mark)
    requires lo <= n <= |c|
    ensures Through(hit, q, c, lo, n, mark) == if HitBetween(hit, q, c, lo, n) then LastHit(hit, q, c, n) else mark
    ensures !HitBetween(hit, q, c, lo, n) ==> LastHit(hit, q, c, n) == LastHit(hit, q, c, lo)
  {
    if n > lo {
      ThroughIs(hit, q, c, lo, n - 1, mark);
      if !Matches(hit, q, c, n - 1) {
        assert HitBetween(hit, q, c, lo, n - 1) <==> HitBetween(hit, q, c, lo, n);
      }
    }
  }

  // ----- Forks

  /** The number of blocks that two chains share. */
  function Shared(a: Chain, b: Chain, i: nat := 0): (n: nat)
    requires i <= |a| && i <= |b| && a[..i] == b[..i]
    ensures i <= n <= |a| && n <= |b| && a[..n] == b[..n]
    ensures n < |a| && n < |b| ==> a[n] != b[n]
    decreases |a| - i
  {
    if i < |a| && i < |b| && a[i] == b[i] then
      assert a[..i + 1] == a[..i] + [a[i]] && b[..i + 1] == b[..i] + [b[i]];
      Shared(a, b, i + 1)
    else i
  }

  /** Two chains have the same ancestor at a height exactly when it is among the
      shared ones. */
  lemma SharedExact(a: Chain, b: Chain, n: nat)
    requires n <= |a| && n <= |b|
    ensures a[..n] == b[..n] <==> n <= Shared(a, b)
  {
    var s := Shared(a, b);
    if n <= s {
      assert a[..n] == a[..s][..n] && b[..n] == b[..s][..n];
    } else {
      assert a[..n][s] != b[..n][s];
    }
  }

  /** The search for the last common ancestor: both branches are cut to the same
      height and then walked down together. */
  method LastCommonAncestor(a: Chain, b: Chain) returns (n: nat)
    ensures n == Shared(a, b)
  {
    n := if |a| < |b| then |a| else |b|;
    while a[..n] != b[..n]
      invariant Shared(a, b) <= n <= |a| && n <= |b|
      decreases n
    {
      SharedExact(a, b, n);
      n := n - 1;
    }
    SharedExact(a, b, n);
  }

  // ----- Reconciling one mark

  /** Clears a mark that names a block of `was` above its first `fork` ones. */
  function Cleared(mark: Mark, was: Chain, fork: nat): Mark
    requires fork <= |was|
  {
    if mark.Some? && fork < |mark.value.0| <= |was| && mark.value.0 == was[..|mark.value.0|] then None else mark
  }

  /** Moving the cursor from `was` to `c`. */
  function Moved(hit: Hit, q: Option<nat>, was: Chain, c: Chain, mark: Mark): Mark {
    var fork := Shared(was, c);
    Through(hit, q, c, fork, |c|, Cleared(mark, was, fork))
  }

  /** A mark names a matching block of the chain. */
  ghost predicate Sound(hit: Hit, q: Option<nat>, c: Chain, mark: Mark) {
    mark.Some? ==>
      var (block, v) := mark.value;
      && 0 < |block| <= |c| && block == c[..|block|]
      && Matches(hit, q, c, |block| - 1) && hit(c[|block| - 1]) == Some(v)
  }

  /** A mark is what the scan of the whole chain gives. */
  predicate Agrees(hit: Hit, q: Option<nat>, c: Chain, mark: Mark) {
    mark == LastHit(hit, q, c, |c|)
  }

  lemma AgreesSound(hit: Hit, q: Option<nat>, c: Chain, mark: Mark)
    requires Agrees(hit, q, c, mark)
    ensures Sound(hit, q, c, mark)
  {
    LastHitFinds(hit, q, c, |c|);
  }

  /** Whatever the history, a reconciled mark is sound. */
  lemma MovedSound(hit: Hit, q: Option<nat>, was: Chain, c: Chain, mark: Mark)
    requires Sound(hit, q, was, mark)
    ensures Sound(hit, q, c, Moved(hit, q, was, c, mark))
  {
    var fork := Shared(was, c);
    var kept := Cleared(mark, was, fork);
    ThroughIs(hit, q, c, fork, |c|, kept);
    LastHitFinds(hit, q, c, |c|);
    if kept.Some? {
      var n := |kept.value.0|;
      assert was[..fork][..n] == was[..n] && c[..fork][..n] == c[..n];
      assert was[n - 1] == was[..n][n - 1] && c[n - 1] == c[..n][n - 1];
    }
  }

  /** The mark that gets lost: its block is disconnected, an older matching block
      stays, and no newly connected block matches. */
  ghost predicate Lost(hit: Hit, q: Option<nat>, was: Chain, c: Chain) {
    var fork := Shared(was, c);
    && HitBetween(hit, q, was, 0, fork)
    && HitBetween(hit, q, was, fork, |was|)
    && !HitBetween(hit, q, c, fork, |c|)
  }

  /** Reconciling keeps a row in agreement with the scan exactly when no mark is
      lost. */
  lemma MovedAgrees(hit: Hit, q: Option<nat>, was: Chain, c: Chain, mark: Mark)
    requires Agrees(hit, q, was, mark)
    ensures Agrees(hit, q, c, Moved(hit, q, was, c, mark)) <==> !Lost(hit, q, was, c)
  {
    var fork := Shared(was, c);
    var kept := Cleared(mark, was, fork);
    ThroughIs(hit, q, c, fork, |c|, kept);
    ThroughIs(hit, q, was, fork, |was|, None);
    LastHitPrefix(hit, q, was, c, fork);
    LastHitFinds(hit, q, was, |was|);
    LastHitFinds(hit, q, was, fork);
    if HitBetween(hit, q, was, fork, |was|) {
      var i :| fork <= i < |was| && Matches(hit, q, was, i);
      assert mark.Some? && |mark.value.0| > i;
      assert kept.None?;
    } else {
      assert mark == LastHit(hit, q, was, fork);
      assert kept == mark;
    }
  }

  // ----- When nothing is lost

  ghost predicate AtMostOne(hit: Hit, q: Option<nat>, c: Chain) {
    forall i, j | 0 <= i < j < |c| :: !(Matches(hit, q, c, i) && Matches(hit, q, c, j))
  }

  lemma AtMostOneKeeps(hit: Hit, q: Option<nat>, was: Chain, c: Chain)
    requires AtMostOne(hit, q, was)
    ensures !Lost(hit, q, was, c)
  {
  }

  /** A chain that only grows loses nothing. */
  lemma GrowthKeeps(hit: Hit, q: Option<nat>, was: Chain, c: Chain)
    requires |was| <= |c| && was == c[..|was|]
    ensures !Lost(hit, q, was, c)
  {
    var fork := Shared(was, c);
    assert forall i | 0 <= i < |was| :: was[i] == c[..|was|][i] == c[i];
    assert fork == |was|;
  }

  /** With at most one matching block, the chain has one that says `v` exactly
      when the scan finds one that says `v`. */
  lemma ScanDecides(hit: Hit, q: Option<nat>, c: Chain, v: bool)
    requires AtMostOne(hit, q, c)
    ensures (LastHit(hit, q, c, |c|).Some? && LastHit(hit, q, c, |c|).value.1 == v)
       <==> exists i | 0 <= i < |c| :: Above(q, i) && hit(c[i]) == Some(v)
  {
    LastHitFinds(hit, q, c, |c|);
    if i :| 0 <= i < |c| && Above(q, i) && hit(c[i]) == Some(v) {
      assert Matches(hit, q, c, i);
    }
  }

  /** Without the proviso, marks do get lost: some block of a chain matches, a
      later one `again` matches too, and a reorg replaces only that one. */
  lemma LostByReorg(hit: Hit, q: Option<nat>, common: Chain, again: BlockInfo, other: BlockInfo)
    requires HitBetween(hit, q, common, 0, |common|) && Above(q, |common|)
    requires hit(again).Some? && hit(other).None?
    ensures var was, c := common + [again], common + [other];
      && Lost(hit, q, was, c)
      && Moved(hit, q, was, c, LastHit(hit, q, was, |was|)) == None && LastHit(hit, q, c, |c|).Some?
  {
    var was, c, n := common + [again], common + [other], |common|;
    SharedExact(was, c, n);
    SharedExact(was, c, n + 1);
    assert was[..n] == common && c[..n] == common && was[n] != c[n];
    assert was[..n + 1][n] != c[..n + 1][n];
    assert Shared(was, c) == n;
    var i :| 0 <= i < n && Matches(hit, q, common, i);
    assert Matches(hit, q, was, i) && Matches(hit, q, was, n) && Matches(hit, q, c, i) && !Matches(hit, q, c, n);
    LastHitFinds(hit, q, c, |c|);
    assert LastHit(hit, q, was, |was|).value.0 == was[..n + 1] == was;
    ThroughIs(hit, q, c, n, n + 1, None);
  }
}
