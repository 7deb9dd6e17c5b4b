/** No coin is spent twice in a suffix. */
module SuffixSpends {
  import opened Prelude
  import opened Script
  import opened Transactions
  import opened Validator
  import opened Suffix
  import opened SuffixRun

  /** The payouts of one sidechain. */
  function PaymentsOf(p: Params, proposals: Proposals, ctips: Ctips, s: Slot): seq<Payment> {
    SlotResult(p, proposals, ctips, s).payments
  }

  /** The coins that the `k`-th payout of a sidechain spends; behind the last
      payout, the coins that are left. */
  function Group(p: Params, proposals: Proposals, ctips: Ctips, s: Slot, k: nat): seq<Ctip>
    requires k <= |PaymentsOf(p, proposals, ctips, s)|
  {
    if k == 0 then Coins(PurseOf(ctips, s)) else [PaymentsOf(p, proposals, ctips, s)[k - 1].successor]
  }

  /** Coins are distinct, and older than the payouts. */
  ghost predicate DistinctCoins(p: Params, proposals: Proposals, ctips: Ctips) {
    && (forall s: Slot, i: nat, s': Slot, i': nat | i < |Coins(PurseOf(ctips, s))|
        && i' < |Coins(PurseOf(ctips, s'))| ::
          Coins(PurseOf(ctips, s))[i].outpoint == Coins(PurseOf(ctips, s'))[i'].outpoint ==> s == s' && i == i')
    && (forall s: Slot, i: nat, s': Slot, k: nat | i < |Coins(PurseOf(ctips, s))|
        && k < |PaymentsOf(p, proposals, ctips, s')| ::
          Coins(PurseOf(ctips, s))[i].outpoint.txid != p.txid(PaymentsOf(p, proposals, ctips, s')[k].tx))
  }

  lemma PaymentFacts(p: Params, proposals: Proposals, ctips: Ctips, s: Slot, k: nat)
    requires k < |PaymentsOf(p, proposals, ctips, s)|
    ensures var payment := PaymentsOf(p, proposals, ctips, s)[k];
      && payment.spent == Group(p, proposals, ctips, s, k) && payment.spent != []
      && payment.tx.inputs == SpendAll(payment.spent)
      && payment.tx.outputs != [] && payment.tx.outputs[0].script == TreasuryScript(p.op, s)
      && payment.successor.outpoint == OutPoint(p.txid(payment.tx), 0)
  {
    var cands := CandidatesOf(proposals, s);
    PaySlotSound(p, s, cands, |cands|, PurseOf(ctips, s));
    var payments := PaymentsOf(p, proposals, ctips, s);
    assert PaymentOk(p, s, payments[k]) && ChainedAt(payments, PurseOf(ctips, s), k);
  }

  /** What is left is the last group. */
  lemma LeftIsLastGroup(p: Params, proposals: Proposals, ctips: Ctips, s: Slot)
    ensures Coins(SlotResult(p, proposals, ctips, s).purse)
        == Group(p, proposals, ctips, s, |PaymentsOf(p, proposals, ctips, s)|)
  {
    var cands := CandidatesOf(proposals, s);
    PaySlotLeft(p, s, cands, |cands|, PurseOf(ctips, s));
    var payments := PaymentsOf(p, proposals, ctips, s);
    if payments != [] { OneCoin(payments[|payments| - 1].successor); }
  }

  /** No two payouts are the same transaction. */
  lemma {:induction false} TxsDistinct(p: Params, proposals: Proposals, ctips: Ctips, s: Slot, k: nat, s': Slot,
                                       k': nat)
    requires CollisionFree(p.txid) && DistinctCoins(p, proposals, ctips)
    requires k < |PaymentsOf(p, proposals, ctips, s)| && k' < |PaymentsOf(p, proposals, ctips, s')|
    requires s != s' || k < k'
    ensures PaymentsOf(p, proposals, ctips, s)[k].tx != PaymentsOf(p, proposals, ctips, s')[k'].tx
    decreases k
  {
    PaymentFacts(p, proposals, ctips, s, k);
    PaymentFacts(p, proposals, ctips, s', k');
    var a, b := PaymentsOf(p, proposals, ctips, s)[k], PaymentsOf(p, proposals, ctips, s')[k'];
    if s != s' {
      DistinctTreasuryScripts(p.op, s, s');
    } else {
      PaymentFacts(p, proposals, ctips, s, k' - 1);
      if k > 0 {
        PaymentFacts(p, proposals, ctips, s, k - 1);
        TxsDistinct(p, proposals, ctips, s, k - 1, s, k' - 1);
      }
      assert a.tx.inputs[0].previous == a.spent[0].outpoint && b.tx.inputs[0].previous == b.spent[0].outpoint;
      assert a.spent[0].outpoint != b.spent[0].outpoint;
    }
  }

  /** No two coins of any two groups are the same. */
  lemma CoinsDistinct(p: Params, proposals: Proposals, ctips: Ctips, s: Slot, k: nat, j: nat, s': Slot, k': nat,
                      j': nat)
    requires CollisionFree(p.txid) && DistinctCoins(p, proposals, ctips)
    requires k <= |PaymentsOf(p, proposals, ctips, s)| && k' <= |PaymentsOf(p, proposals, ctips, s')|
    requires j < |Group(p, proposals, ctips, s, k)| && j' < |Group(p, proposals, ctips, s', k')|
    requires (s, k, j) != (s', k', j')
    ensures Group(p, proposals, ctips, s, k)[j].outpoint != Group(p, proposals, ctips, s', k')[j'].outpoint
  {
    if k == 0 && k' == 0 {
      assert s != s' || j != j';
    } else if k == 0 {
      PaymentFacts(p, proposals, ctips, s', k' - 1);
    } else if k' == 0 {
      PaymentFacts(p, proposals, ctips, s, k - 1);
    } else {
      SuccessorsDistinct(p, proposals, ctips, s, k - 1, s', k' - 1);
    }
  }

  lemma SuccessorsDistinct(p: Params, proposals: Proposals, ctips: Ctips, s: Slot, k: nat, s': Slot, k': nat)
    requires CollisionFree(p.txid) && DistinctCoins(p, proposals, ctips)
    requires k < |PaymentsOf(p, proposals, ctips, s)| && k' < |PaymentsOf(p, proposals, ctips, s')|
    requires s != s' || k != k'
    ensures PaymentsOf(p, proposals, ctips, s)[k].successor.outpoint
         != PaymentsOf(p, proposals, ctips, s')[k'].successor.outpoint
  {
    PaymentFacts(p, proposals, ctips, s, k);
    PaymentFacts(p, proposals, ctips, s', k');
    if s != s' || k < k' {
      TxsDistinct(p, proposals, ctips, s, k, s', k');
    } else {
      TxsDistinct(p, proposals, ctips, s', k', s, k);
    }
  }

  // ----- Lists of inputs

  /** Which coin an input spends: sidechain, group and position. */
  type Coin = (Slot, nat, nat)

  /** Inputs spend the listed coins, none of them twice; `at` says where coins
      are. */
  ghost predicate Spends(at: Coin -> Option<OutPoint>, inputs: seq<TxIn>, coins: seq<Coin>) {
    && |inputs| == |coins|
    && (forall i | 0 <= i < |coins| :: at(coins[i]) == Some(inputs[i].previous))
    && (forall i, j | 0 <= i < j < |coins| :: coins[i] != coins[j])
  }

  /** The two lists have no coin in common. */
  ghost predicate Apart(x: seq<Coin>, y: seq<Coin>) {
    forall i, j | 0 <= i < |x| && 0 <= j < |y| :: x[i] != y[j]
  }

  lemma SpendsMore(at: Coin -> Option<OutPoint>, a: seq<TxIn>, x: seq<Coin>, b: seq<TxIn>, y: seq<Coin>)
    requires Spends(at, a, x) && Spends(at, b, y)
    requires Apart(x, y)
    ensures Spends(at, a + b, x + y)
  {
  }

  /** The coins belong to these sidechains, and to groups before the last. */
  ghost predicate EarlierGroups(counts: Slot -> nat, slots: seq<Slot>, coins: seq<Coin>) {
    forall i | 0 <= i < |coins| :: coins[i].0 in slots && coins[i].1 < counts(coins[i].0)
  }

  /** The coins belong to these sidechains, and to the last group. */
  ghost predicate LastGroups(counts: Slot -> nat, slots: seq<Slot>, coins: seq<Coin>) {
    forall i | 0 <= i < |coins| :: coins[i].0 in slots && coins[i].1 == counts(coins[i].0)
  }

  lemma EarlierMore(counts: Slot -> nat, slots: seq<Slot>, x: seq<Coin>, s: Slot, y: seq<Coin>)
    requires EarlierGroups(counts, slots, x) && EarlierGroups(counts, [s], y) && s !in slots
    ensures EarlierGroups(counts, slots + [s], x + y)
    ensures Apart(x, y)
  {
  }

  lemma LastMore(counts: Slot -> nat, slots: seq<Slot>, x: seq<Coin>, s: Slot, y: seq<Coin>)
    requires LastGroups(counts, slots, x) && LastGroups(counts, [s], y) && s !in slots
    ensures LastGroups(counts, slots + [s], x + y)
    ensures Apart(x, y)
  {
  }

  lemma LastIsApart(order: seq<Slot>)
    requires Distinct(order) && order != []
    ensures order[|order| - 1] !in order[..|order| - 1] && Distinct(order[..|order| - 1])
    ensures order == order[..|order| - 1] + [order[|order| - 1]]
  {
  }

  function AllInputs(txs: seq<Transaction>): seq<TxIn> {
    if txs == [] then [] else AllInputs(txs[..|txs| - 1]) + txs[|txs| - 1].inputs
  }

  lemma {:induction false} AllInputsAppend(a: seq<Transaction>, b: seq<Transaction>)
    ensures AllInputs(a + b) == AllInputs(a) + AllInputs(b)
  {
    if b == [] {
      assert a + b == a;
    } else {
      var n := |b| - 1;
      assert (a + b)[..|a + b| - 1] == a + b[..n];
      AllInputsAppend(a, b[..n]);
    }
  }

  // ----- The coins of the suffix

  predicate IsCoin(p: Params, proposals: Proposals, ctips: Ctips, c: Coin) {
    c.1 <= |PaymentsOf(p, proposals, ctips, c.0)| && c.2 < |Group(p, proposals, ctips, c.0, c.1)|
  }

  function CoinAt(p: Params, proposals: Proposals, ctips: Ctips): Coin -> Option<OutPoint> {
    (c: Coin) =>
      if IsCoin(p, proposals, ctips, c) then Some(Group(p, proposals, ctips, c.0, c.1)[c.2].outpoint) else None
  }

  function PaymentCount(p: Params, proposals: Proposals, ctips: Ctips): Slot -> nat {
    (s: Slot) => |PaymentsOf(p, proposals, ctips, s)|
  }

  function GroupList(p: Params, proposals: Proposals, ctips: Ctips, s: Slot, k: nat): seq<Coin>
    requires k <= |PaymentsOf(p, proposals, ctips, s)|
  {
    seq(|Group(p, proposals, ctips, s, k)|, j requires 0 <= j < |Group(p, proposals, ctips, s, k)| => (s, k, j))
  }

  lemma SpendsGroup(p: Params, proposals: Proposals, ctips: Ctips, s: Slot, k: nat)
    requires k <= |PaymentsOf(p, proposals, ctips, s)|
    ensures Spends(CoinAt(p, proposals, ctips), SpendAll(Group(p, proposals, ctips, s, k)),
                   GroupList(p, proposals, ctips, s, k))
  {
  }

  /** The coins that the first `n` payouts of a sidechain spend. */
  function SlotCoins(p: Params, proposals: Proposals, ctips: Ctips, s: Slot, n: nat): seq<Coin>
    requires n <= |PaymentsOf(p, proposals, ctips, s)|
  {
    if n == 0 then [] else SlotCoins(p, proposals, ctips, s, n - 1) + GroupList(p, proposals, ctips, s, n - 1)
  }

  lemma {:induction false} SlotCoinsBelow(p: Params, proposals: Proposals, ctips: Ctips, s: Slot, n: nat)
    requires n <= |PaymentsOf(p, proposals, ctips, s)|
    ensures forall c | c in SlotCoins(p, proposals, ctips, s, n) :: c.0 == s && c.1 < n
  {
    if n > 0 { SlotCoinsBelow(p, proposals, ctips, s, n - 1); }
  }

  lemma {:induction false} SlotCoinsOf(p: Params, proposals: Proposals, ctips: Ctips, s: Slot, n: nat)
    requires n <= |PaymentsOf(p, proposals, ctips, s)|
    ensures Spends(CoinAt(p, proposals, ctips), AllInputs(PaymentTxs(PaymentsOf(p, proposals, ctips, s))[..n]),
                   SlotCoins(p, proposals, ctips, s, n))
  {
    var txs := PaymentTxs(PaymentsOf(p, proposals, ctips, s));
    if n > 0 {
      SlotCoinsOf(p, proposals, ctips, s, n - 1);
      PaymentFacts(p, proposals, ctips, s, n - 1);
      SpendsGroup(p, proposals, ctips, s, n - 1);
      assert txs[..n][..n - 1] == txs[..n - 1];
      assert txs[n - 1].inputs == SpendAll(Group(p, proposals, ctips, s, n - 1));
      GroupApart(p, proposals, ctips, s, n - 1);
      SpendsMore(CoinAt(p, proposals, ctips), AllInputs(txs[..n - 1]), SlotCoins(p, proposals, ctips, s, n - 1),
                 SpendAll(Group(p, proposals, ctips, s, n - 1)), GroupList(p, proposals, ctips, s, n - 1));
    }
  }

  lemma GroupApart(p: Params, proposals: Proposals, ctips: Ctips, s: Slot, n: nat)
    requires n < |PaymentsOf(p, proposals, ctips, s)|
    ensures Apart(SlotCoins(p, proposals, ctips, s, n), GroupList(p, proposals, ctips, s, n))
  {
    SlotCoinsBelow(p, proposals, ctips, s, n);
    var x := SlotCoins(p, proposals, ctips, s, n);
    assert forall i | 0 <= i < |x| :: x[i] in x;
  }

  lemma SlotCoinsEarlier(p: Params, proposals: Proposals, ctips: Ctips, s: Slot)
    ensures EarlierGroups(PaymentCount(p, proposals, ctips), [s],
                          SlotCoins(p, proposals, ctips, s, |PaymentsOf(p, proposals, ctips, s)|))
  {
    var x := SlotCoins(p, proposals, ctips, s, |PaymentsOf(p, proposals, ctips, s)|);
    SlotCoinsBelow(p, proposals, ctips, s, |PaymentsOf(p, proposals, ctips, s)|);
    assert forall i | 0 <= i < |x| :: x[i] in x;
  }

  /** The coins of the payouts of all sidechains in `order`. */
  function OrderCoins(p: Params, proposals: Proposals, ctips: Ctips, order: seq<Slot>): seq<Coin> {
    if order == [] then [] else
    var n := |order| - 1;
    OrderCoins(p, proposals, ctips, order[..n])
      + SlotCoins(p, proposals, ctips, order[n], |PaymentsOf(p, proposals, ctips, order[n])|)
  }

  lemma {:induction false} OrderCoinsOf(p: Params, proposals: Proposals, ctips: Ctips, order: seq<Slot>)
    requires Distinct(order)
    ensures var coins := OrderCoins(p, proposals, ctips, order);
      && EarlierGroups(PaymentCount(p, proposals, ctips), order, coins)
      && Spends(CoinAt(p, proposals, ctips), AllInputs(M6s(p, proposals, ctips, order)), coins)
  {
    if order != [] {
      LastIsApart(order);
      OrderCoinsOf(p, proposals, ctips, order[..|order| - 1]);
      OrderCoinsNext(p, proposals, ctips, order[..|order| - 1], order[|order| - 1]);
    }
  }

  lemma OrderCoinsNext(p: Params, proposals: Proposals, ctips: Ctips, front: seq<Slot>, s: Slot)
    requires s !in front
    requires EarlierGroups(PaymentCount(p, proposals, ctips), front, OrderCoins(p, proposals, ctips, front))
    requires Spends(CoinAt(p, proposals, ctips), AllInputs(M6s(p, proposals, ctips, front)),
                    OrderCoins(p, proposals, ctips, front))
    ensures EarlierGroups(PaymentCount(p, proposals, ctips), front + [s], OrderCoins(p, proposals, ctips, front + [s]))
    ensures Spends(CoinAt(p, proposals, ctips), AllInputs(M6s(p, proposals, ctips, front + [s])),
                   OrderCoins(p, proposals, ctips, front + [s]))
  {
    var payments := PaymentsOf(p, proposals, ctips, s);
    assert (front + [s])[..|front|] == front;
    assert PaymentTxs(payments)[..|payments|] == PaymentTxs(payments);
    SlotCoinsOf(p, proposals, ctips, s, |payments|);
    SlotCoinsEarlier(p, proposals, ctips, s);
    AllInputsAppend(M6s(p, proposals, ctips, front), PaymentTxs(payments));
    var x, y := OrderCoins(p, proposals, ctips, front), SlotCoins(p, proposals, ctips, s, |payments|);
    EarlierMore(PaymentCount(p, proposals, ctips), front, x, s, y);
    SpendsMore(CoinAt(p, proposals, ctips), AllInputs(M6s(p, proposals, ctips, front)), x,
               AllInputs(PaymentTxs(payments)), y);
  }

  /** The coins that the consolidation spends: the last group of each sidechain
      it serves. */
  function RestCoins(p: Params, proposals: Proposals, ctips: Ctips, rest: seq<Slot>): seq<Coin> {
    if rest == [] then [] else
    var n := |rest| - 1;
    RestCoins(p, proposals, ctips, rest[..n])
      + GroupList(p, proposals, ctips, rest[n], |PaymentsOf(p, proposals, ctips, rest[n])|)
  }

  lemma {:induction false} RestCoinsOf(p: Params, proposals: Proposals, ctips: Ctips, rest: seq<Slot>)
    requires Distinct(rest)
    ensures var coins := RestCoins(p, proposals, ctips, rest);
      && LastGroups(PaymentCount(p, proposals, ctips), rest, coins)
      && Spends(CoinAt(p, proposals, ctips), SpendAll(ConsolidationCoins(Left(p, proposals, ctips), rest)), coins)
  {
    if rest != [] {
      LastIsApart(rest);
      RestCoinsOf(p, proposals, ctips, rest[..|rest| - 1]);
      RestCoinsNext(p, proposals, ctips, rest[..|rest| - 1], rest[|rest| - 1]);
    }
  }

  lemma RestCoinsNext(p: Params, proposals: Proposals, ctips: Ctips, front: seq<Slot>, s: Slot)
    requires s !in front
    requires LastGroups(PaymentCount(p, proposals, ctips), front, RestCoins(p, proposals, ctips, front))
    requires Spends(CoinAt(p, proposals, ctips), SpendAll(ConsolidationCoins(Left(p, proposals, ctips), front)),
                    RestCoins(p, proposals, ctips, front))
    ensures LastGroups(PaymentCount(p, proposals, ctips), front + [s], RestCoins(p, proposals, ctips, front + [s]))
    ensures Spends(CoinAt(p, proposals, ctips), SpendAll(ConsolidationCoins(Left(p, proposals, ctips), front + [s])),
                   RestCoins(p, proposals, ctips, front + [s]))
  {
    var k, left := |PaymentsOf(p, proposals, ctips, s)|, Left(p, proposals, ctips);
    assert (front + [s])[..|front|] == front;
    SpendsGroup(p, proposals, ctips, s, k);
    LeftIsLastGroup(p, proposals, ctips, s);
    SpendAllAppend(ConsolidationCoins(left, front), Group(p, proposals, ctips, s, k));
    var x, y := RestCoins(p, proposals, ctips, front), GroupList(p, proposals, ctips, s, k);
    LastMore(PaymentCount(p, proposals, ctips), front, x, s, y);
    SpendsMore(CoinAt(p, proposals, ctips), SpendAll(ConsolidationCoins(left, front)), x,
               SpendAll(Group(p, proposals, ctips, s, k)), y);
  }

  lemma GroupsApart(counts: Slot -> nat, order: seq<Slot>, x: seq<Coin>, rest: seq<Slot>, y: seq<Coin>)
    requires EarlierGroups(counts, order, x) && LastGroups(counts, rest, y)
    ensures Apart(x, y)
  {
  }

  lemma SuffixInputs(p: Params, proposals: Proposals, ctips: Ctips, order: seq<Slot>, rest: seq<Slot>)
    ensures AllInputs(SuffixOf(p, proposals, ctips, order, rest))
         == AllInputs(M6s(p, proposals, ctips, order)) + SpendAll(ConsolidationCoins(Left(p, proposals, ctips), rest))
  {
    var txs, left := M6s(p, proposals, ctips, order), Left(p, proposals, ctips);
    if rest == [] {
      assert txs + [] == txs && ConsolidationCoins(left, rest) == [] && SpendAll([]) == [];
    } else {
      var last := ConsolidationTx(p.op, left, rest);
      assert (txs + [last])[..|txs|] == txs;
    }
  }

  /** In every suffix, no two inputs spend the same outpoint. */
  lemma NoDoubleSpend(p: Params, proposals: Proposals, ctips: Ctips, order: seq<Slot>, rest: seq<Slot>)
    requires CollisionFree(p.txid) && DistinctCoins(p, proposals, ctips) && Distinct(order) && Distinct(rest)
    ensures var inputs := AllInputs(SuffixOf(p, proposals, ctips, order, rest));
      forall i, j | 0 <= i < j < |inputs| :: inputs[i].previous != inputs[j].previous
  {
    OrderCoinsOf(p, proposals, ctips, order);
    RestCoinsOf(p, proposals, ctips, rest);
    SuffixInputs(p, proposals, ctips, order, rest);
    var inputs := AllInputs(SuffixOf(p, proposals, ctips, order, rest));
    var x, y := OrderCoins(p, proposals, ctips, order), RestCoins(p, proposals, ctips, rest);
    GroupsApart(PaymentCount(p, proposals, ctips), order, x, rest, y);
    SpendsMore(CoinAt(p, proposals, ctips), AllInputs(M6s(p, proposals, ctips, order)), x,
               SpendAll(ConsolidationCoins(Left(p, proposals, ctips), rest)), y);
    forall i, j | 0 <= i < j < |inputs| ensures inputs[i].previous != inputs[j].previous {
      var c, d := (x + y)[i], (x + y)[j];
      assert c != d && IsCoin(p, proposals, ctips, c) && IsCoin(p, proposals, ctips, d);
      CoinsDistinct(p, proposals, ctips, c.0, c.1, c.2, d.0, d.1, d.2);
    }
  }
}
