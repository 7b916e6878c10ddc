/** The profit aggregator of the shares controller (`getTotalProfitByMonth`):
    a query that selects transactions, followed by a fold that sums their net
    contributions. */
module Profit {
  import opened Wrappers
  import opened Transactions

  /** The query's `createdAt` bounds, `gte: start` and `lte: end`. */
  datatype Window = Window(start: Instant, end: Instant)

  predicate InWindow(t: Transaction, w: Window) {
    w.start <= t.createdAt <= w.end
  }

  /** `payLater: false`, or `payLater: true` with a due amount of exactly 0
      (a NULL due amount does not match 0). */
  predicate Settled(t: Transaction) {
    !t.payLater || t.dueAmount == Some(0.0)
  }

  /** The query's whole `where` clause. There is no condition on the owner. */
  predicate Counted(t: Transaction, w: Window) {
    t.logType == Credit && InWindow(t, w) && Settled(t)
  }

  /** `amount - ((commission || 0) + (collection || 0))`. */
  function Contribution(t: Transaction): Money {
    t.amount - (t.commission.GetOr(0.0) + t.collection.GetOr(0.0))
  }

  /** The rows `findMany` returns, in table order. */
  function Select(txs: seq<Transaction>, w: Window): (r: seq<Transaction>)
    ensures forall t :: t in r ==> Counted(t, w)
    ensures forall t :: multiset(r)[t] == if Counted(t, w) then multiset(txs)[t] else 0
    decreases |txs|
  {
    if txs == [] then []
    else
      var init, last := txs[..|txs| - 1], txs[|txs| - 1];
      assert txs == init + [last];
      if Counted(last, w) then Select(init, w) + [last] else Select(init, w)
  }

  /** The `reduce` from 0 over the selected rows. */
  function SumContributions(ts: seq<Transaction>): Money
    decreases |ts|
  {
    if ts == [] then 0.0 else SumContributions(ts[..|ts| - 1]) + Contribution(ts[|ts| - 1])
  }

  function Total(txs: seq<Transaction>, w: Window): Money {
    SumContributions(Select(txs, w))
  }

  /** `getTotalProfitByMonth`: `fetched` is the transaction table the query
      runs over, `None` when the query failed; the query's `where` clause is
      `Select`. */
  function GetTotalProfitByMonth(fetched: Option<seq<Transaction>>, w: Window): (r: Money)
    ensures fetched == None ==> r == 0.0
    ensures fetched.Some? && (forall t :: t in fetched.value ==> !Counted(t, w)) ==> r == 0.0
  {
    match fetched
    case None => 0.0
    case Some(txs) =>
      TotalNothingCounted(txs, w);
      Total(txs, w)
  }

  lemma {:induction false} SumContributionsAppend(a: seq<Transaction>, b: seq<Transaction>)
    ensures SumContributions(a + b) == SumContributions(a) + SumContributions(b)
    decreases |b|
  {
    if b == [] {
      assert a + b == a;
    } else {
      var b', x := b[..|b| - 1], b[|b| - 1];
      assert (a + b)[..|a + b| - 1] == a + b';
      SumContributionsAppend(a, b');
    }
  }

  lemma {:induction false} SelectAppend(a: seq<Transaction>, b: seq<Transaction>, w: Window)
    ensures Select(a + b, w) == Select(a, w) + Select(b, w)
    decreases |b|
  {
    if b == [] {
      assert a + b == a;
    } else {
      var b', x := b[..|b| - 1], b[|b| - 1];
      assert (a + b)[..|a + b| - 1] == a + b';
      SelectAppend(a, b', w);
    }
  }

  /** The profit of a table is the profit of its parts added up. */
  lemma TotalAppend(a: seq<Transaction>, b: seq<Transaction>, w: Window)
    ensures Total(a + b, w) == Total(a, w) + Total(b, w)
  {
    SelectAppend(a, b, w);
    SumContributionsAppend(Select(a, w), Select(b, w));
  }

  /** A counted row adds its contribution; any other row adds nothing. */
  lemma TotalSnoc(txs: seq<Transaction>, t: Transaction, w: Window)
    ensures Counted(t, w) ==> Total(txs + [t], w) == Total(txs, w) + Contribution(t)
    ensures !Counted(t, w) ==> Total(txs + [t], w) == Total(txs, w)
  {
    TotalAppend(txs, [t], w);
    assert Select([t], w) == Select([], w) + (if Counted(t, w) then [t] else []);
  }

  /** With no counted row (in particular, with an empty selection) the profit is 0. */
  lemma {:induction false} TotalNothingCounted(txs: seq<Transaction>, w: Window)
    ensures (forall t :: t in txs ==> !Counted(t, w)) ==> Total(txs, w) == 0.0
    decreases |txs|
  {
    if txs != [] && forall t :: t in txs ==> !Counted(t, w) {
      var init := txs[..|txs| - 1];
      assert txs == init + [txs[|txs| - 1]];
      TotalNothingCounted(init, w);
      TotalSnoc(init, txs[|txs| - 1], w);
    }
  }

  /** What one row adds to the profit: its contribution if counted, else 0. */
  function Share(t: Transaction, w: Window): Money {
    if Counted(t, w) then Contribution(t) else 0.0
  }

  /** Taking any one row out of the table takes away exactly its share. */
  lemma TotalRemoveAt(b: seq<Transaction>, i: nat, w: Window)
    requires i < |b|
    ensures Total(b, w) == Total(b[..i] + b[i + 1..], w) + Share(b[i], w)
  {
    var b1, x, b2 := b[..i], b[i], b[i + 1..];
    assert b == (b1 + [x]) + b2;
    TotalAppend(b1 + [x], b2, w);
    TotalSnoc(b1, x, w);
    TotalAppend(b1, b2, w);
  }

  lemma MultisetRemoveAt(a': seq<Transaction>, x: Transaction, b: seq<Transaction>, i: nat)
    requires i < |b| && b[i] == x
    requires multiset(a' + [x]) == multiset(b)
    ensures multiset(a') == multiset(b[..i] + b[i + 1..])
  {
    var rest := b[..i] + b[i + 1..];
    assert b == b[..i] + [x] + b[i + 1..];
    assert multiset(b) == multiset(b[..i]) + multiset([x]) + multiset(b[i + 1..]);
    assert multiset(b) == multiset(rest) + multiset([x]);
    assert multiset(a' + [x]) == multiset(a') + multiset([x]);
    assert multiset(a') == multiset(a' + [x]) - multiset([x]);
    assert multiset(rest) == multiset(b) - multiset([x]);
  }

  /** The order in which the store returns the rows does not change the profit. */
  lemma {:induction false} TotalPermutation(a: seq<Transaction>, b: seq<Transaction>, w: Window)
    requires multiset(a) == multiset(b)
    ensures Total(a, w) == Total(b, w)
    decreases |a|
  {
    if a == [] {
      assert |b| == |multiset(b)| == 0;
    } else {
      var a', x := a[..|a| - 1], a[|a| - 1];
      assert a == a' + [x];
      assert x in multiset(b);
      var i :| 0 <= i < |b| && b[i] == x;
      MultisetRemoveAt(a', x, b, i);
      TotalPermutation(a', b[..i] + b[i + 1..], w);
      TotalSnoc(a', x, w);
      TotalRemoveAt(b, i, w);
    }
  }

  /** Both bounds are inclusive: a settled credit stamped exactly at the end of
      one window and the start of the next is counted in both. */
  lemma BoundaryCountedTwice(t: Transaction, w1: Window, w2: Window)
    requires t.logType == Credit && Settled(t)
    requires w1.start <= w1.end == w2.start <= w2.end
    requires t.createdAt == w1.end
    ensures Total([t], w1) == Contribution(t) == Total([t], w2)
  {
    var none: seq<Transaction> := [];
    assert none + [t] == [t];
    TotalSnoc(none, t, w1);
    TotalSnoc(none, t, w2);
  }
}
