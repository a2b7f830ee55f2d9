/** Sums over transaction lists: the `filter(...).reduce((sum, t) => sum + t.amount, 0)`
    pipelines, the signed net total, and the per-category `reduce` into an object. */
module Aggregation {
  import opened Types
  import opened Lists

  function OfType(k: TxType): Transaction -> bool {
    (t: Transaction) => t.kind == k
  }

  function InCategory(c: string): Transaction -> bool {
    (t: Transaction) => t.category == c
  }

  /** `reduce((sum, t) => sum + t.amount, 0)`, folding from the left. */
  function SumOf(s: seq<Transaction>): real {
    if s == [] then 0.0 else SumOf(s[..|s| - 1]) + s[|s| - 1].amount
  }

  /** Sum of the amounts of the transactions of one type. */
  function SumByType(s: seq<Transaction>, k: TxType): real {
    SumOf(Filter(s, OfType(k)))
  }

  /** The effect of one transaction on a balance: `+amount` for income, `-amount` for expense. */
  function Signed(t: Transaction): real {
    if t.kind == Income then t.amount else -t.amount
  }

  /** `reduce((sum, t) => sum + (t.type === 'income' ? t.amount : -t.amount), 0)`. */
  function Net(s: seq<Transaction>): real {
    if s == [] then 0.0 else Net(s[..|s| - 1]) + Signed(s[|s| - 1])
  }

  lemma {:induction false} SumOfAppend(a: seq<Transaction>, b: seq<Transaction>)
    ensures SumOf(a + b) == SumOf(a) + SumOf(b)
    decreases |b|
  {
    if b == [] {
      assert a + b == a;
    } else {
      var n := |b| - 1;
      assert (a + b)[..|a| + n] == a + b[..n];
      SumOfAppend(a, b[..n]);
    }
  }

  lemma {:induction false} NetAppend(a: seq<Transaction>, b: seq<Transaction>)
    ensures Net(a + b) == Net(a) + Net(b)
    decreases |b|
  {
    if b == [] {
      assert a + b == a;
    } else {
      var n := |b| - 1;
      assert (a + b)[..|a| + n] == a + b[..n];
      NetAppend(a, b[..n]);
    }
  }

  /** The signed fold is the income sum minus the expense sum. */
  lemma {:induction false} NetIsIncomeMinusExpense(s: seq<Transaction>)
    ensures Net(s) == SumByType(s, Income) - SumByType(s, Expense)
    decreases |s|
  {
    if s != [] {
      var n := |s| - 1;
      NetIsIncomeMinusExpense(s[..n]);
      assert s == s[..n] + [s[n]];
      FilterAppend(s[..n], [s[n]], OfType(Income));
      FilterAppend(s[..n], [s[n]], OfType(Expense));
      SumOfAppend(Filter(s[..n], OfType(Income)), Filter([s[n]], OfType(Income)));
      SumOfAppend(Filter(s[..n], OfType(Expense)), Filter([s[n]], OfType(Expense)));
      assert Filter([s[n]], OfType(Income)) == if s[n].kind == Income then [s[n]] else [] by {
        assert [s[n]][..0] == [];
      }
      assert Filter([s[n]], OfType(Expense)) == if s[n].kind == Expense then [s[n]] else [] by {
        assert [s[n]][..0] == [];
      }
    }
  }

  /** A list with no transaction of type `k` sums to 0 for `k`. */
  lemma SumByTypeNone(s: seq<Transaction>, k: TxType)
    requires forall t :: t in s ==> t.kind != k
    ensures SumByType(s, k) == 0.0
  {
    FilterCount(s, OfType(k));
    var f := Filter(s, OfType(k));
    if f != [] {
      assert false;
    }
  }

  /** Reordering a list does not change the sum of its amounts. */
  lemma {:induction false} SumOfPermutation(a: seq<Transaction>, b: seq<Transaction>)
    requires multiset(a) == multiset(b)
    ensures SumOf(a) == SumOf(b)
    decreases |a|
  {
    if a != [] {
      var n := |a| - 1;
      var x := a[n];
      assert a == a[..n] + [x];
      assert x in multiset(b);
      var j :| 0 <= j < |b| && b[j] == x;
      var rest := b[..j] + b[j + 1..];
      assert b == b[..j] + [x] + b[j + 1..];
      calc {
        multiset(a[..n]) + multiset{x};
        multiset(a);
        multiset(b);
        multiset(b[..j]) + multiset{x} + multiset(b[j + 1..]);
        multiset(rest) + multiset{x};
      }
      assert multiset(a[..n]) == multiset(a[..n]) + multiset{x} - multiset{x};
      assert multiset(rest) == multiset(rest) + multiset{x} - multiset{x};
      SumOfPermutation(a[..n], rest);
      SumOfAppend(b[..j] + [x], b[j + 1..]);
      SumOfAppend(b[..j], [x]);
      SumOfAppend(b[..j], b[j + 1..]);
      assert SumOf([x]) == x.amount by { assert [x][..0] == []; }
    }
  }

  /** Reordering a list does not change its net total. */
  lemma NetPermutation(a: seq<Transaction>, b: seq<Transaction>)
    requires multiset(a) == multiset(b)
    ensures Net(a) == Net(b)
  {
    NetIsIncomeMinusExpense(a);
    NetIsIncomeMinusExpense(b);
    SumByTypePermutation(a, b, Income);
    SumByTypePermutation(a, b, Expense);
  }

  /** Reordering a list does not change the per-type sums. */
  lemma SumByTypePermutation(a: seq<Transaction>, b: seq<Transaction>, k: TxType)
    requires multiset(a) == multiset(b)
    ensures SumByType(a, k) == SumByType(b, k)
  {
    FilterCount(a, OfType(k));
    FilterCount(b, OfType(k));
    assert multiset(Filter(a, OfType(k))) == multiset(Filter(b, OfType(k)));
    SumOfPermutation(Filter(a, OfType(k)), Filter(b, OfType(k)));
  }
}
