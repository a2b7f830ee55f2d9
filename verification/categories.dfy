/** The per-category expense object built by
    `reduce((acc, t) => { acc[t.category] = (acc[t.category] || 0) + t.amount; return acc }, {})`,
    read back through `Object.entries` in insertion order, and the two ways the dashboard picks
    its largest entry. */
module Categories {
  import opened Types
  import opened Lists
  import opened Aggregation

  /** One `[category, total]` pair of `Object.entries`. */
  datatype CategoryTotal = CategoryTotal(category: string, total: real)

  function Keys(es: seq<CategoryTotal>): (r: seq<string>)
    ensures |r| == |es|
    ensures forall i :: 0 <= i < |es| ==> r[i] == es[i].category
  {
    if es == [] then [] else [es[0].category] + Keys(es[1..])
  }

  /** The sum of all totals. */
  function TotalOf(es: seq<CategoryTotal>): real {
    if es == [] then 0.0 else es[0].total + TotalOf(es[1..])
  }

  /** `acc[c] || 0`: the total stored under `c`, or 0 when `c` is not a key. */
  function TotalFor(es: seq<CategoryTotal>, c: string): real {
    if es == [] then 0.0
    else if es[0].category == c then es[0].total
    else TotalFor(es[1..], c)
  }

  /** `acc[c] = (acc[c] || 0) + a`: an existing key keeps its place, a new key goes last. */
  function Upsert(es: seq<CategoryTotal>, c: string, a: real): (r: seq<CategoryTotal>)
    ensures Keys(r) == if c in Keys(es) then Keys(es) else Keys(es) + [c]
    ensures TotalOf(r) == TotalOf(es) + a
    ensures forall k :: TotalFor(r, k) == TotalFor(es, k) + (if k == c then a else 0.0)
  {
    if es == [] then [CategoryTotal(c, a)]
    else if es[0].category == c then [CategoryTotal(c, es[0].total + a)] + es[1..]
    else
      var r := [es[0]] + Upsert(es[1..], c, a);
      assert r[1..] == Upsert(es[1..], c, a);
      assert Keys(es) == [es[0].category] + Keys(es[1..]);
      r
  }

  /** The categories of a list of transactions, in order. */
  function CategoriesOf(s: seq<Transaction>): (r: seq<string>)
    ensures |r| == |s|
    ensures forall i :: 0 <= i < |s| ==> r[i] == s[i].category
  {
    if s == [] then [] else CategoriesOf(s[..|s| - 1]) + [s[|s| - 1].category]
  }

  /** Reference definition of insertion order: each value at its first occurrence. */
  function Dedup(xs: seq<string>): (r: seq<string>)
    ensures NoDuplicates(r)
    ensures forall x :: x in r <==> x in xs
  {
    if xs == [] then []
    else
      var d := Dedup(xs[..|xs| - 1]);
      var x := xs[|xs| - 1];
      assert xs == xs[..|xs| - 1] + [x];
      if x in d then d else d + [x]
  }

  /** The `reduce` into an object, folding from the left. */
  function Tally(s: seq<Transaction>): (r: seq<CategoryTotal>)
    ensures Keys(r) == Dedup(CategoriesOf(s))
    ensures TotalOf(r) == SumOf(s)
  {
    if s == [] then []
    else
      var n := |s| - 1;
      assert CategoriesOf(s)[..n] == CategoriesOf(s[..n]);
      Upsert(Tally(s[..n]), s[n].category, s[n].amount)
  }

  /** The stored total of a category is the sum of the amounts of that category. */
  lemma {:induction false} TallyTotalFor(s: seq<Transaction>, c: string)
    ensures TotalFor(Tally(s), c) == SumOf(Filter(s, InCategory(c)))
    decreases |s|
  {
    if s != [] {
      var n := |s| - 1;
      TallyTotalFor(s[..n], c);
      var f := Filter(s[..n], InCategory(c));
      var tail := if s[n].category == c then [s[n]] else [];
      assert Filter(s, InCategory(c)) == f + tail;
      assert Tally(s) == Upsert(Tally(s[..n]), s[n].category, s[n].amount);
      assert TotalFor(Tally(s), c) == TotalFor(Tally(s[..n]), c) + (if s[n].category == c then s[n].amount else 0.0);
      if s[n].category == c {
        assert SumOf(f + [s[n]]) == SumOf(f) + s[n].amount by {
          assert (f + [s[n]])[..|f|] == f;
        }
      } else {
        assert f + tail == f;
      }
    }
  }

  /** A category occurs in the list exactly when some transaction carries it. */
  lemma CategoriesOfMembers(s: seq<Transaction>, c: string)
    ensures c in CategoriesOf(s) <==> exists t :: t in s && t.category == c
  {
    if c in CategoriesOf(s) {
      var i :| 0 <= i < |s| && CategoriesOf(s)[i] == c;
      assert s[i] in s;
    }
    if t :| t in s && t.category == c {
      var i :| 0 <= i < |s| && s[i] == t;
      assert CategoriesOf(s)[i] == c;
    }
  }

  /** The expense totals of Visualizations.tsx and WeeklyReport.tsx: only expenses are tallied. */
  function CategoryTotals(s: seq<Transaction>): (r: seq<CategoryTotal>)
    ensures NoDuplicates(Keys(r))
    ensures forall c :: c in Keys(r) <==> exists t :: t in s && t.kind == Expense && t.category == c
    ensures TotalOf(r) == SumByType(s, Expense)
  {
    var e := Filter(s, OfType(Expense));
    FilterCount(s, OfType(Expense));
    forall c ensures c in CategoriesOf(e) <==> exists t :: t in e && t.category == c {
      CategoriesOfMembers(e, c);
    }
    Tally(e)
  }

  /** The total of category `c` is the sum of the expenses of category `c`; incomes never count. */
  lemma CategoryTotalFor(s: seq<Transaction>, c: string)
    ensures TotalFor(CategoryTotals(s), c) == SumOf(Filter(s, ExpenseIn(c)))
    ensures (forall t :: t in s && t.category == c ==> t.kind == Income) ==> TotalFor(CategoryTotals(s), c) == 0.0
  {
    TallyTotalFor(Filter(s, OfType(Expense)), c);
    FilterFilter(s, OfType(Expense), InCategory(c), ExpenseIn(c));
    FilterCount(s, ExpenseIn(c));
  }

  function ExpenseIn(c: string): Transaction -> bool {
    (t: Transaction) => t.kind == Expense && t.category == c
  }

  /** With distinct keys, an entry's own total is what a lookup of its key returns. */
  lemma {:induction false} EntryTotal(es: seq<CategoryTotal>, k: nat)
    requires NoDuplicates(Keys(es))
    requires k < |es|
    ensures TotalFor(es, es[k].category) == es[k].total
    decreases |es|
  {
    if k > 0 {
      assert Keys(es)[0] != Keys(es)[k];
      assert NoDuplicates(Keys(es[1..])) by {
        forall i, j | 0 <= i < j < |es| - 1 ensures Keys(es[1..])[i] != Keys(es[1..])[j] {
          assert Keys(es)[i + 1] != Keys(es)[j + 1];
        }
      }
      EntryTotal(es[1..], k - 1);
    }
  }

  /** `sort((a, b) => b[1] - a[1])[0]` with a stable sort: the first entry of maximal total. */
  function FirstMaxIndex(es: seq<CategoryTotal>): (k: nat)
    requires |es| > 0
    ensures k < |es|
    ensures forall j :: 0 <= j < |es| ==> es[j].total <= es[k].total
    ensures forall j :: 0 <= j < k ==> es[j].total < es[k].total
  {
    if |es| == 1 then 0
    else
      var k := FirstMaxIndex(es[1..]) + 1;
      if es[k].total > es[0].total then k else 0
  }

  /** `reduce((prev, cur) => prev.value > cur.value ? prev : cur)`, tracking the index of `prev`
      while `i` walks over the remaining entries. */
  function ReduceMax(es: seq<CategoryTotal>, best: nat, i: nat): (k: nat)
    requires best < i <= |es|
    requires forall j :: 0 <= j < i ==> es[j].total <= es[best].total
    requires forall j :: best < j < i ==> es[j].total < es[best].total
    ensures best <= k < |es|
    ensures forall j :: 0 <= j < |es| ==> es[j].total <= es[k].total
    ensures forall j :: k < j < |es| ==> es[j].total < es[k].total
    decreases |es| - i
  {
    if i == |es| then best
    else ReduceMax(es, if es[best].total > es[i].total then best else i, i + 1)
  }

  /** The reduce over a non-empty list: the last entry of maximal total. */
  function LastMaxIndex(es: seq<CategoryTotal>): (k: nat)
    requires |es| > 0
    ensures k < |es|
    ensures forall j :: 0 <= j < |es| ==> es[j].total <= es[k].total
    ensures forall j :: k < j < |es| ==> es[j].total < es[k].total
  {
    ReduceMax(es, 0, 1)
  }
}
