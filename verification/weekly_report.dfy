/** The `reportData` of WeeklyReport.tsx: this week against last week, the largest expense
    category of this week, and the rule that picks the insight message. */
module WeeklyReport {
  import opened Types
  import opened Lists
  import opened Calendar
  import opened Aggregation
  import opened Categories

  /** Dated at or after seven days before `now`; there is no upper bound. */
  function InThisWeek(now: int): Transaction -> bool {
    (t: Transaction) => t.date >= MinusDays(now, 7)
  }

  /** Dated from fourteen days before `now` up to, excluding, seven days before. */
  function InLastWeek(now: int): Transaction -> bool {
    (t: Transaction) => MinusDays(now, 14) <= t.date < MinusDays(now, 7)
  }

  datatype Totals = Totals(income: real, expense: real)

  function WeekTotals(s: seq<Transaction>): Totals {
    Totals(SumByType(s, Income), SumByType(s, Expense))
  }

  /** `expenseChange`: the relative change in percent, with 100 for new spending after a week
      without any and 0 when neither week spent. */
  function ExpenseChange(thisWeek: real, lastWeek: real): (c: real)
    ensures lastWeek > 0.0 ==> c * lastWeek == (thisWeek - lastWeek) * 100.0
    ensures lastWeek <= 0.0 && thisWeek > 0.0 ==> c == 100.0
    ensures lastWeek <= 0.0 && thisWeek <= 0.0 ==> c == 0.0
  {
    if lastWeek > 0.0 then ((thisWeek - lastWeek) / lastWeek) * 100.0
    else if thisWeek > 0.0 then 100.0
    else 0.0
  }

  datatype Report = Report(
    thisWeek: Totals,
    lastWeek: Totals,
    topCategory: Option<CategoryTotal>,
    expenseChange: real)

  function ReportData(s: seq<Transaction>, now: int): Report {
    var thisWeek := Filter(s, InThisWeek(now));
    var lastWeek := Filter(s, InLastWeek(now));
    var thisTotals := WeekTotals(thisWeek);
    var lastTotals := WeekTotals(lastWeek);
    Report(thisTotals, lastTotals, TopCategory(thisWeek), ExpenseChange(thisTotals.expense, lastTotals.expense))
  }

  /** No transaction is counted in both weeks, and the two weeks together take each transaction
      at most as often as it occurs in the log. */
  lemma WeeksDisjoint(s: seq<Transaction>, now: int)
    ensures forall t :: !(InThisWeek(now)(t) && InLastWeek(now)(t))
    ensures multiset(Filter(s, InThisWeek(now))) + multiset(Filter(s, InLastWeek(now))) <= multiset(s)
  {
    FilterCount(s, InThisWeek(now));
    FilterCount(s, InLastWeek(now));
  }

  /** Each week's totals are its sums by type, so their difference is the week's net, and a
      week without any transaction of a type shows 0 for it. */
  lemma ReportTotals(s: seq<Transaction>, now: int)
    ensures var r := ReportData(s, now);
      r.thisWeek.income - r.thisWeek.expense == Net(Filter(s, InThisWeek(now)))
      && r.lastWeek.income - r.lastWeek.expense == Net(Filter(s, InLastWeek(now)))
    ensures (forall t :: t in s && InThisWeek(now)(t) ==> t.kind == Income) ==>
      ReportData(s, now).thisWeek.expense == 0.0
    ensures (forall t :: t in s && InThisWeek(now)(t) ==> t.kind == Expense) ==>
      ReportData(s, now).thisWeek.income == 0.0
    ensures (forall t :: t in s ==> !InLastWeek(now)(t)) ==>
      ReportData(s, now).lastWeek == Totals(0.0, 0.0)
  {
    var thisWeek := Filter(s, InThisWeek(now));
    var lastWeek := Filter(s, InLastWeek(now));
    NetIsIncomeMinusExpense(thisWeek);
    NetIsIncomeMinusExpense(lastWeek);
    FilterCount(s, InThisWeek(now));
    FilterCount(s, InLastWeek(now));
    if forall t :: t in s && InThisWeek(now)(t) ==> t.kind == Income {
      SumByTypeNone(thisWeek, Expense);
    }
    if forall t :: t in s && InThisWeek(now)(t) ==> t.kind == Expense {
      SumByTypeNone(thisWeek, Income);
    }
    if forall t :: t in s ==> !InLastWeek(now)(t) {
      SumByTypeNone(lastWeek, Income);
      SumByTypeNone(lastWeek, Expense);
    }
  }

  /** `topCategory`: the head of the categories sorted by decreasing total, if any. */
  function TopCategory(s: seq<Transaction>): Option<CategoryTotal> {
    var categories := CategoryTotals(s);
    if |categories| > 0 then Some(categories[FirstMaxIndex(categories)]) else None
  }

  /** The top category is absent exactly when there is no expense. */
  lemma TopCategoryAbsent(s: seq<Transaction>)
    ensures TopCategory(s).None? <==> forall t :: t in s ==> t.kind == Income
  {
    var categories := CategoryTotals(s);
    if |categories| > 0 {
      assert categories[0].category in Keys(categories);
    } else {
      assert forall t :: t in s && t.kind == Expense ==> t.category in Keys(categories);
    }
  }

  /** A top category is an expense category whose summed amount no other category exceeds, it
      precedes every category with the same sum, and its total is the sum of the expenses in it. */
  lemma TopCategoryPresent(s: seq<Transaction>)
    requires TopCategory(s).Some?
    ensures var top := TopCategory(s).value;
      var categories := CategoryTotals(s);
      (exists t :: t in s && t.kind == Expense && t.category == top.category)
      && top.total == SumOf(Filter(s, ExpenseIn(top.category)))
      && (forall e :: e in categories ==> e.total <= top.total)
      && (exists k :: 0 <= k < |categories| && categories[k] == top
            && forall j :: 0 <= j < k ==> categories[j].total < top.total)
  {
    var categories := CategoryTotals(s);
    var k := FirstMaxIndex(categories);
    assert Keys(categories)[k] == categories[k].category;
    assert categories[k].category in Keys(categories);
    EntryTotal(categories, k);
    CategoryTotalFor(s, categories[k].category);
  }

  /** The insight message of the report. */
  datatype Insight = Reduced(percent: real) | Increased(percent: real) | Stable

  /** Below -1 percent the spending went down, above 1 percent it went up, otherwise it held. */
  function InsightFor(change: real): (m: Insight)
    ensures m.Reduced? <==> change < -1.0
    ensures m.Increased? <==> change > 1.0
    ensures m.Stable? <==> -1.0 <= change <= 1.0
    ensures m.Reduced? ==> m.percent == -change && m.percent > 1.0
    ensures m.Increased? ==> m.percent == change
  {
    if change < -1.0 then Reduced(-change)
    else if change > 1.0 then Increased(change)
    else Stable
  }

  /** The message never contradicts the two totals: "reduced" only when this week spent less,
      "increased" only when it spent more, and equal totals are always "stable". */
  lemma InsightAgreesWithTotals(thisWeek: real, lastWeek: real)
    ensures InsightFor(ExpenseChange(thisWeek, lastWeek)).Reduced? ==> thisWeek < lastWeek
    ensures InsightFor(ExpenseChange(thisWeek, lastWeek)).Increased? ==> thisWeek > lastWeek
    ensures thisWeek == lastWeek ==> InsightFor(ExpenseChange(thisWeek, lastWeek)).Stable?
  {
    var c := ExpenseChange(thisWeek, lastWeek);
    if lastWeek > 0.0 {
      if c < -1.0 {
        assert c * lastWeek < 0.0;
      }
      if c > 1.0 {
        assert c * lastWeek > 0.0;
      }
      if thisWeek == lastWeek {
        assert c * lastWeek == 0.0;
      }
    }
  }
}
