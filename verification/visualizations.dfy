/** The charts of Visualizations.tsx: the last seven days, the expense categories, the balance
    trend, and the highlighted category. */
module Visualizations {
  import opened Types
  import opened Lists
  import opened Calendar
  import opened Aggregation
  import opened Categories
  import opened Ordering
  import opened Ledger

  /** One bar of the seven-day chart; `day` is the calendar date the bar is labelled with. */
  datatype DayBar = DayBar(day: int, income: real, expense: real)

  function OnDay(day: int): Transaction -> bool {
    (t: Transaction) => DayOf(t.date) == day
  }

  /** The bar of the day `i` days before `now`. */
  function BarFor(s: seq<Transaction>, now: int, i: int): DayBar {
    var day := DayOf(MinusDays(now, i));
    var onDay := Filter(s, OnDay(day));
    DayBar(day, SumByType(onDay, Income), SumByType(onDay, Expense))
  }

  /** `weeklyData`: bars for today and the six days before, built newest first and then
      reversed. */
  function WeeklyData(s: seq<Transaction>, now: int): seq<DayBar> {
    var newestFirst := seq(7, i => BarFor(s, now, i));
    seq(7, k requires 0 <= k < 7 => newestFirst[6 - k])
  }

  /** Seven bars, oldest first and today last, on consecutive dates; each bar holds the income and
      expense sums of the transactions on its date. */
  lemma WeeklyDataSpec(s: seq<Transaction>, now: int)
    ensures |WeeklyData(s, now)| == 7
    ensures forall k :: 0 <= k < 7 ==> WeeklyData(s, now)[k].day == DayOf(now) - 6 + k
    ensures WeeklyData(s, now)[6].day == DayOf(now)
    ensures forall k :: 0 <= k < 7 ==>
      WeeklyData(s, now)[k].income == SumByType(Filter(s, OnDay(DayOf(now) - 6 + k)), Income) &&
      WeeklyData(s, now)[k].expense == SumByType(Filter(s, OnDay(DayOf(now) - 6 + k)), Expense)
  {
    var w := WeeklyData(s, now);
    forall k | 0 <= k < 7
      ensures w[k].day == DayOf(now) - 6 + k
      ensures w[k].income == SumByType(Filter(s, OnDay(DayOf(now) - 6 + k)), Income)
      ensures w[k].expense == SumByType(Filter(s, OnDay(DayOf(now) - 6 + k)), Expense)
    {
      var back := 6 - k;
      var day := DayOf(MinusDays(now, back));
      assert day == DayOf(now) - 6 + k;
      assert w[k] == BarFor(s, now, back);
    }
  }

  /** One point of the balance trend. */
  datatype BalancePoint = BalancePoint(day: int, balance: real)

  /** The balance after the last point, or the baseline before the first. */
  function LastBalance(history: seq<BalancePoint>, baseline: real): real {
    if history == [] then baseline else history[|history| - 1].balance
  }

  /** The `reduce` that replays the log from a baseline, pushing one point per transaction. */
  function Replay(baseline: real, s: seq<Transaction>): (history: seq<BalancePoint>)
    ensures |history| == |s|
  {
    if s == [] then []
    else
      var n := |s| - 1;
      var before := Replay(baseline, s[..n]);
      var last := LastBalance(before, baseline);
      before + [BalancePoint(DayOf(s[n].date), if s[n].kind == Income then last + s[n].amount else last - s[n].amount)]
  }

  /** Each point is the baseline plus the net of the transactions up to and including its own;
      each point is labelled with its transaction's date. */
  lemma {:induction false} ReplayPoint(baseline: real, s: seq<Transaction>, k: nat)
    requires k < |s|
    ensures Replay(baseline, s)[k].balance == baseline + Net(s[..k + 1])
    ensures Replay(baseline, s)[k].day == DayOf(s[k].date)
    decreases |s|
  {
    var n := |s| - 1;
    assert s[..n + 1] == s;
    if k < n {
      ReplayPoint(baseline, s[..n], k);
      assert s[..n][..k + 1] == s[..k + 1];
    } else if n > 0 {
      ReplayPoint(baseline, s[..n], n - 1);
      assert s[..n][..n] == s[..n];
    } else {
      assert s[..1][..0] == [];
    }
  }

  /** The trend ends at the baseline plus all incomes minus all expenses. */
  lemma ReplayEnd(baseline: real, s: seq<Transaction>)
    requires s != []
    ensures Replay(baseline, s)[|s| - 1].balance
      == baseline + SumByType(s, Income) - SumByType(s, Expense)
  {
    ReplayPoint(baseline, s, |s| - 1);
    assert s[..|s|] == s;
    NetIsIncomeMinusExpense(s);
  }

  /** `balanceHistory` on a log already in date order. */
  method BalanceHistory(sorted: seq<Transaction>, baseline: real) returns (history: seq<BalancePoint>)
    ensures history == Replay(baseline, sorted)
  {
    history := [];
    var i := 0;
    while i < |sorted|
      invariant 0 <= i <= |sorted|
      invariant history == Replay(baseline, sorted[..i])
    {
      var t := sorted[i];
      var lastBalance := if |history| > 0 then history[|history| - 1].balance else baseline;
      var newBalance := if t.kind == Income then lastBalance + t.amount else lastBalance - t.amount;
      history := history + [BalancePoint(DayOf(t.date), newBalance)];
      assert sorted[..i + 1][..i] == sorted[..i];
      i := i + 1;
    }
    assert sorted[..|sorted|] == sorted;
  }

  /** Rendering the trend first sorts the session's own log by date, in place, and then replays
      it from the current balance (not from the balance before the first transaction). */
  method RenderBalanceHistory(session: Session) returns (history: seq<BalancePoint>)
    requires session.Valid()
    modifies session
    ensures session.Valid()
    ensures session.transactions == SortByDate(old(session.transactions), false)
    ensures session.currentBalance == old(session.currentBalance)
    ensures session.openingBalance == old(session.openingBalance)
    ensures session.loaded == old(session.loaded) && session.goals == old(session.goals)
      && session.userName == old(session.userName) && session.monthlyIncome == old(session.monthlyIncome)
    ensures history == Replay(session.currentBalance, session.transactions)
    ensures forall i, j :: 0 <= i < j < |history| ==> history[i].day <= history[j].day
  {
    session.SortTransactionsByDate();
    history := BalanceHistory(session.transactions, session.currentBalance);
    SortByDateSorted(old(session.transactions), false);
    forall i, j | 0 <= i < j < |history| ensures history[i].day <= history[j].day {
      ReplayPoint(session.currentBalance, session.transactions, i);
      ReplayPoint(session.currentBalance, session.transactions, j);
      assert Key(session.transactions[i], false) <= Key(session.transactions[j], false);
      assert DayOf(session.transactions[i].date) <= DayOf(session.transactions[j].date);
    }
  }

  /** The "you spend most on" highlight: the reduce keeps the later entry on ties. */
  function Highlight(pie: seq<CategoryTotal>): (r: Option<CategoryTotal>)
    ensures r.None? <==> pie == []
    ensures r.Some? ==>
      exists k :: 0 <= k < |pie| && pie[k] == r.value
        && (forall j :: 0 <= j < |pie| ==> pie[j].total <= r.value.total)
        && (forall j :: k < j < |pie| ==> pie[j].total < r.value.total)
  {
    if pie == [] then None else Some(pie[LastMaxIndex(pie)])
  }
}
