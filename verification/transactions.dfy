/** The period filter, the newest-first listing and the period total of Transactions.tsx. */
module TransactionList {
  import opened Types
  import opened Lists
  import opened Calendar
  import opened Aggregation
  import opened Ordering

  datatype Period = Day | Week | Month | Bimester

  /** Whether a transaction dated `t` is listed under `period` at time `now`. */
  predicate InPeriod(t: int, now: int, period: Period) {
    match period
    case Day => DayOf(t) == DayOf(now)
    case Week => t >= MinusDays(now, 7)
    case Month => MonthOf(t) == MonthOf(now) && YearOf(t) == YearOf(now)
    case Bimester => t >= MinusMonths(now, 2)
  }

  function InPeriodFilter(now: int, period: Period): Transaction -> bool {
    (t: Transaction) => InPeriod(t.date, now, period)
  }

  /** `filteredTransactions`: the transactions of the period, newest first. */
  function FilteredTransactions(s: seq<Transaction>, now: int, period: Period): seq<Transaction> {
    SortByDate(Filter(s, InPeriodFilter(now, period)), true)
  }

  /** The listing holds exactly the transactions of the period, each as often as in the log. */
  lemma FilteredTransactionsContents(s: seq<Transaction>, now: int, period: Period)
    ensures forall t ::
      multiset(FilteredTransactions(s, now, period))[t]
        == if InPeriod(t.date, now, period) then multiset(s)[t] else 0
  {
    FilterCount(s, InPeriodFilter(now, period));
  }

  /** The listing is newest first. */
  lemma FilteredTransactionsNewestFirst(s: seq<Transaction>, now: int, period: Period)
    ensures var r := FilteredTransactions(s, now, period);
      forall i, j :: 0 <= i < j < |r| ==> r[i].date >= r[j].date
  {
    var r := FilteredTransactions(s, now, period);
    SortByDateSorted(Filter(s, InPeriodFilter(now, period)), true);
    forall i, j | 0 <= i < j < |r| ensures r[i].date >= r[j].date {
      assert Key(r[i], true) <= Key(r[j], true);
    }
  }

  /** Under `Day`, a transaction is listed exactly when it falls on today's calendar date. */
  lemma DayIsSameCalendarDate(t: int, now: int)
    ensures InPeriod(t, now, Day) <==> StartOfDay(now) <= t < StartOfDay(now) + MsPerDay
  {
  }

  /** Under `Week` the window has no upper bound: anything dated now or later is listed, and so is
      anything in the last seven days. */
  lemma WeekHasNoUpperBound(t: int, now: int)
    ensures t >= now - 7 * MsPerDay <==> InPeriod(t, now, Week)
  {
  }

  /** Under `Month` a transaction is listed exactly when its day lies in the calendar month of
      `now`, from its first day to its last. */
  lemma MonthIsCalendarMonth(t: int, now: int)
    ensures 0 <= MonthOf(now) < 12
    ensures InPeriod(t, now, Month)
      <==> DaysFromCivil(YearOf(now), MonthOf(now), 1) <= DayOf(t)
             < DaysFromCivil(YearOf(now), MonthOf(now), 1) + DaysInMonth(YearOf(now), MonthOf(now))
  {
    CivilRange(DayOf(now));
    InMonth(DayOf(t), YearOf(now), MonthOf(now));
  }

  /** Under `Bimester` the window starts strictly before `now`, so `now` itself is listed, and so
      is everything later; the boundary two months back is listed too (the comparison is `>=`). */
  lemma BimesterListsNow(t: int, now: int)
    ensures MinusMonths(now, 2) < now
    ensures t >= now ==> InPeriod(t, now, Bimester)
    ensures InPeriod(MinusMonths(now, 2), now, Bimester)
  {
    MinusMonthsEarlier(now, 2);
  }

  /** `getPeriodTotal`: incomes minus expenses of the listed transactions; the period argument
      is not used, the total is over the listing already filtered by the selected period. */
  function PeriodTotal(filtered: seq<Transaction>, period: Period): (total: real)
    ensures total == SumByType(filtered, Income) - SumByType(filtered, Expense)
  {
    NetIsIncomeMinusExpense(filtered);
    Net(filtered)
  }

  /** The total shown equals the net of the period's transactions in log order. */
  lemma PeriodTotalOfPeriod(s: seq<Transaction>, now: int, period: Period, shown: Period)
    ensures PeriodTotal(FilteredTransactions(s, now, period), shown)
      == Net(Filter(s, InPeriodFilter(now, period)))
  {
    var f := Filter(s, InPeriodFilter(now, period));
    NetPermutation(FilteredTransactions(s, now, period), f);
  }
}
