/** The dashboard controls of Controls.tsx: today's summary and the expense and income forms. */
module Controls {
  import opened Types
  import opened Lists
  import opened Calendar
  import opened Aggregation
  import opened Assistant
  import opened Ledger

  /** On the same calendar date as `now` (`toDateString` equality). */
  function SameDate(now: int): Transaction -> bool {
    (t: Transaction) => DayOf(t.date) == DayOf(now)
  }

  /** `todayTransactions`. */
  function TodayTransactions(s: seq<Transaction>, now: int): seq<Transaction> {
    Filter(s, SameDate(now))
  }

  datatype DailySummary = DailySummary(spent: real, earned: real, variation: real)

  /** The summary effect: spent and earned today, and their difference. */
  function DailySummaryOf(s: seq<Transaction>, now: int): DailySummary {
    var today := TodayTransactions(s, now);
    var spent := SumByType(today, Expense);
    var earned := SumByType(today, Income);
    DailySummary(spent, earned, earned - spent)
  }

  /** The variation is the net of today's transactions, and today's transactions are exactly those
      dated between today's midnight and the next. */
  lemma DailySummarySpec(s: seq<Transaction>, now: int)
    ensures DailySummaryOf(s, now).variation == Net(TodayTransactions(s, now))
    ensures forall t :: t in TodayTransactions(s, now) <==>
      t in s && StartOfDay(now) <= t.date < StartOfDay(now) + MsPerDay
  {
    NetIsIncomeMinusExpense(TodayTransactions(s, now));
    FilterCount(s, SameDate(now));
  }

  /** Today's list here (same date) and in the assistant's daily summary (since midnight) agree
      except on transactions dated after today, which only the latter includes. */
  lemma TodayAgreesWithAssistant(s: seq<Transaction>, now: int)
    ensures forall t :: t in TodayTransactions(s, now) ==> t in TodaysTransactions(s, now)
    ensures (forall t :: t in s ==> t.date < StartOfDay(now) + MsPerDay) ==>
      TodayTransactions(s, now) == TodaysTransactions(s, now)
  {
    FilterCount(s, SameDate(now));
    if forall t :: t in s ==> t.date < StartOfDay(now) + MsPerDay {
      FilterSame(s, SameDate(now), SinceMidnight(now));
    }
  }

  lemma {:induction false} FilterSame(s: seq<Transaction>, p: Transaction -> bool, q: Transaction -> bool)
    requires forall t :: t in s ==> p(t) == q(t)
    ensures Filter(s, p) == Filter(s, q)
    decreases |s|
  {
    if s != [] {
      var n := |s| - 1;
      assert s[n] in s;
      assert forall t :: t in s[..n] ==> t in s;
      FilterSame(s[..n], p, q);
    }
  }

  datatype Modal = Closed | ExpenseModal | IncomeModal | SummaryModal

  /** The transaction `handleSubmit` submits: none without an amount, without a category for an
      expense, or outside the expense and income forms. */
  function SubmittedTransaction(modal: Modal, amount: NumInput, category: string, source: string,
                                id: string, now: int): (r: Option<Transaction>)
    ensures r.Some? <==> amount.Num? && (modal == IncomeModal || (modal == ExpenseModal && category != []))
    ensures r.Some? ==> r.value.id == id && r.value.amount == amount.value && r.value.date == now
    ensures r.Some? && modal == ExpenseModal ==>
      r.value.kind == Expense && r.value.category == category && r.value.source == None
    ensures r.Some? && modal == IncomeModal ==>
      r.value.kind == Income && r.value.category == "Ganho" && r.value.source == Some(source)
  {
    if amount.Blank? || (modal == ExpenseModal && category == []) then None
    else if modal == ExpenseModal then Some(Transaction(id, Expense, amount.value, category, None, now))
    else if modal == IncomeModal then Some(Transaction(id, Income, amount.value, "Ganho", Some(source), now))
    else None
  }

  /** The `useState` fields of the controls. */
  class ControlsForm {
    var modal: Modal
    var amount: NumInput
    var category: string
    var source: string
    var expenseInsight: ExpenseInsight

    constructor ()
      ensures modal == Closed && amount == Blank && category == [] && source == []
      ensures expenseInsight == NoInsight
    {
      modal, amount, category, source, expenseInsight := Closed, Blank, [], [], NoInsight;
    }

    /** `openModal`: every field is cleared and the chosen form opens. */
    method OpenModal(kind: Modal)
      modifies this
      ensures modal == kind && amount == Blank && category == [] && source == []
      ensures expenseInsight == NoInsight
    {
      amount := Blank;
      category := [];
      source := [];
      expenseInsight := NoInsight;
      modal := kind;
    }

    /** `handleSubmit`: records the form's transaction in the session. After an expense the form
        shows the insight for this one expense against a thirtieth of the monthly income and
        clears amount and category; after an income the form closes. */
    method HandleSubmit(session: Session, id: string, now: int)
      requires session.Valid()
      modifies this, session
      ensures session.Valid()
      ensures var t := SubmittedTransaction(old(modal), old(amount), old(category), old(source), id, now);
        && (t.None? ==> unchanged(this) && unchanged(session))
        && (t.Some? && old(session.loaded) ==>
              session.transactions == old(session.transactions) + [t.value]
              && session.currentBalance == old(session.currentBalance) + Signed(t.value))
        && (t.Some? && !old(session.loaded) ==> unchanged(session))
        && (t.Some? && old(modal) == ExpenseModal ==>
              expenseInsight == GetExpenseInsight(t.value.amount, DailyIncome(old(session.monthlyIncome)))
              && amount == Blank && category == [] && modal == ExpenseModal && source == old(source))
        && (t.Some? && old(modal) == IncomeModal ==>
              modal == Closed && expenseInsight == old(expenseInsight) && amount == old(amount)
              && category == old(category) && source == old(source))
      ensures session.openingBalance == old(session.openingBalance)
      ensures session.loaded == old(session.loaded) && session.userName == old(session.userName)
      ensures session.goals == old(session.goals)
      ensures session.monthlyIncome == old(session.monthlyIncome)
    {
      var t := SubmittedTransaction(modal, amount, category, source, id, now);
      if t.None? {
        return;
      }
      if modal == ExpenseModal {
        session.AddTransaction(t.value);
        expenseInsight := GetExpenseInsight(t.value.amount, DailyIncome(session.monthlyIncome));
        category := [];
        amount := Blank;
      } else {
        session.AddTransaction(t.value);
        modal := Closed;
      }
    }
  }
}
