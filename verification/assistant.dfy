/** The pure helpers of geminiService.ts: today's transactions and sums behind the daily
    summary, the expense-share insight, and what is handed to the assistant. */
module Assistant {
  import opened Types
  import opened Lists
  import opened Calendar
  import opened Aggregation

  /** Dated at or after today's midnight; there is no upper bound. */
  function SinceMidnight(now: int): Transaction -> bool {
    (t: Transaction) => t.date >= StartOfDay(now)
  }

  /** `getTodaysTransactions`. */
  function TodaysTransactions(s: seq<Transaction>, now: int): (r: seq<Transaction>)
    ensures forall t :: t in r <==> t in s && t.date >= StartOfDay(now)
    ensures forall t :: multiset(r)[t] == if t.date >= StartOfDay(now) then multiset(s)[t] else 0
  {
    FilterCount(s, SinceMidnight(now));
    Filter(s, SinceMidnight(now))
  }

  /** The figures the daily summary prompt is built from. */
  datatype DailyFigures = DailyFigures(spentToday: real, earnedToday: real, dailyIncome: real)

  function DailyIncome(monthlyIncome: real): (d: real)
    ensures d * 30.0 == monthlyIncome
  {
    monthlyIncome / 30.0
  }

  function DailyFiguresOf(u: UserData, now: int): DailyFigures {
    var today := TodaysTransactions(u.transactions, now);
    DailyFigures(SumByType(today, Expense), SumByType(today, Income), DailyIncome(u.monthlyIncome))
  }

  /** Spent and earned are today's sums by type, so earned minus spent is today's net; a day
      without expenses shows nothing spent; the daily income is a thirtieth of the monthly one. */
  lemma DailyFiguresSpec(u: UserData, now: int)
    ensures DailyFiguresOf(u, now).dailyIncome * 30.0 == u.monthlyIncome
    ensures DailyFiguresOf(u, now).earnedToday - DailyFiguresOf(u, now).spentToday
      == Net(TodaysTransactions(u.transactions, now))
    ensures (forall t :: t in u.transactions && t.date >= StartOfDay(now) ==> t.kind == Income) ==>
      DailyFiguresOf(u, now).spentToday == 0.0
  {
    var today := TodaysTransactions(u.transactions, now);
    NetIsIncomeMinusExpense(today);
    if forall t :: t in u.transactions && t.date >= StartOfDay(now) ==> t.kind == Income {
      SumByTypeNone(today, Expense);
    }
  }

  /** The message of `getExpenseInsight`; `NoInsight` is its empty string. */
  datatype ExpenseInsight = NoInsight | Share(spent: real, percent: real)

  /** No insight without a positive daily income; otherwise the spending as a percentage of it. */
  function GetExpenseInsight(spent: real, dailyIncome: real): (r: ExpenseInsight)
    ensures r.NoInsight? <==> dailyIncome <= 0.0
    ensures r.Share? ==> r.spent == spent && r.percent * dailyIncome == spent * 100.0
  {
    if dailyIncome <= 0.0 then NoInsight else Share(spent, (spent / dailyIncome) * 100.0)
  }

  /** `transactions.slice(-5)`: the last five entries of the log, or all of a shorter log. */
  function LastFive(s: seq<Transaction>): (r: seq<Transaction>)
    ensures |r| == if |s| < 5 then |s| else 5
    ensures r == s[|s| - |r|..]
  {
    if |s| <= 5 then s else s[|s| - 5..]
  }

  /** What the assistant's instructions state about the user. */
  datatype AssistantContext = AssistantContext(
    userName: string,
    monthlyIncome: real,
    currentBalance: real,
    goals: seq<Goal>,
    recent: seq<Transaction>)

  function ContextOf(u: UserData): (c: AssistantContext)
    ensures |c.recent| == if |u.transactions| < 5 then |u.transactions| else 5
    ensures c.recent == u.transactions[|u.transactions| - |c.recent|..]
    ensures c.userName == u.userName && c.monthlyIncome == u.monthlyIncome
      && c.currentBalance == u.currentBalance && c.goals == u.goals
  {
    AssistantContext(u.userName, u.monthlyIncome, u.currentBalance, u.goals, LastFive(u.transactions))
  }

  datatype Part = Part(text: string)
  datatype Content = Content(role: string, parts: seq<Part>)

  /** `contents`: the conversation so far, then the new message from the user. */
  function ContentsFor(history: seq<Content>, newMessage: string): (r: seq<Content>)
    ensures |r| == |history| + 1
    ensures r[..|history|] == history
    ensures r[|history|] == Content("user", [Part(newMessage)])
  {
    history + [Content("user", [Part(newMessage)])]
  }
}
