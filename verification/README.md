# FINA ledger and analytics, modelled in Dafny

FINA is a personal-finance web app. After onboarding, a session holds one `UserData` value: the
user's name, monthly income, a cached current balance, a list of savings goals and a log of dated
income and expense transactions. This project models that ledger and the computations the
dashboard runs over it:

- the session and its three mutations (`addTransaction`, `addGoal`, `handleUpdateGoal`), as the
  class `Ledger.Session`. Its invariant says that the cached balance equals an opening balance
  plus the net of the log;
- goal progress, completion, bar width and the months-to-goal estimate, and the two goal forms
  (`Goals`);
- the period filter, newest-first listing and period total of the transaction list
  (`TransactionList`);
- the weekly report: both week windows, their totals, the percentage change, the top expense
  category and the rule that picks the insight message (`WeeklyReport`);
- the charts: seven daily bars, per-category expense totals, the running-balance trend and the
  highlighted category (`Visualizations`, `Categories`);
- today's summary and the expense and income forms of the dashboard controls (`Controls`);
- the pure helpers of the assistant service: today's transactions, daily figures, the
  expense-share insight, the last-five snapshot and the chat contents (`Assistant`);
- the onboarding wizard: the step counter, goal selection, per-goal details and the initial
  `UserData` (`Onboarding`).

Modelling conventions:

- Amounts are `real`. JavaScript floating-point rounding is not modelled.
- Dates are `int` millisecond timestamps on the local wall clock. `Calendar` gives the calendar
  operations the code uses. `DayOf` is the date compared by `toDateString`. `StartOfDay` is
  `setHours(0,0,0,0)`. `MinusDays` is `setDate(getDate() - n)`. `MonthOf` and `YearOf` are
  `getMonth`/`getFullYear`. `MinusMonths` is `setMonth(getMonth() - n)`, including JavaScript's
  roll-over into the next month when the day does not exist (30 February becomes 1 March in a
  leap year and 2 March otherwise).
- "Now" and transaction ids are parameters: the code reads the clock and makes ids with
  `new Date().toISOString()`.
- Text from `<input type="number">` fields is `NumInput`: either `Blank` (the empty string) or
  `Num(v)`. `NumberOrZero` is `parseFloat(x) || 0`.
- A per-category `reduce` into a JavaScript object becomes an ordered list of
  `CategoryTotal` pairs. A new key goes last and an existing key keeps its place, as
  `Object.entries` lists string keys.
- `Array.prototype.sort` with a date comparator is a stable insertion sort (`Ordering.SortByDate`).
- The `transactions.sort(...)` in Visualizations.tsx sorts the session's own array in place. It
  is modelled as `Session.SortTransactionsByDate`, which reorders the log of the session.

Behaviour of the code kept as written:

- Contributing to a goal has no error outcome. The contribution form silently ignores an empty,
  non-numeric or non-positive amount (components/dashboard/Goals.tsx:156), and
  `handleUpdateGoal` with an unknown id leaves the goals unchanged (App.tsx:54-56).
- `addTransaction` accepts any amount, including a negative one.
- The "this week" window (WeeklyReport.tsx, Transactions.tsx) has no upper bound. So does the
  assistant's "today" (geminiService.ts). The controls' "today" is the calendar date only, so
  the two "today" lists differ on future-dated transactions (`Controls.TodayAgreesWithAssistant`).
- The balance trend replays the log from the *current* balance, not from the balance before the
  first transaction.

## Model

| member | source | states |
|---|---|---|
| Types.NumberOrZero | components/dashboard/Goals.tsx:114 | an empty amount field reads as 0; a typed number reads as itself |
| Ledger.Session.constructor | App.tsx:13 | the session starts with no user data (`loaded` false), an empty log and no goals, and its balance invariant holds |
| Ledger.Session.Snapshot | App.tsx:13 | the `userData` value is null exactly when nothing is loaded; otherwise it carries every field of the session |
| Ledger.Session.Load | App.tsx:15-18 | after onboarding completes, the session's user data is exactly the data handed over, and the invariant holds with the opening balance set to match it |
| Ledger.Session.AddTransaction | App.tsx:24-40 | does nothing without user data; otherwise appends the transaction to the end of the log, lowers the balance by an expense amount or raises it by an income amount, keeps goals, name and income, and preserves balance == opening balance + net of the log |
| Ledger.Session.AddGoal | App.tsx:42-48 | does nothing without user data; otherwise appends the goal at the end; log and balance unchanged |
| Ledger.Session.UpdateGoal | App.tsx:50-58 | does nothing without user data; otherwise the goals become the id-matching update of the old list; log and balance unchanged |
| Ledger.SetCurrentAmountSpec | App.tsx:54-56 | the update keeps length and order; goals with the id get the new current amount with all other fields kept; other goals are unchanged; an absent id leaves the list identical |
| Ledger.BalanceIsOpeningPlusNet | App.tsx:24-40 | for any session reached through the methods, balance = opening balance + sum of incomes − sum of expenses of the whole log |
| Ledger.Session.SortTransactionsByDate | components/dashboard/Visualizations.tsx:34 | the in-place sort replaces the log by its date-ascending sort, a permutation of it; the balance invariant and every other field survive |
| Goals.Progress | components/dashboard/Goals.tsx:56 | with a positive target, progress × target = current × 100; otherwise progress is 0 whatever the current amount |
| Goals.CompletedIffReached | components/dashboard/Goals.tsx:57 | with a positive target, completed ⇔ current ≥ target; with a target ≤ 0, never completed |
| Goals.BarWidth | components/dashboard/Goals.tsx:83 | the bar is the progress clamped at 100, and it is full exactly when the goal is completed |
| Goals.MonthlyContribution | components/dashboard/Goals.tsx:58 | the assumed contribution is a tenth of the monthly income |
| Goals.Ceil | components/dashboard/Goals.tsx:60 | `Math.ceil`: the least integer not below x |
| Goals.MonthsRemaining | components/dashboard/Goals.tsx:59-60 | never negative; positive exactly when both contribution and remaining amount are positive; then it is the least month count whose contributions cover the remaining amount |
| Goals.AddGoalForm.constructor | components/dashboard/Goals.tsx:104-106 | the form's three fields start empty |
| Goals.AddGoalForm.HandleAdd | components/dashboard/Goals.tsx:108-119 | no goal when name or target is empty; otherwise a goal with the given id and name, icon `personal`, the typed target, and current amount 0 when left empty |
| Goals.EditGoalForm.constructor | components/dashboard/Goals.tsx:152 | the amount field starts empty |
| Goals.EditGoalForm.HandleUpdate | components/dashboard/Goals.tsx:154-158 | an empty or non-positive amount yields nothing; otherwise the new current amount is the old one plus the amount, which is strictly larger |
| Goals.SubmitNewGoal | components/dashboard/Goals.tsx:108-119 | a valid form appends its goal to a loaded session; otherwise the goals are unchanged; log and balance are never touched |
| Goals.ContributeToGoal | components/dashboard/Goals.tsx:211-213 | a positive amount sets the goals with the card's id to the card's current amount plus the amount; an invalid amount changes nothing; log and balance unchanged |
| Aggregation.NetIsIncomeMinusExpense | components/dashboard/Transactions.tsx:42 | the signed reduce equals the income sum minus the expense sum |
| Aggregation.SumByTypeNone | components/dashboard/WeeklyReport.tsx:23-31 | a list with no transaction of a type sums to 0 for that type |
| Aggregation.SumOfPermutation | components/dashboard/Visualizations.tsx:34 | reordering a list does not change the sum of its amounts |
| Aggregation.SumByTypePermutation | components/dashboard/Visualizations.tsx:34 | reordering a list does not change its per-type sums |
| Aggregation.NetPermutation | components/dashboard/Visualizations.tsx:34 | reordering a list does not change its net total |
| Calendar.StartOfDay | services/geminiService.ts:13-14 | midnight of the day: a whole number of days, at or before t, less than a day before, on the same date |
| Calendar.MinusDays | components/dashboard/WeeklyReport.tsx:15-18 | `setDate(getDate() - n)`: exactly n calendar dates earlier, at the same time of day |
| Calendar.Epoch | components/dashboard/Transactions.tsx:19 | day 0 of the time value is 1 January 1970, both ways |
| Calendar.EpochTimestamp | components/dashboard/Transactions.tsx:19 | every timestamp from 0 up to the first midnight decodes to 1 January 1970 |
| Calendar.LeapDay2024 | components/dashboard/Transactions.tsx:19 | 29 February 2024 is day 19782, both ways |
| Calendar.CivilRoundTrip | components/dashboard/Transactions.tsx:28 | a valid date (month 0..11, day within the month) decodes from its day count back to itself |
| Calendar.DaysRoundTrip | components/dashboard/Transactions.tsx:28 | every day count decodes to a valid date (month 0..11, day within its month) whose day count is that same count |
| Calendar.CivilRange | components/dashboard/Transactions.tsx:28 | `getMonth` lies in 0..11 and the day of month in 1..31 |
| Calendar.InMonth | components/dashboard/Transactions.tsx:28 | a day has month m of year y exactly when it lies between the first of that month and its last day |
| Calendar.DaysFromCivilDay | components/dashboard/Transactions.tsx:31 | day d of a month is d − 1 days after its first, for any d, so a day past the end runs on into the next month |
| Calendar.MonthNormalize | components/dashboard/Transactions.tsx:31 | a month number outside 0..11 (such as −1 from `getMonth() - 2` in February) is month k mod 12 of year y + k div 12 |
| Calendar.MonthStep | components/dashboard/Transactions.tsx:31 | the first of the next month is the length of this month after the first of this one, across year ends and with February's leap-year length |
| Calendar.MonthsIncrease | components/dashboard/Transactions.tsx:31 | the first of an earlier month number is strictly before the first of a later one |
| Calendar.MinusMonthsDay | components/dashboard/Transactions.tsx:31 | `setMonth(getMonth() - n)` lands on the day count of the same day of month, n months back, and keeps the time of day |
| Calendar.MinusMonthsEarlier | components/dashboard/Transactions.tsx:31 | for n ≥ 0 the result is never later than t, strictly earlier for n > 0, and t itself for n = 0 |
| Calendar.MonthsBackEarlier | components/dashboard/Transactions.tsx:31 | from a valid date, n ≥ 0 months back is a day at or before it, strictly before for n > 0 |
| Calendar.MonthsBackSameDay | components/dashboard/Transactions.tsx:31 | when the month n back has the day of month, the result is that day of that month, with the year moved as the month count crosses January |
| Calendar.MonthsBackOverflow | components/dashboard/Transactions.tsx:31 | when the month n back is too short, the surplus days run into the following month (which is never past December): 31 April is 1 May, 30 February is 1 or 2 March |
| Categories.Upsert | components/dashboard/Visualizations.tsx:27 | adding a to category c: an existing key keeps its place, a new key goes last; only c's total grows, by a |
| Categories.Dedup | components/dashboard/Visualizations.tsx:31 | insertion order of object keys: each value once, exactly the values of the input |
| Categories.Tally | components/dashboard/Visualizations.tsx:26-29 | the object's keys are the distinct categories in first-occurrence order, and its totals add up to the sum of the amounts |
| Categories.TallyTotalFor | components/dashboard/Visualizations.tsx:26-29 | the value stored under a category is the sum of the amounts of that category |
| Categories.CategoryTotals | components/dashboard/Visualizations.tsx:24-29 | keys are distinct and are exactly the categories of expense transactions; the totals add up to the expense sum |
| Categories.CategoryTotalFor | components/dashboard/Visualizations.tsx:24-29 | a category's total is the sum of its expenses; a category with only incomes totals 0 |
| Categories.FirstMaxIndex | components/dashboard/WeeklyReport.tsx:40-41 | head of the stable descending sort: an entry of maximal total that every earlier entry falls strictly below |
| Categories.ReduceMax | components/dashboard/Visualizations.tsx:90 | the `prev.value > cur.value ? prev : cur` fold ends on a maximal entry that every later entry falls strictly below |
| Categories.LastMaxIndex | components/dashboard/Visualizations.tsx:90 | on a non-empty list, the last entry of maximal total |
| Ordering.Insert | components/dashboard/Transactions.tsx:37 | inserting adds exactly one element and keeps all the others |
| Ordering.InsertSorted | components/dashboard/Transactions.tsx:37 | inserting into a date-sorted list keeps it sorted |
| Ordering.SortByDate | components/dashboard/Transactions.tsx:37 | the sort is a permutation of its input |
| Ordering.SortByDateSorted | components/dashboard/Transactions.tsx:37 | the sort's result is ordered by date, ascending or descending as asked |
| TransactionList.FilteredTransactionsContents | components/dashboard/Transactions.tsx:15-38 | the listing holds each transaction of the period as often as the log does, and nothing else |
| TransactionList.FilteredTransactionsNewestFirst | components/dashboard/Transactions.tsx:37 | the listing is in non-increasing date order |
| TransactionList.DayIsSameCalendarDate | components/dashboard/Transactions.tsx:22 | under `day`, a transaction is listed exactly when it lies between today's midnight and the next |
| TransactionList.WeekHasNoUpperBound | components/dashboard/Transactions.tsx:24-26 | under `week`, listed exactly when dated at or after seven days ago, future dates included |
| TransactionList.MonthIsCalendarMonth | components/dashboard/Transactions.tsx:27-28 | under `month`, a transaction is listed exactly when its day lies between the first and the last day of the current calendar month |
| TransactionList.BimesterListsNow | components/dashboard/Transactions.tsx:29-32 | under `bimester` the window starts strictly before now, so now and every later instant are listed, and the boundary two calendar months back is itself listed |
| TransactionList.PeriodTotal | components/dashboard/Transactions.tsx:40-44 | the period total is incomes minus expenses of the listed transactions, whatever the period argument |
| TransactionList.PeriodTotalOfPeriod | components/dashboard/Transactions.tsx:40-44 | the total shown equals the net of the period's transactions in log order (the sort does not change it) |
| WeeklyReport.ExpenseChange | components/dashboard/WeeklyReport.tsx:43 | with a positive last-week expense, change × last = (this − last) × 100; otherwise 100 if this week spent, else 0 |
| WeeklyReport.WeeksDisjoint | components/dashboard/WeeklyReport.tsx:17-21 | no transaction is in both weeks, and together the weeks take each transaction at most as often as the log holds it |
| WeeklyReport.ReportTotals | components/dashboard/WeeklyReport.tsx:23-31 | each week's income − expense is that week's net; a week without expenses (or incomes, or anything) shows 0 for them |
| WeeklyReport.TopCategoryAbsent | components/dashboard/WeeklyReport.tsx:33-41 | there is no top category exactly when the week holds no expense |
| WeeklyReport.TopCategoryPresent | components/dashboard/WeeklyReport.tsx:33-41 | the top category has an expense, its total is the sum of its expenses, no category exceeds it, and it precedes every category with the same total |
| WeeklyReport.InsightFor | components/dashboard/WeeklyReport.tsx:84-86 | "reduced" ⇔ change < −1 (reporting the absolute change), "increased" ⇔ change > 1, "stable" otherwise; the three are exclusive and exhaustive |
| WeeklyReport.InsightAgreesWithTotals | components/dashboard/WeeklyReport.tsx:84-86 | "reduced" only when this week spent less, "increased" only when it spent more, and equal totals are "stable" |
| Visualizations.WeeklyDataSpec | components/dashboard/Visualizations.tsx:15-22 | seven bars on consecutive dates, oldest first and today last, each holding its date's income and expense sums |
| Visualizations.Replay | components/dashboard/Visualizations.tsx:35-40 | one trend point per transaction |
| Visualizations.ReplayPoint | components/dashboard/Visualizations.tsx:36-38 | the k-th point is the baseline plus the net of the first k+1 transactions, labelled with the k-th transaction's date |
| Visualizations.ReplayEnd | components/dashboard/Visualizations.tsx:36 | the last point is the baseline plus all incomes minus all expenses |
| Visualizations.BalanceHistory | components/dashboard/Visualizations.tsx:35-40 | the push loop produces exactly the replay of the log from the baseline |
| Visualizations.RenderBalanceHistory | components/dashboard/Visualizations.tsx:33-40 | sorts the session's log in place (balance and invariant kept), replays it from the current balance, and the points come in non-decreasing date order |
| Visualizations.Highlight | components/dashboard/Visualizations.tsx:90 | nothing for an empty chart; otherwise an entry of maximal total that every later entry falls strictly below (ties go to the later entry) |
| Assistant.TodaysTransactions | services/geminiService.ts:12-16 | exactly the transactions dated at or after today's midnight, without an upper bound, each as often as the log holds it |
| Assistant.DailyIncome | services/geminiService.ts:24 | the daily income is a thirtieth of the monthly income |
| Assistant.DailyFiguresSpec | services/geminiService.ts:21-24 | earned − spent is today's net; no expense today means 0 spent; daily income × 30 = monthly income |
| Assistant.GetExpenseInsight | services/geminiService.ts:94-98 | no insight exactly when the daily income is ≤ 0; otherwise the spending and percent × daily income = spent × 100 |
| Assistant.LastFive | services/geminiService.ts:69 | `slice(-5)`: at most five transactions, and they are the last ones of the log |
| Assistant.ContextOf | services/geminiService.ts:63-69 | the assistant sees the user's name, monthly income, balance and goals and the last five transactions |
| Assistant.ContentsFor | services/geminiService.ts:74-77 | the chat history unchanged, followed by exactly one new user message |
| Controls.DailySummarySpec | components/dashboard/Controls.tsx:25-31 | variation = net of today's transactions, which are exactly those dated on today's calendar date |
| Controls.TodayAgreesWithAssistant | components/dashboard/Controls.tsx:25 | every transaction dated today is in the assistant's list, and the lists coincide when nothing is dated after today |
| Controls.SubmittedTransaction | components/dashboard/Controls.tsx:46-71 | a transaction exactly when the amount is filled and the form is income, or expense with a category; an expense carries the category and no source; an income has category `Ganho` and the source |
| Controls.ControlsForm.constructor | components/dashboard/Controls.tsx:17-23 | no form open and every field empty |
| Controls.ControlsForm.OpenModal | components/dashboard/Controls.tsx:33-42 | clears amount, category, source and expense insight, and opens the chosen form |
| Controls.ControlsForm.HandleSubmit | components/dashboard/Controls.tsx:46-72 | an invalid form changes nothing; otherwise the transaction is appended to the session; an expense sets the insight for this one amount against income/30 and clears amount and category; an income closes the form |
| Onboarding.FindName | components/Onboarding.tsx:49 | the name found belongs to an option with the id |
| Onboarding.OptionName | components/Onboarding.tsx:49 | the name of a selectable goal is the name of its option |
| Onboarding.Toggle | components/Onboarding.tsx:32-34 | flips whether the id is selected, keeps every other id, and appends an unselected id at the end |
| Onboarding.ToggleRemoves | components/Onboarding.tsx:32 | unselecting an id of a duplicate-free selection removes exactly its entry; the other ids keep their order |
| Onboarding.ToggleNoDuplicates | components/Onboarding.tsx:32-34 | a selection without duplicates stays without duplicates |
| Onboarding.ToggleTwice | components/Onboarding.tsx:32-34 | toggling an unselected id twice restores the selection list |
| Onboarding.SetDetail | components/Onboarding.tsx:40-45 | only the named field of the named goal changes; other goals and the other field are kept, and missing details start empty |
| Onboarding.GoalFor | components/Onboarding.tsx:48-56 | the built goal has the option's id as id and icon, the option's name, and the typed amounts with missing ones read as 0 |
| Onboarding.FinalGoals | components/Onboarding.tsx:47-57 | one goal per selected id, in selection order |
| Onboarding.Wizard.constructor | components/Onboarding.tsx:21-26 | step 1, an empty name, nothing selected, no details |
| Onboarding.Wizard.HandleNext | components/Onboarding.tsx:28 | the step goes up by exactly 1 |
| Onboarding.Wizard.HandleBack | components/Onboarding.tsx:29 | the step goes down by exactly 1 |
| Onboarding.Wizard.ToggleGoal | components/Onboarding.tsx:31-38 | toggles the selection, keeps it duplicate-free, and creates empty details only for an id that has none |
| Onboarding.Wizard.HandleGoalDetailChange | components/Onboarding.tsx:40-45 | the details become the single-field update of the old details |
| Onboarding.Wizard.SubmittedData | components/Onboarding.tsx:47-66 | the initial user data: the entered name, income and balance, the goals of the selection, and an empty log |

## Left out

- Rendering, animation, charts and icons: presentation only, with no computation.
- The network calls to the assistant model, the prompt text and their error handling: an external
  client. Only the pure helpers around them are modelled.
- The chat component's loading flag, persistence in local storage, timers, the subscription
  redirect and tab switching: I/O and interface plumbing.
- Number parsing and formatting (`parseFloat`, `toFixed`, `toLocaleDateString`) and id
  generation. Parsed values, ids and "now" are inputs. A number field holding text that does not
  parse (NaN) is not modelled. Day labels and amounts with two decimals are not computed.
- Time zones and daylight-saving changes: a day is always 86 400 000 ms.
- Each `new Date()` in one computation (for example `now` and `oneWeekAgo` in the weekly report)
  is taken as the same instant.
- Object keys that look like array indices (such as "12"), which JavaScript lists before the other
  keys: categories are treated as ordinary string keys.
- The `getDailySummaryInsight` call started by `openModal` for the summary: an asynchronous
  network call. Only its figures (`Assistant.DailyFiguresOf`) are modelled.
- Ordering.SortByDate: stability (equal dates keep their order) holds by construction of the
  insertion sort but is not stated as a property.
- Onboarding.Wizard: the income and balance are held as already parsed numbers, so
  `parseFloat` of an empty onboarding field (NaN) is not modelled.
- Calendar: JavaScript's time-value range (at most 100 000 000 days either side of 1970, beyond
  which a date is invalid) is not modelled; day counts are unbounded integers.
