/** The session state of App.tsx: the `userData` cell (null until onboarding completes) and the
    three handlers that replace it. */
module Ledger {
  import opened Types
  import opened Aggregation
  import opened Ordering

  /** `goals.map(g => g.id === goalId ? { ...g, currentAmount: newCurrentAmount } : g)`. */
  function SetCurrentAmount(goals: seq<Goal>, goalId: string, amount: real): seq<Goal> {
    if goals == [] then []
    else
      var g := goals[0];
      [if g.id == goalId then g.(currentAmount := amount) else g]
        + SetCurrentAmount(goals[1..], goalId, amount)
  }

  /** The update keeps the length and order of the goals; a goal with the id gets the new current
      amount and keeps its other fields, every other goal is unchanged, and an id no goal has
      leaves the list as it was. */
  lemma {:induction false} SetCurrentAmountSpec(goals: seq<Goal>, goalId: string, amount: real)
    ensures var r := SetCurrentAmount(goals, goalId, amount);
      |r| == |goals|
      && (forall i :: 0 <= i < |goals| && goals[i].id == goalId ==> r[i] == goals[i].(currentAmount := amount))
      && (forall i :: 0 <= i < |goals| && goals[i].id != goalId ==> r[i] == goals[i])
      && ((forall g :: g in goals ==> g.id != goalId) ==> r == goals)
    decreases |goals|
  {
    if goals != [] {
      SetCurrentAmountSpec(goals[1..], goalId, amount);
      assert goals == [goals[0]] + goals[1..];
      assert forall g :: g in goals[1..] ==> g in goals;
    }
  }

  class Session {
    /** `userData !== null`. */
    var loaded: bool
    var userName: string
    var monthlyIncome: real
    var currentBalance: real
    var goals: seq<Goal>
    var transactions: seq<Transaction>
    /** The balance before the first transaction of the log. */
    ghost var openingBalance: real

    /** The cached balance agrees with the log. */
    ghost predicate Valid()
      reads this
    {
      currentBalance == openingBalance + Net(transactions)
    }

    /** The `userData` value the dashboard components read. */
    function Snapshot(): (d: Option<UserData>)
      reads this
      ensures d.Some? <==> loaded
      ensures d.Some? ==> (d.value.transactions == transactions && d.value.goals == goals
                            && d.value.currentBalance == currentBalance
                            && d.value.monthlyIncome == monthlyIncome && d.value.userName == userName)
    {
      if loaded then Some(UserData(userName, monthlyIncome, currentBalance, goals, transactions))
      else None
    }

    /** `useState<UserData | null>(null)`. */
    constructor ()
      ensures Valid() && !loaded
      ensures transactions == [] && goals == []
    {
      loaded := false;
      userName, monthlyIncome, currentBalance := [], 0.0, 0.0;
      goals, transactions := [], [];
      openingBalance := 0.0;
    }

    /** `handleOnboardingComplete`: the session takes the onboarding result. */
    method Load(data: UserData)
      modifies this
      ensures Valid() && Snapshot() == Some(data)
      ensures openingBalance == data.currentBalance - Net(data.transactions)
    {
      loaded := true;
      userName, monthlyIncome, currentBalance := data.userName, data.monthlyIncome, data.currentBalance;
      goals, transactions := data.goals, data.transactions;
      openingBalance := data.currentBalance - Net(data.transactions);
    }

    /** `addTransaction`: appends to the log and moves the balance by the amount. */
    method AddTransaction(t: Transaction)
      requires Valid()
      modifies this
      ensures Valid() && openingBalance == old(openingBalance)
      ensures !old(loaded) ==> unchanged(this)
      ensures old(loaded) ==> (transactions == old(transactions) + [t]
                               && currentBalance == old(currentBalance) + Signed(t))
      ensures t.kind == Expense && old(loaded) ==> currentBalance == old(currentBalance) - t.amount
      ensures t.kind == Income && old(loaded) ==> currentBalance == old(currentBalance) + t.amount
      ensures loaded == old(loaded) && goals == old(goals) && userName == old(userName)
        && monthlyIncome == old(monthlyIncome)
    {
      if !loaded {
        return;
      }
      var newTransactions := transactions + [t];
      var newBalance := currentBalance;
      if t.kind == Expense {
        newBalance := newBalance - t.amount;
      } else {
        newBalance := newBalance + t.amount;
      }
      NetAppend(transactions, [t]);
      assert Net([t]) == Signed(t) by { assert [t][..0] == []; }
      currentBalance, transactions := newBalance, newTransactions;
    }

    /** `addGoal`: appends the goal; the log and the balance do not change. */
    method AddGoal(g: Goal)
      requires Valid()
      modifies this
      ensures Valid() && openingBalance == old(openingBalance)
      ensures !old(loaded) ==> unchanged(this)
      ensures goals == if old(loaded) then old(goals) + [g] else old(goals)
      ensures loaded == old(loaded) && transactions == old(transactions)
        && currentBalance == old(currentBalance) && userName == old(userName)
        && monthlyIncome == old(monthlyIncome)
    {
      if !loaded {
        return;
      }
      goals := goals + [g];
    }

    /** `handleUpdateGoal`: every goal with the id gets the new current amount. */
    method UpdateGoal(goalId: string, newCurrentAmount: real)
      requires Valid()
      modifies this
      ensures Valid() && openingBalance == old(openingBalance)
      ensures !old(loaded) ==> unchanged(this)
      ensures goals == if old(loaded) then SetCurrentAmount(old(goals), goalId, newCurrentAmount)
        else old(goals)
      ensures loaded == old(loaded) && transactions == old(transactions)
        && currentBalance == old(currentBalance) && userName == old(userName)
        && monthlyIncome == old(monthlyIncome)
    {
      if !loaded {
        return;
      }
      goals := SetCurrentAmount(goals, goalId, newCurrentAmount);
    }

    /** The in-place `transactions.sort(...)` of Visualizations.tsx, which reorders the session's
        own log by ascending date; the balance invariant survives because the sort permutes. */
    method SortTransactionsByDate()
      requires Valid()
      modifies this
      ensures Valid() && openingBalance == old(openingBalance)
      ensures transactions == SortByDate(old(transactions), false)
      ensures multiset(transactions) == multiset(old(transactions))
      ensures loaded == old(loaded) && goals == old(goals) && currentBalance == old(currentBalance)
        && userName == old(userName) && monthlyIncome == old(monthlyIncome)
    {
      var sorted := SortByDate(transactions, false);
      NetPermutation(sorted, transactions);
      transactions := sorted;
    }
  }

  /** The balance invariant in the terms of the ledger: the balance is the opening balance plus
      all incomes minus all expenses of the log. */
  lemma BalanceIsOpeningPlusNet(s: Session)
    requires s.Valid()
    ensures s.currentBalance == s.openingBalance + SumByType(s.transactions, Income)
      - SumByType(s.transactions, Expense)
  {
    NetIsIncomeMinusExpense(s.transactions);
  }
}
