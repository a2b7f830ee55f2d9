/** Goal progress arithmetic of `GoalCard` and the two goal forms of Goals.tsx. */
module Goals {
  import opened Types
  import opened Ledger

  /** The savings rate assumed for the time-to-goal estimate. */
  const SavingsRate: real := 0.1

  /** Percent of the target reached, with 0 for a target that is not positive. */
  function Progress(g: Goal): (p: real)
    ensures g.targetAmount > 0.0 ==> p * g.targetAmount == g.currentAmount * 100.0
    ensures g.targetAmount <= 0.0 ==> p == 0.0
  {
    if g.targetAmount > 0.0 then (g.currentAmount / g.targetAmount) * 100.0 else 0.0
  }

  predicate IsCompleted(g: Goal) {
    Progress(g) >= 100.0
  }

  /** With a positive target, "completed" means the current amount reached the target; with any
      other target a goal is never completed, whatever its current amount. */
  lemma CompletedIffReached(g: Goal)
    ensures g.targetAmount > 0.0 ==> (IsCompleted(g) <==> g.currentAmount >= g.targetAmount)
    ensures g.targetAmount <= 0.0 ==> !IsCompleted(g)
  {
    if g.targetAmount > 0.0 {
      var p := Progress(g);
      assert p == g.currentAmount * 100.0 / g.targetAmount;
      if p >= 100.0 {
        assert p * g.targetAmount >= 100.0 * g.targetAmount;
      } else {
        assert p * g.targetAmount < 100.0 * g.targetAmount;
      }
    }
  }

  /** The width of the progress bar: the progress, clamped at 100 percent. */
  function BarWidth(g: Goal): (w: real)
    ensures w <= 100.0
    ensures w == Progress(g) || (w == 100.0 && Progress(g) > 100.0)
    ensures IsCompleted(g) <==> w == 100.0
  {
    if Progress(g) > 100.0 then 100.0 else Progress(g)
  }

  /** The assumed monthly contribution. */
  function MonthlyContribution(monthlyIncome: real): (c: real)
    ensures c * 10.0 == monthlyIncome
  {
    monthlyIncome * SavingsRate
  }

  /** `Math.ceil` on reals. */
  function Ceil(x: real): (n: int)
    ensures n as real - 1.0 < x <= n as real
  {
    -((-x).Floor)
  }

  /** Whole months of contributions still needed to reach the target, or 0 when nothing is
      missing or nothing is contributed. */
  function MonthsRemaining(g: Goal, monthlyIncome: real): (m: int)
    ensures m >= 0
    ensures m > 0 <==> MonthlyContribution(monthlyIncome) > 0.0 && g.targetAmount - g.currentAmount > 0.0
    ensures m > 0 ==>
      (m as real) * MonthlyContribution(monthlyIncome) >= g.targetAmount - g.currentAmount &&
      (m as real - 1.0) * MonthlyContribution(monthlyIncome) < g.targetAmount - g.currentAmount
  {
    var c := MonthlyContribution(monthlyIncome);
    var remaining := g.targetAmount - g.currentAmount;
    if c > 0.0 && remaining > 0.0 then
      var q := remaining / c;
      var m := Ceil(q);
      assert q * c == remaining;
      assert m > 0;
      MulMonotone(q, m as real, c);
      MulMonotoneStrict(m as real - 1.0, q, c);
      assert (m as real - 1.0) * c < remaining;
      m
    else 0
  }

  /** Multiplying by a positive contribution keeps `<=`: `m` months cover what `q` months do. */
  lemma MulMonotone(x: real, y: real, c: real)
    requires x <= y && c > 0.0
    ensures x * c <= y * c
  {
  }

  /** Multiplying by a positive contribution keeps `<`: one month fewer falls short. */
  lemma MulMonotoneStrict(x: real, y: real, c: real)
    requires x < y && c > 0.0
    ensures x * c < y * c
  {
  }

  /** The new-goal form: its `useState` fields and `handleAdd`. */
  class AddGoalForm {
    var name: string
    var current: NumInput
    var target: NumInput

    constructor ()
      ensures name == [] && current == Blank && target == Blank
    {
      name, current, target := [], Blank, Blank;
    }

    /** `handleAdd`: nothing without a name or a target; otherwise a personal goal whose current
        amount is 0 unless one was typed. */
    method HandleAdd(id: string) returns (g: Option<Goal>)
      ensures g.None? <==> name == [] || target.Blank?
      ensures g.Some? ==> g.value.id == id && g.value.name == name && g.value.icon == "personal"
      ensures g.Some? ==> g.value.targetAmount == target.value
      ensures g.Some? && current.Blank? ==> g.value.currentAmount == 0.0
      ensures g.Some? && current.Num? ==> g.value.currentAmount == current.value
    {
      if name == [] || target.Blank? {
        return None;
      }
      g := Some(Goal(id, name, "personal", NumberOrZero(current), target.value));
    }
  }

  /** The contribution form: its `useState` field and `handleUpdate`. */
  class EditGoalForm {
    var amountToAdd: NumInput

    constructor ()
      ensures amountToAdd == Blank
    {
      amountToAdd := Blank;
    }

    /** `handleUpdate`: an empty or non-positive amount is ignored; otherwise the goal's new current
        amount (the `onUpdate` callback) is the old one plus the amount, so it strictly grows. */
    method HandleUpdate(goal: Goal) returns (newCurrent: Option<real>)
      ensures newCurrent.None? <==> amountToAdd.Blank? || amountToAdd.value <= 0.0
      ensures newCurrent.Some? ==> newCurrent.value == goal.currentAmount + amountToAdd.value
      ensures newCurrent.Some? ==> newCurrent.value > goal.currentAmount
    {
      if amountToAdd.Blank? || amountToAdd.value <= 0.0 {
        return None;
      }
      newCurrent := Some(goal.currentAmount + amountToAdd.value);
    }
  }

  /** The add button: a goal built by the form goes to the end of the session's goals. */
  method SubmitNewGoal(form: AddGoalForm, session: Session, id: string)
    requires session.Valid()
    modifies session
    ensures session.Valid()
    ensures session.goals == if old(session.loaded) && form.name != [] && form.target.Num?
      then old(session.goals) + [Goal(id, form.name, "personal", NumberOrZero(form.current), form.target.value)]
      else old(session.goals)
    ensures session.transactions == old(session.transactions)
    ensures session.currentBalance == old(session.currentBalance)
    ensures session.openingBalance == old(session.openingBalance)
    ensures session.loaded == old(session.loaded) && session.userName == old(session.userName)
      && session.monthlyIncome == old(session.monthlyIncome)
  {
    var g := form.HandleAdd(id);
    if g.Some? {
      session.AddGoal(g.value);
    }
  }

  /** The contribution button on a goal card: the goals with the card's id get the old current
      amount plus the contribution; nothing changes for an empty or non-positive amount. */
  method ContributeToGoal(form: EditGoalForm, session: Session, editing: Goal)
    requires session.Valid()
    modifies session
    ensures session.Valid()
    ensures form.amountToAdd.Num? && form.amountToAdd.value > 0.0 && old(session.loaded) ==>
      session.goals == SetCurrentAmount(old(session.goals), editing.id,
                                        editing.currentAmount + form.amountToAdd.value)
    ensures !(form.amountToAdd.Num? && form.amountToAdd.value > 0.0) ==>
      session.goals == old(session.goals)
    ensures !old(session.loaded) ==> session.goals == old(session.goals)
    ensures session.transactions == old(session.transactions)
    ensures session.currentBalance == old(session.currentBalance)
    ensures session.openingBalance == old(session.openingBalance)
    ensures session.loaded == old(session.loaded) && session.userName == old(session.userName)
      && session.monthlyIncome == old(session.monthlyIncome)
  {
    var newCurrent := form.HandleUpdate(editing);
    if newCurrent.Some? {
      assert form.amountToAdd.Num? && form.amountToAdd.value > 0.0;
      session.UpdateGoal(editing.id, newCurrent.value);
    } else {
      assert !(form.amountToAdd.Num? && form.amountToAdd.value > 0.0);
    }
  }
}
