/** The onboarding wizard of Onboarding.tsx: the step counter, the goal selection with its detail
    fields, and the initial user data it produces. */
module Onboarding {
  import opened Types
  import opened Lists

  datatype GoalOption = GoalOption(id: string, name: string)

  /** `goalOptions`: the goals offered, with their display names. */
  const GoalOptions: seq<GoalOption> := [
    GoalOption("emergency", "Fundo de Emerg\U{EA}ncia"),
    GoalOption("travel", "Viagem dos Sonhos"),
    GoalOption("home", "Casa Pr\U{F3}pria"),
    GoalOption("debt", "Quitar D\U{ED}vidas"),
    GoalOption("education", "Educa\U{E7}\U{E3}o"),
    GoalOption("investments", "Investimentos"),
    GoalOption("personal", "Plano Pessoal")
  ]

  predicate IsOption(id: string) {
    exists o :: o in GoalOptions && o.id == id
  }

  /** `options.find(g => g.id === id)!.name`: the name of the first option with the id. */
  function FindName(options: seq<GoalOption>, id: string): (name: string)
    requires exists o :: o in options && o.id == id
    ensures GoalOption(id, name) in options
  {
    if options[0].id == id then options[0].name
    else
      assert forall o :: o in options && o != options[0] ==> o in options[1..];
      FindName(options[1..], id)
  }

  function OptionName(id: string): (name: string)
    requires IsOption(id)
    ensures GoalOption(id, name) in GoalOptions
  {
    FindName(GoalOptions, id)
  }

  /** The two text fields entered for a selected goal. */
  datatype GoalDetails = GoalDetails(current: NumInput, target: NumInput)

  datatype DetailField = Current | Target

  function NotEqualTo(id: string): string -> bool {
    (x: string) => x != id
  }

  /** `prev.includes(goalId) ? prev.filter(id => id !== goalId) : [...prev, goalId]`. */
  function Toggle(selected: seq<string>, id: string): (r: seq<string>)
    ensures id in r <==> id !in selected
    ensures forall x :: x != id ==> (x in r <==> x in selected)
    ensures id !in selected ==> r == selected + [id]
  {
    FilterCount(selected, NotEqualTo(id));
    if id in selected then Filter(selected, NotEqualTo(id)) else selected + [id]
  }

  /** Unselecting the id at position `i` of a duplicate-free selection removes exactly that
      entry; the other ids keep their order. */
  lemma ToggleRemoves(selected: seq<string>, id: string, i: int)
    requires NoDuplicates(selected) && 0 <= i < |selected| && selected[i] == id
    ensures Toggle(selected, id) == selected[..i] + selected[i + 1..]
  {
    var pre, post := selected[..i], selected[i + 1..];
    assert selected == pre + [id] + post;
    forall k | 0 <= k < |pre| ensures NotEqualTo(id)(pre[k]) {
      assert pre[k] == selected[k];
    }
    forall k | 0 <= k < |post| ensures NotEqualTo(id)(post[k]) {
      assert post[k] == selected[i + 1 + k];
    }
    FilterAppend(pre + [id], post, NotEqualTo(id));
    FilterAppend(pre, [id], NotEqualTo(id));
    FilterAll(pre, NotEqualTo(id));
    FilterAll(post, NotEqualTo(id));
    assert Filter([id], NotEqualTo(id)) == [] by {
      assert [id][..0] == [];
    }
    calc {
      Toggle(selected, id);
      Filter(pre + [id] + post, NotEqualTo(id));
      Filter(pre + [id], NotEqualTo(id)) + Filter(post, NotEqualTo(id));
      Filter(pre, NotEqualTo(id)) + Filter([id], NotEqualTo(id)) + Filter(post, NotEqualTo(id));
      pre + post;
    }
  }

  /** A selection never holds an id twice. */
  lemma ToggleNoDuplicates(selected: seq<string>, id: string)
    requires NoDuplicates(selected)
    ensures NoDuplicates(Toggle(selected, id))
  {
    if id in selected {
      FilterNoDuplicates(selected, NotEqualTo(id));
    }
  }

  /** Selecting a goal that was not selected and then unselecting it restores the selection. */
  lemma ToggleTwice(selected: seq<string>, id: string)
    requires id !in selected
    ensures Toggle(Toggle(selected, id), id) == selected
  {
    FilterAppend(selected, [id], NotEqualTo(id));
    FilterAll(selected, NotEqualTo(id));
    assert Filter([id], NotEqualTo(id)) == [] by { assert [id][..0] == []; }
  }

  /** `{ ...prev[id], [field]: value }` stored back under `id`; a goal without details starts
      from two empty fields. */
  function SetDetail(details: map<string, GoalDetails>, id: string, field: DetailField, value: NumInput)
    : (r: map<string, GoalDetails>)
    ensures r.Keys == details.Keys + {id}
    ensures forall k :: k in details && k != id ==> r[k] == details[k]
    ensures field == Current ==> r[id].current == value
    ensures field == Target ==> r[id].target == value
    ensures field == Current ==> r[id].target == (if id in details then details[id].target else Blank)
    ensures field == Target ==> r[id].current == (if id in details then details[id].current else Blank)
  {
    var old_ := if id in details then details[id] else GoalDetails(Blank, Blank);
    details[id := if field == Current then old_.(current := value) else old_.(target := value)]
  }

  /** The goal `handleSubmit` builds for one selected id: named after its option, with the option
      id as icon and empty (or missing) amounts read as 0. */
  function GoalFor(id: string, details: map<string, GoalDetails>): (g: Goal)
    requires IsOption(id)
    ensures g.id == id && g.icon == id && GoalOption(id, g.name) in GoalOptions
    ensures g.currentAmount == if id in details then NumberOrZero(details[id].current) else 0.0
    ensures g.targetAmount == if id in details then NumberOrZero(details[id].target) else 0.0
  {
    var d := if id in details then details[id] else GoalDetails(Blank, Blank);
    Goal(id, OptionName(id), id, NumberOrZero(d.current), NumberOrZero(d.target))
  }

  /** The goals `handleSubmit` builds: one per selected id, in selection order. */
  function FinalGoals(selected: seq<string>, details: map<string, GoalDetails>): (goals: seq<Goal>)
    requires forall i :: 0 <= i < |selected| ==> IsOption(selected[i])
    ensures |goals| == |selected|
    ensures forall i :: 0 <= i < |selected| ==> goals[i] == GoalFor(selected[i], details)
  {
    if selected == [] then []
    else
      [GoalFor(selected[0], details)] + FinalGoals(selected[1..], details)
  }

  /** The wizard's `useState` fields; amounts typed in the income and balance steps are already
      read as numbers (the wizard cannot move past those steps while they are empty). */
  class Wizard {
    var step: int
    var userName: string
    var monthlyIncome: real
    var currentBalance: real
    var selectedGoals: seq<string>
    var goalDetails: map<string, GoalDetails>

    /** Only offered goals are selected, each once. */
    ghost predicate Valid()
      reads this
    {
      NoDuplicates(selectedGoals) && forall id :: id in selectedGoals ==> IsOption(id)
    }

    constructor ()
      ensures Valid() && step == 1 && selectedGoals == [] && goalDetails == map[] && userName == []
    {
      step := 1;
      userName, monthlyIncome, currentBalance := [], 0.0, 0.0;
      selectedGoals, goalDetails := [], map[];
    }

    method HandleNext()
      modifies this`step
      ensures step == old(step) + 1
    {
      step := step + 1;
    }

    method HandleBack()
      modifies this`step
      ensures step == old(step) - 1
    {
      step := step - 1;
    }

    /** `toggleGoal`: flips the selection of `id` and gives it empty details unless it has some. */
    method ToggleGoal(id: string)
      requires Valid() && IsOption(id)
      modifies this`selectedGoals, this`goalDetails
      ensures Valid()
      ensures selectedGoals == Toggle(old(selectedGoals), id)
      ensures id in old(goalDetails) ==> goalDetails == old(goalDetails)
      ensures id !in old(goalDetails) ==> goalDetails == old(goalDetails)[id := GoalDetails(Blank, Blank)]
    {
      ToggleNoDuplicates(selectedGoals, id);
      selectedGoals := Toggle(selectedGoals, id);
      if id !in goalDetails {
        goalDetails := goalDetails[id := GoalDetails(Blank, Blank)];
      }
    }

    /** `handleGoalDetailChange`. */
    method HandleGoalDetailChange(id: string, field: DetailField, value: NumInput)
      modifies this`goalDetails
      ensures goalDetails == SetDetail(old(goalDetails), id, field, value)
    {
      goalDetails := SetDetail(goalDetails, id, field, value);
    }

    /** `handleSubmit`: the initial user data, with the selected goals and an empty log. */
    function SubmittedData(): (d: UserData)
      reads this
      requires Valid()
      ensures d.userName == userName && d.monthlyIncome == monthlyIncome
      ensures d.currentBalance == currentBalance
      ensures d.transactions == []
      ensures d.goals == FinalGoals(selectedGoals, goalDetails)
    {
      UserData(userName, monthlyIncome, currentBalance, FinalGoals(selectedGoals, goalDetails), [])
    }
  }
}
