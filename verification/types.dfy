/** The ledger's data model: transactions, savings goals and the session's user data. */
module Types {

  datatype Option<T> = None | Some(value: T)

  /** The `type` field of a transaction. */
  datatype TxType = Income | Expense

  /** One dated income or expense event. `date` is a local wall-clock timestamp in milliseconds;
      `source` is set only by the income form. */
  datatype Transaction = Transaction(
    id: string,
    kind: TxType,
    amount: real,
    category: string,
    source: Option<string>,
    date: int)

  /** A savings goal; `icon` is an opaque presentation tag. */
  datatype Goal = Goal(
    id: string,
    name: string,
    icon: string,
    currentAmount: real,
    targetAmount: real)

  /** The whole state of a session once onboarding is complete. */
  datatype UserData = UserData(
    userName: string,
    monthlyIncome: real,
    currentBalance: real,
    goals: seq<Goal>,
    transactions: seq<Transaction>)

  /** The text of an `<input type="number">`: either empty or a number. */
  datatype NumInput = Blank | Num(value: real)

  /** `parseFloat(text) || 0`: an empty field (and a zero) read as 0. */
  function NumberOrZero(input: NumInput): (r: real)
    ensures input.Blank? ==> r == 0.0
    ensures input.Num? ==> r == input.value
  {
    match input
    case Blank => 0.0
    case Num(v) => v
  }
}
