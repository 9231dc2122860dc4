/** The entities of the expense tracker: timestamps, transactions, users and the summary record. */
module Models {

  datatype Option<T> = None | Some(value: T)

  /** A UTC timestamp: the calendar date and the ticks elapsed since midnight.
      Timestamps are compared lexicographically, which is chronological order. */
  datatype DateTime = DateTime(year: int, month: int, day: int, ticks: int)

  /** `a <= b` on timestamps: `a` is not later than `b`. */
  predicate NotAfter(a: DateTime, b: DateTime)
  {
    || a.year < b.year
    || (a.year == b.year && a.month < b.month)
    || (a.year == b.year && a.month == b.month && a.day < b.day)
    || (a.year == b.year && a.month == b.month && a.day == b.day && a.ticks <= b.ticks)
  }

  /** `a > b` on timestamps. */
  predicate After(a: DateTime, b: DateTime)
  {
    !NotAfter(a, b)
  }

  /** NotAfter is a total order, so sorting by creation time is well defined. */
  lemma NotAfterIsTotalOrder(a: DateTime, b: DateTime, c: DateTime)
    ensures NotAfter(a, a)
    ensures NotAfter(a, b) || NotAfter(b, a)
    ensures NotAfter(a, b) && NotAfter(b, a) ==> a == b
    ensures NotAfter(a, b) && NotAfter(b, c) ==> NotAfter(a, c)
  {
  }

  /** The Type enum. Its two named members are Income (0) and Expense (1); an enum field holds
      any integer, and binding and storing a transaction accept other values too, which
      `Undefined(code)` carries. */
  datatype TransactionType = Income | Expense | Undefined(code: int)

  /** A stored transaction. `kind` is the transaction's Type; `amount` is the Amount as given,
      of either sign. */
  datatype Transaction = Transaction(
    id: string,
    userId: string,
    amount: int,
    description: string,
    kind: TransactionType,
    createdAt: DateTime,
    updatedAt: Option<DateTime>)

  /** A registered user. */
  datatype User = User(
    id: string,
    email: string,
    passwordHash: string,
    firstName: string,
    lastName: string,
    role: string,
    createdAt: DateTime,
    updatedAt: Option<DateTime>)

  /** The role every registered user gets. */
  const DefaultRole := "User"

  /** The per-user totals returned by the summary endpoint. */
  datatype TransactionSummary = TransactionSummary(totalIncome: int, totalExpenses: int, balance: int)
}
