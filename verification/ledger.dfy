/** The records the expense splitter stores and computes: expenses, the pairwise debts derived
    from them, group members, and the two kinds of balance summary. Amounts are exact reals;
    ids are strings; creation timestamps are not modelled. */
module Ledger {

  /** One recorded cost, paid by `paidBy` and shared equally by `splitAmong`. */
  datatype Expense = Expense(
    id: string,
    description: string,
    totalAmount: real,
    paidBy: string,
    splitAmong: seq<string>,
    perPersonAmount: real)

  /** A debt of `amount` owed by `from` to `to`, derived from the expense `expenseId`. */
  datatype Transaction = Transaction(from: string, to: string, amount: real, expenseId: string)

  /** A group member as the balance roster and the name lookup read it. */
  datatype Member = Member(uid: string, name: string, photoURL: string)

  /** One user's view: what they paid, their share, and the transaction-derived net. */
  datatype BalanceSummary = BalanceSummary(
    totalPaid: real,
    personalTripCost: real,
    youOwe: real,
    othersOweYou: real,
    netBalance: real)

  /** One roster line: what a member paid, their share, and the expense-derived net. */
  datatype UserBalance = UserBalance(
    userId: string,
    userName: string,
    userPhoto: string,
    totalPaid: real,
    totalOwed: real,
    netBalance: real)

  /** `amount` added up `n` times, i.e. `n * amount`; kept recursive so that sums of equal
      shares can be reasoned about without real multiplication. */
  function Multiple(n: nat, amount: real): (r: real)
  {
    if n == 0 then 0.0 else Multiple(n - 1, amount) + amount
  }

  lemma {:induction false} MultipleIsProduct(n: nat, amount: real)
    ensures Multiple(n, amount) == n as real * amount
  {
    if n > 0 {
      MultipleIsProduct(n - 1, amount);
    }
  }

  /** The plain total of a list of transaction amounts. */
  function SumOfAmounts(transactions: seq<Transaction>): real
  {
    if transactions == [] then 0.0 else transactions[0].amount + SumOfAmounts(transactions[1..])
  }
}
