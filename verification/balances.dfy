/** The balance calculator: a per-user summary whose net is derived from the transaction
    ledger, and a per-member roster whose net is derived from the expenses. Each sum is
    computed as the source writes it (filter, then a left-to-right reduce starting at 0) and
    is related to a reference sum defined element by element. */
module Balances {
  import opened Seqs
  import opened Ledger

  /** Which expenses a user-sum ranges over, and which amount of them it adds up. */
  datatype ExpenseRole =
    | Payer        // expenses the user paid for, adding `totalAmount`
    | Participant  // expenses the user shares in, adding `perPersonAmount`

  /** Which side of a debt a user-sum looks at. */
  datatype TransactionRole =
    | Debtor    // transactions `from` the user
    | Creditor  // transactions `to` the user

  predicate ExpenseMatches(e: Expense, role: ExpenseRole, userId: string) {
    match role
    case Payer => e.paidBy == userId
    case Participant => userId in e.splitAmong
  }

  function ExpenseValue(e: Expense, role: ExpenseRole): real {
    match role
    case Payer => e.totalAmount
    case Participant => e.perPersonAmount
  }

  predicate TransactionMatches(t: Transaction, role: TransactionRole, userId: string) {
    match role
    case Debtor => t.from == userId
    case Creditor => t.to == userId
  }

  /** Reference: the expense amount of `role` summed over the matching expenses. */
  function ExpenseTotal(expenses: seq<Expense>, role: ExpenseRole, userId: string): real
  {
    if expenses == [] then 0.0
    else
      (if ExpenseMatches(expenses[0], role, userId) then ExpenseValue(expenses[0], role) else 0.0)
      + ExpenseTotal(expenses[1..], role, userId)
  }

  /** Reference: transaction amounts summed over the transactions on the user's `role` side. */
  function TransactionTotal(transactions: seq<Transaction>, role: TransactionRole, userId: string): real
  {
    if transactions == [] then 0.0
    else
      (if TransactionMatches(transactions[0], role, userId) then transactions[0].amount else 0.0)
      + TransactionTotal(transactions[1..], role, userId)
  }

  /** `expenses.filter(...)`: the matching expenses, in their original order. */
  function FilterExpenses(expenses: seq<Expense>, role: ExpenseRole, userId: string): (r: seq<Expense>)
    ensures forall i :: 0 <= i < |r| ==> ExpenseMatches(r[i], role, userId)
    ensures forall i :: 0 <= i < |expenses| && ExpenseMatches(expenses[i], role, userId) ==> expenses[i] in r
    ensures IsSubsequence(r, expenses)
  {
    if expenses == [] then []
    else
      var rest := FilterExpenses(expenses[1..], role, userId);
      if ExpenseMatches(expenses[0], role, userId) then
        assert ([expenses[0]] + rest)[1..] == rest;
        [expenses[0]] + rest
      else rest
  }

  /** The filter keeps every matching expense as often as it occurs and drops the rest;
      with `IsSubsequence` this determines the result. */
  lemma {:induction false} FilterExpensesCounts(expenses: seq<Expense>, role: ExpenseRole, userId: string)
    ensures forall x :: multiset(FilterExpenses(expenses, role, userId))[x]
                        == if ExpenseMatches(x, role, userId) then multiset(expenses)[x] else 0
  {
    if expenses != [] {
      var e := expenses[0];
      var rest := FilterExpenses(expenses[1..], role, userId);
      FilterExpensesCounts(expenses[1..], role, userId);
      assert multiset(expenses) == multiset{e} + multiset(expenses[1..]) by {
        assert expenses == [e] + expenses[1..];
      }
      if ExpenseMatches(e, role, userId) {
        assert FilterExpenses(expenses, role, userId) == [e] + rest;
        assert multiset([e] + rest) == multiset{e} + multiset(rest);
      }
    }
  }

  /** `reduce((sum, exp) => sum + amount, acc)`: a left fold. */
  function ReduceExpenses(expenses: seq<Expense>, role: ExpenseRole, acc: real): real
  {
    if expenses == [] then acc else ReduceExpenses(expenses[1..], role, acc + ExpenseValue(expenses[0], role))
  }

  /** `transactions.filter(...)`: the matching transactions, in their original order. */
  function FilterTransactions(transactions: seq<Transaction>, role: TransactionRole, userId: string): (r: seq<Transaction>)
    ensures forall i :: 0 <= i < |r| ==> TransactionMatches(r[i], role, userId)
    ensures forall i :: 0 <= i < |transactions| && TransactionMatches(transactions[i], role, userId) ==> transactions[i] in r
    ensures IsSubsequence(r, transactions)
  {
    if transactions == [] then []
    else
      var rest := FilterTransactions(transactions[1..], role, userId);
      if TransactionMatches(transactions[0], role, userId) then
        assert ([transactions[0]] + rest)[1..] == rest;
        [transactions[0]] + rest
      else rest
  }

  /** The filter keeps every matching transaction as often as it occurs and drops the rest;
      with `IsSubsequence` this determines the result. */
  lemma {:induction false} FilterTransactionsCounts(transactions: seq<Transaction>, role: TransactionRole, userId: string)
    ensures forall x :: multiset(FilterTransactions(transactions, role, userId))[x]
                        == if TransactionMatches(x, role, userId) then multiset(transactions)[x] else 0
  {
    if transactions != [] {
      var t := transactions[0];
      var rest := FilterTransactions(transactions[1..], role, userId);
      FilterTransactionsCounts(transactions[1..], role, userId);
      assert multiset(transactions) == multiset{t} + multiset(transactions[1..]) by {
        assert transactions == [t] + transactions[1..];
      }
      if TransactionMatches(t, role, userId) {
        assert FilterTransactions(transactions, role, userId) == [t] + rest;
        assert multiset([t] + rest) == multiset{t} + multiset(rest);
      }
    }
  }

  /** `reduce((sum, txn) => sum + txn.amount, acc)`: a left fold. */
  function ReduceTransactions(transactions: seq<Transaction>, acc: real): real
  {
    if transactions == [] then acc else ReduceTransactions(transactions[1..], acc + transactions[0].amount)
  }

  /** Filtering and then folding from `acc` adds exactly the reference sum to `acc`. */
  lemma {:induction false} FilterReduceExpenses(expenses: seq<Expense>, role: ExpenseRole, userId: string, acc: real)
    ensures ReduceExpenses(FilterExpenses(expenses, role, userId), role, acc) == acc + ExpenseTotal(expenses, role, userId)
  {
    if expenses != [] {
      var e := expenses[0];
      var rest := FilterExpenses(expenses[1..], role, userId);
      if ExpenseMatches(e, role, userId) {
        assert FilterExpenses(expenses, role, userId) == [e] + rest;
        assert ([e] + rest)[1..] == rest;
        FilterReduceExpenses(expenses[1..], role, userId, acc + ExpenseValue(e, role));
      } else {
        FilterReduceExpenses(expenses[1..], role, userId, acc);
      }
    }
  }

  lemma {:induction false} FilterReduceTransactions(transactions: seq<Transaction>, role: TransactionRole, userId: string, acc: real)
    ensures ReduceTransactions(FilterTransactions(transactions, role, userId), acc) == acc + TransactionTotal(transactions, role, userId)
  {
    if transactions != [] {
      var t := transactions[0];
      var rest := FilterTransactions(transactions[1..], role, userId);
      if TransactionMatches(t, role, userId) {
        assert FilterTransactions(transactions, role, userId) == [t] + rest;
        assert ([t] + rest)[1..] == rest;
        FilterReduceTransactions(transactions[1..], role, userId, acc + t.amount);
      } else {
        FilterReduceTransactions(transactions[1..], role, userId, acc);
      }
    }
  }

  /** `calculateUserBalance`: the four sums over exactly the matching records, and a net
      that is transaction-derived, so it depends on the transactions alone. */
  function CalculateUserBalance(userId: string, expenses: seq<Expense>, transactions: seq<Transaction>): (b: BalanceSummary)
    ensures b.totalPaid == ExpenseTotal(expenses, Payer, userId)
    ensures b.personalTripCost == ExpenseTotal(expenses, Participant, userId)
    ensures b.youOwe == TransactionTotal(transactions, Debtor, userId)
    ensures b.othersOweYou == TransactionTotal(transactions, Creditor, userId)
    ensures b.netBalance == TransactionTotal(transactions, Creditor, userId) - TransactionTotal(transactions, Debtor, userId)
  {
    FilterReduceExpenses(expenses, Payer, userId, 0.0);
    FilterReduceExpenses(expenses, Participant, userId, 0.0);
    FilterReduceTransactions(transactions, Debtor, userId, 0.0);
    FilterReduceTransactions(transactions, Creditor, userId, 0.0);
    var totalPaid := ReduceExpenses(FilterExpenses(expenses, Payer, userId), Payer, 0.0);
    var personalTripCost := ReduceExpenses(FilterExpenses(expenses, Participant, userId), Participant, 0.0);
    var youOwe := ReduceTransactions(FilterTransactions(transactions, Debtor, userId), 0.0);
    var othersOweYou := ReduceTransactions(FilterTransactions(transactions, Creditor, userId), 0.0);
    BalanceSummary(totalPaid, personalTripCost, youOwe, othersOweYou, othersOweYou - youOwe)
  }

  /** The callback `calculateGroupBalances` maps over the members: the member's identity,
      what they paid for, their share, and the expense-derived net. */
  function MemberBalance(member: Member, expenses: seq<Expense>): (b: UserBalance)
    ensures b.userId == member.uid && b.userName == member.name && b.userPhoto == member.photoURL
    ensures b.totalPaid == ExpenseTotal(expenses, Payer, member.uid)
    ensures b.totalOwed == ExpenseTotal(expenses, Participant, member.uid)
    ensures b.netBalance == b.totalPaid - b.totalOwed
  {
    FilterReduceExpenses(expenses, Payer, member.uid, 0.0);
    FilterReduceExpenses(expenses, Participant, member.uid, 0.0);
    var totalPaid := ReduceExpenses(FilterExpenses(expenses, Payer, member.uid), Payer, 0.0);
    var totalOwed := ReduceExpenses(FilterExpenses(expenses, Participant, member.uid), Participant, 0.0);
    UserBalance(member.uid, member.name, member.photoURL, totalPaid, totalOwed, totalPaid - totalOwed)
  }

  /** `calculateGroupBalances`: one line per member, in member order, whose paid and owed
      figures are the single-user summary's and whose net is expense-derived. */
  function CalculateGroupBalances(members: seq<Member>, expenses: seq<Expense>, transactions: seq<Transaction>): (r: seq<UserBalance>)
    ensures |r| == |members|
    ensures forall i :: 0 <= i < |members| ==>
      && r[i].userId == members[i].uid
      && r[i].userName == members[i].name
      && r[i].userPhoto == members[i].photoURL
      && r[i].totalPaid == CalculateUserBalance(members[i].uid, expenses, transactions).totalPaid
      && r[i].totalOwed == CalculateUserBalance(members[i].uid, expenses, transactions).personalTripCost
      && r[i].netBalance == r[i].totalPaid - r[i].totalOwed
  {
    if members == [] then []
    else
      [MemberBalance(members[0], expenses)] + CalculateGroupBalances(members[1..], expenses, transactions)
  }

  /** Every reference sum over a concatenation splits into the sums over the parts. */
  lemma {:induction false} ExpenseTotalAppend(a: seq<Expense>, b: seq<Expense>, role: ExpenseRole, userId: string)
    ensures ExpenseTotal(a + b, role, userId) == ExpenseTotal(a, role, userId) + ExpenseTotal(b, role, userId)
  {
    if a != [] {
      assert (a + b)[1..] == a[1..] + b;
      ExpenseTotalAppend(a[1..], b, role, userId);
    } else {
      assert a + b == b;
    }
  }

  lemma {:induction false} TransactionTotalAppend(a: seq<Transaction>, b: seq<Transaction>, role: TransactionRole, userId: string)
    ensures TransactionTotal(a + b, role, userId) == TransactionTotal(a, role, userId) + TransactionTotal(b, role, userId)
  {
    if a != [] {
      assert (a + b)[1..] == a[1..] + b;
      TransactionTotalAppend(a[1..], b, role, userId);
    } else {
      assert a + b == b;
    }
  }

  /** The ledger's order does not matter: any reordering gives the same sums. */
  lemma {:induction false} TransactionTotalPermutation(a: seq<Transaction>, b: seq<Transaction>, role: TransactionRole, userId: string)
    requires multiset(a) == multiset(b)
    ensures TransactionTotal(a, role, userId) == TransactionTotal(b, role, userId)
    decreases |a|
  {
    if a == [] {
      assert |b| == |multiset(b)| == 0;
    } else {
      var x := a[0];
      assert x in multiset(b);
      var j :| 0 <= j < |b| && b[j] == x;
      assert a == [x] + a[1..];
      assert multiset(a[1..]) == multiset(a) - multiset{x};
      MultisetRemoveAt(b, j);
      TransactionTotalRemoveAt(b, j, role, userId);
      TransactionTotalPermutation(a[1..], b[..j] + b[j + 1..], role, userId);
    }
  }

  lemma MultisetRemoveAt<T>(s: seq<T>, j: nat)
    requires j < |s|
    ensures multiset(s[..j] + s[j + 1..]) == multiset(s) - multiset{s[j]}
  {
    assert s == s[..j] + [s[j]] + s[j + 1..];
  }

  lemma TransactionTotalRemoveAt(s: seq<Transaction>, j: nat, role: TransactionRole, userId: string)
    requires j < |s|
    ensures TransactionTotal(s, role, userId)
         == TransactionTotal([s[j]], role, userId) + TransactionTotal(s[..j] + s[j + 1..], role, userId)
  {
    assert s == s[..j] + ([s[j]] + s[j + 1..]);
    TransactionTotalAppend(s[..j], [s[j]] + s[j + 1..], role, userId);
    TransactionTotalAppend([s[j]], s[j + 1..], role, userId);
    TransactionTotalAppend(s[..j], s[j + 1..], role, userId);
  }

  /** Transactions that involve the user on neither side change nothing in their summary. */
  lemma UnrelatedTransactionsIgnored(userId: string, expenses: seq<Expense>, transactions: seq<Transaction>, extra: seq<Transaction>)
    requires forall i :: 0 <= i < |extra| ==> extra[i].from != userId && extra[i].to != userId
    ensures CalculateUserBalance(userId, expenses, transactions + extra) == CalculateUserBalance(userId, expenses, transactions)
  {
    UnrelatedTotalIsZero(extra, Debtor, userId);
    UnrelatedTotalIsZero(extra, Creditor, userId);
    TransactionTotalAppend(transactions, extra, Debtor, userId);
    TransactionTotalAppend(transactions, extra, Creditor, userId);
  }

  lemma {:induction false} UnrelatedTotalIsZero(transactions: seq<Transaction>, role: TransactionRole, userId: string)
    requires forall i :: 0 <= i < |transactions| ==> transactions[i].from != userId && transactions[i].to != userId
    ensures TransactionTotal(transactions, role, userId) == 0.0
  {
    if transactions != [] {
      UnrelatedTotalIsZero(transactions[1..], role, userId);
    }
  }

  /** The roster never reads the transactions it is handed. */
  lemma {:induction false} GroupBalancesIgnoreTransactions(members: seq<Member>, expenses: seq<Expense>, t1: seq<Transaction>, t2: seq<Transaction>)
    ensures CalculateGroupBalances(members, expenses, t1) == CalculateGroupBalances(members, expenses, t2)
  {
    if members != [] {
      GroupBalancesIgnoreTransactions(members[1..], expenses, t1, t2);
    }
  }

  /** With no history every figure of the summary is zero. */
  lemma EmptyHistoryIsZero(userId: string)
    ensures CalculateUserBalance(userId, [], []) == BalanceSummary(0.0, 0.0, 0.0, 0.0, 0.0)
  {
  }
}
