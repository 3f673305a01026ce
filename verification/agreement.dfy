/** Where the two net-balance formulas meet. The per-user summary nets the transaction
    ledger; the roster nets paid against shared expenses. They agree for every user when the
    ledger holds exactly the debts the expense form derives, from expenses whose shares add
    back up to their totals and whose participants are listed once each. */
module Agreement {
  import opened Wrappers
  import opened Seqs
  import opened Ledger
  import opened Balances
  import opened ExpenseForm

  /** An expense as the form records it from a selection it can reach. */
  predicate SoundExpense(e: Expense) {
    && e.splitAmong != []
    && NoDuplicates(e.splitAmong)
    && Multiple(|e.splitAmong|, e.perPersonAmount) == e.totalAmount
  }

  /** All debts derived from the expenses, expense by expense. */
  function DerivedLedger(expenses: seq<Expense>): seq<Transaction>
  {
    if expenses == [] then [] else ExpenseTransactions(expenses[0]) + DerivedLedger(expenses[1..])
  }

  /** The stored transactions are the derived debts, in any order, of sound expenses. */
  predicate ConsistentLedger(expenses: seq<Expense>, transactions: seq<Transaction>) {
    && (forall i :: 0 <= i < |expenses| ==> SoundExpense(expenses[i]))
    && multiset(transactions) == multiset(DerivedLedger(expenses))
  }

  /** n equal shares of total / n add back up to the total. */
  lemma SharesAddUp(total: real, n: nat)
    requires n > 0
    ensures Multiple(n, total / (n as real)) == total
  {
    MultipleIsProduct(n, total / (n as real));
  }

  lemma {:induction false} MultipleSplit(a: nat, b: nat, amount: real)
    ensures Multiple(a + b, amount) == Multiple(a, amount) + Multiple(b, amount)
  {
    if b > 0 {
      MultipleSplit(a, b - 1, amount);
    }
  }

  /** What the payer is owed through one expense's debts: a share from every other participant. */
  lemma {:induction false} DerivedCreditorTotal(splitAmong: seq<string>, paidBy: string, share: real, expenseId: string, userId: string)
    ensures TransactionTotal(DeriveTransactions(splitAmong, paidBy, share, expenseId), Creditor, userId)
         == if userId == paidBy then Multiple(|splitAmong| - multiset(splitAmong)[paidBy], share) else 0.0
  {
    if splitAmong != [] {
      var head := splitAmong[0];
      var rest := DeriveTransactions(splitAmong[1..], paidBy, share, expenseId);
      var restTotal := TransactionTotal(rest, Creditor, userId);
      DerivedCreditorTotal(splitAmong[1..], paidBy, share, expenseId, userId);
      var k := |splitAmong[1..]| - multiset(splitAmong[1..])[paidBy];
      assert multiset(splitAmong)[paidBy] == (if head == paidBy then 1 else 0) + multiset(splitAmong[1..])[paidBy] by {
        assert splitAmong == [head] + splitAmong[1..];
      }
      var total := TransactionTotal(DeriveTransactions(splitAmong, paidBy, share, expenseId), Creditor, userId);
      if head != paidBy {
        var t := Transaction(head, paidBy, share, expenseId);
        assert DeriveTransactions(splitAmong, paidBy, share, expenseId) == [t] + rest;
        assert ([t] + rest)[1..] == rest;
        assert total == (if paidBy == userId then share else 0.0) + restTotal;
        assert |splitAmong| - multiset(splitAmong)[paidBy] == k + 1;
        assert Multiple(k + 1, share) == Multiple(k, share) + share;
      } else {
        assert total == restTotal;
        assert |splitAmong| - multiset(splitAmong)[paidBy] == k;
      }
    }
  }

  /** What a participant owes through one expense's debts: a share per listing, unless payer. */
  lemma {:induction false} DerivedDebtorTotal(splitAmong: seq<string>, paidBy: string, share: real, expenseId: string, userId: string)
    ensures TransactionTotal(DeriveTransactions(splitAmong, paidBy, share, expenseId), Debtor, userId)
         == if userId == paidBy then 0.0 else Multiple(multiset(splitAmong)[userId], share)
  {
    if splitAmong != [] {
      var head := splitAmong[0];
      var rest := DeriveTransactions(splitAmong[1..], paidBy, share, expenseId);
      var restTotal := TransactionTotal(rest, Debtor, userId);
      DerivedDebtorTotal(splitAmong[1..], paidBy, share, expenseId, userId);
      var m := multiset(splitAmong[1..])[userId];
      assert multiset(splitAmong)[userId] == (if head == userId then 1 else 0) + m by {
        assert splitAmong == [head] + splitAmong[1..];
      }
      var total := TransactionTotal(DeriveTransactions(splitAmong, paidBy, share, expenseId), Debtor, userId);
      if head != paidBy {
        var t := Transaction(head, paidBy, share, expenseId);
        assert DeriveTransactions(splitAmong, paidBy, share, expenseId) == [t] + rest;
        assert ([t] + rest)[1..] == rest;
        assert total == (if head == userId then share else 0.0) + restTotal;
        if head == userId {
          assert Multiple(m + 1, share) == Multiple(m, share) + share;
        }
      } else {
        assert total == restTotal;
      }
    }
  }

  /** For one sound expense, the user's net through its debts is what they paid for it
      minus their share of it. */
  lemma ExpenseNet(e: Expense, userId: string)
    requires SoundExpense(e)
    ensures TransactionTotal(ExpenseTransactions(e), Creditor, userId) - TransactionTotal(ExpenseTransactions(e), Debtor, userId)
         == (if e.paidBy == userId then e.totalAmount else 0.0)
            - (if userId in e.splitAmong then e.perPersonAmount else 0.0)
  {
    var s := e.splitAmong;
    DerivedCreditorTotal(s, e.paidBy, e.perPersonAmount, e.id, userId);
    DerivedDebtorTotal(s, e.paidBy, e.perPersonAmount, e.id, userId);
    NoDuplicatesOccurrences(s, userId);
    NoDuplicatesOccurrences(s, e.paidBy);
    var c := multiset(s)[e.paidBy];
    MultipleSplit(|s| - c, c, e.perPersonAmount);
    assert Multiple(1, e.perPersonAmount) == e.perPersonAmount;
  }

  /** Over the whole derived ledger, the transaction-derived net equals the expense-derived net. */
  lemma {:induction false} DerivedLedgerNet(expenses: seq<Expense>, userId: string)
    requires forall i :: 0 <= i < |expenses| ==> SoundExpense(expenses[i])
    ensures TransactionTotal(DerivedLedger(expenses), Creditor, userId) - TransactionTotal(DerivedLedger(expenses), Debtor, userId)
         == ExpenseTotal(expenses, Payer, userId) - ExpenseTotal(expenses, Participant, userId)
  {
    if expenses != [] {
      var e := expenses[0];
      DerivedLedgerNet(expenses[1..], userId);
      ExpenseNet(e, userId);
      TransactionTotalAppend(ExpenseTransactions(e), DerivedLedger(expenses[1..]), Creditor, userId);
      TransactionTotalAppend(ExpenseTransactions(e), DerivedLedger(expenses[1..]), Debtor, userId);
    }
  }

  /** The per-user net (othersOweYou - youOwe) equals totalPaid - personalTripCost on a
      consistent ledger. */
  lemma NetBalancesAgree(userId: string, expenses: seq<Expense>, transactions: seq<Transaction>)
    requires ConsistentLedger(expenses, transactions)
    ensures CalculateUserBalance(userId, expenses, transactions).netBalance
         == CalculateUserBalance(userId, expenses, transactions).totalPaid
            - CalculateUserBalance(userId, expenses, transactions).personalTripCost
  {
    TransactionTotalPermutation(transactions, DerivedLedger(expenses), Creditor, userId);
    TransactionTotalPermutation(transactions, DerivedLedger(expenses), Debtor, userId);
    DerivedLedgerNet(expenses, userId);
  }

  /** So on a consistent ledger every roster line shows the same net as that member's summary. */
  lemma RosterAgreesWithSummary(members: seq<Member>, expenses: seq<Expense>, transactions: seq<Transaction>)
    requires ConsistentLedger(expenses, transactions)
    ensures forall i :: 0 <= i < |members| ==>
      CalculateGroupBalances(members, expenses, transactions)[i].netBalance
      == CalculateUserBalance(members[i].uid, expenses, transactions).netBalance
  {
    forall i | 0 <= i < |members|
      ensures CalculateGroupBalances(members, expenses, transactions)[i].netBalance
              == CalculateUserBalance(members[i].uid, expenses, transactions).netBalance
    {
      NetBalancesAgree(members[i].uid, expenses, transactions);
    }
  }

  /** A successful submission from a duplicate-free selection records a sound expense. */
  lemma SubmissionIsSound(description: string, amount: Option<real>, paidBy: string, splitAmong: seq<string>, expenseId: string)
    requires NoDuplicates(splitAmong)
    requires SubmitExpense(description, amount, paidBy, splitAmong, expenseId).Success?
    ensures SoundExpense(SubmitExpense(description, amount, paidBy, splitAmong, expenseId).value.expense)
  {
    SharesAddUp(amount.value, |splitAmong|);
  }

  /** Recording a submission (newest first, as the store lists them) keeps the ledger consistent. */
  lemma {:induction false} RecordingKeepsLedgerConsistent(
    expenses: seq<Expense>, transactions: seq<Transaction>,
    description: string, amount: Option<real>, paidBy: string, splitAmong: seq<string>, expenseId: string)
    requires ConsistentLedger(expenses, transactions)
    requires NoDuplicates(splitAmong)
    requires SubmitExpense(description, amount, paidBy, splitAmong, expenseId).Success?
    ensures ConsistentLedger(
      [SubmitExpense(description, amount, paidBy, splitAmong, expenseId).value.expense] + expenses,
      SubmitExpense(description, amount, paidBy, splitAmong, expenseId).value.transactions + transactions)
  {
    var rec := SubmitExpense(description, amount, paidBy, splitAmong, expenseId).value;
    SubmissionIsSound(description, amount, paidBy, splitAmong, expenseId);
    var all := [rec.expense] + expenses;
    assert all[1..] == expenses;
    assert DerivedLedger(all) == rec.transactions + DerivedLedger(expenses);
    forall i | 0 <= i < |all| ensures SoundExpense(all[i]) {
      if i > 0 {
        assert all[i] == expenses[i - 1];
      }
    }
  }

  /** With a participant listed twice the formulas part: one expense of 100 paid by A and
      split among [B, B] puts B at -100 in the summary but -50 in the roster. */
  lemma DuplicateParticipantBreaksAgreement()
    ensures var e := Expense("e1", "Taxi", 100.0, "A", ["B", "B"], 50.0);
      && CalculateUserBalance("B", [e], ExpenseTransactions(e)).netBalance == -100.0
      && CalculateGroupBalances([Member("B", "", "")], [e], ExpenseTransactions(e))[0].netBalance == -50.0
  {
    var e := Expense("e1", "Taxi", 100.0, "A", ["B", "B"], 50.0);
    var t := Transaction("B", "A", 50.0, "e1");
    assert "B" != "A";
    assert DeriveTransactions(["B"], "A", 50.0, "e1") == [t];
    assert ExpenseTransactions(e) == [t, t];
    assert TransactionTotal([t, t], Debtor, "B") == 100.0;
    assert TransactionTotal([t, t], Creditor, "B") == 0.0;
    assert ExpenseTotal([e], Payer, "B") == 0.0;
    assert ExpenseTotal([e], Participant, "B") == 50.0;
  }

  /** A worked example: A pays 300 for a dinner shared by A, B and C, then B pays 50 for
      a taxi shared by B and C. */
  const Dinner := Expense("e1", "Dinner", 300.0, "A", ["A", "B", "C"], 100.0)
  const Taxi := Expense("e2", "Taxi", 50.0, "B", ["B", "C"], 25.0)

  /** The dinner leaves B and C each owing A a share; the taxi leaves C owing B. */
  lemma ScenarioTransactions()
    ensures ExpenseTransactions(Dinner) == [Transaction("B", "A", 100.0, "e1"), Transaction("C", "A", 100.0, "e1")]
    ensures ExpenseTransactions(Taxi) == [Transaction("C", "B", 25.0, "e2")]
  {
    var tb := Transaction("B", "A", 100.0, "e1");
    var tc := Transaction("C", "A", 100.0, "e1");
    assert "A" != "B" && "A" != "C" && "B" != "C";
    assert ["A", "B", "C"][1..] == ["B", "C"] && ["B", "C"][1..] == ["C"];
    assert DeriveTransactions(["C"], "A", 100.0, "e1") == [tc];
    assert DeriveTransactions(["B", "C"], "A", 100.0, "e1") == [tb, tc];
    assert DeriveTransactions(["C"], "B", 25.0, "e2") == [Transaction("C", "B", 25.0, "e2")];
  }

  /** What each person paid for and shares in, after the dinner and after both. */
  lemma ScenarioExpenseTotals()
    ensures ExpenseTotal([Dinner], Payer, "A") == 300.0 && ExpenseTotal([Dinner], Participant, "A") == 100.0
    ensures ExpenseTotal([Dinner], Payer, "B") == 0.0 && ExpenseTotal([Dinner], Participant, "B") == 100.0
    ensures ExpenseTotal([Dinner, Taxi], Payer, "A") == 300.0 && ExpenseTotal([Dinner, Taxi], Participant, "A") == 100.0
    ensures ExpenseTotal([Dinner, Taxi], Payer, "B") == 50.0 && ExpenseTotal([Dinner, Taxi], Participant, "B") == 125.0
    ensures ExpenseTotal([Dinner, Taxi], Payer, "C") == 0.0 && ExpenseTotal([Dinner, Taxi], Participant, "C") == 125.0
  {
    assert "A" != "B" && "A" != "C" && "B" != "C";
    assert [Dinner, Taxi][1..] == [Taxi] && [Taxi][1..] == [] && [Dinner][1..] == [];
    assert Dinner.splitAmong[0] == "A" && Dinner.splitAmong[1] == "B" && Dinner.splitAmong[2] == "C";
    assert Taxi.splitAmong[0] == "B" && Taxi.splitAmong[1] == "C" && "A" !in Taxi.splitAmong;
    assert "C" in Dinner.splitAmong && "C" in Taxi.splitAmong;
    assert ExpenseTotal([Taxi], Payer, "C") == 0.0 && ExpenseTotal([Taxi], Participant, "C") == 25.0;
  }

  /** After the dinner alone, A's summary nets +200 and B's -100. */
  lemma ScenarioSummaries()
    ensures CalculateUserBalance("A", [Dinner], ExpenseTransactions(Dinner)) == BalanceSummary(300.0, 100.0, 0.0, 200.0, 200.0)
    ensures CalculateUserBalance("B", [Dinner], ExpenseTransactions(Dinner)) == BalanceSummary(0.0, 100.0, 100.0, 0.0, -100.0)
  {
    ScenarioTransactions();
    ScenarioExpenseTotals();
    var tb := Transaction("B", "A", 100.0, "e1");
    var tc := Transaction("C", "A", 100.0, "e1");
    var txs := [tb, tc];
    assert "A" != "B" && "A" != "C" && "B" != "C";
    assert txs[1..] == [tc] && [tc][1..] == [];
    assert TransactionTotal(txs, Debtor, "A") == 0.0 && TransactionTotal(txs, Creditor, "A") == 200.0;
    assert TransactionTotal(txs, Debtor, "B") == 100.0 && TransactionTotal(txs, Creditor, "B") == 0.0;
  }

  /** After both, the roster reads A +200, B -75 and C -125. */
  lemma ScenarioRoster()
    ensures CalculateGroupBalances([Member("A", "", ""), Member("B", "", ""), Member("C", "", "")],
                                   [Dinner, Taxi], ExpenseTransactions(Dinner) + ExpenseTransactions(Taxi))
         == [UserBalance("A", "", "", 300.0, 100.0, 200.0),
             UserBalance("B", "", "", 50.0, 125.0, -75.0),
             UserBalance("C", "", "", 0.0, 125.0, -125.0)]
  {
    ScenarioExpenseTotals();
    var members := [Member("A", "", ""), Member("B", "", ""), Member("C", "", "")];
    var r := CalculateGroupBalances(members, [Dinner, Taxi], ExpenseTransactions(Dinner) + ExpenseTransactions(Taxi));
    assert r[0] == UserBalance("A", "", "", 300.0, 100.0, 200.0);
    assert r[1] == UserBalance("B", "", "", 50.0, 125.0, -75.0);
    assert r[2] == UserBalance("C", "", "", 0.0, 125.0, -125.0);
  }
}
