/** The add-expense form with its UI and store writes stripped off: the participant toggle,
    submission validation, the equal split, and the derivation of one debt per non-paying
    participant. */
module ExpenseForm {
  import opened Wrappers
  import opened Seqs
  import opened Text
  import opened Ledger

  // ---------------------------------------------------------------------------------------
  // Participant selection

  /** `handleToggleMember`: an absent member is appended; a present one is removed unless it
      is the only one selected. A duplicate-free selection stays duplicate-free and, when
      non-empty, never becomes empty. */
  function ToggleMember(selected: seq<string>, memberId: string): (r: seq<string>)
    ensures memberId !in selected ==> r == selected + [memberId]
    ensures memberId in selected && |selected| > 1 ==>
      && memberId !in r
      && IsSubsequence(r, selected)
      && (forall x :: x != memberId ==> multiset(r)[x] == multiset(selected)[x])
    ensures memberId in selected && |selected| <= 1 ==> r == selected
    ensures NoDuplicates(selected) ==> NoDuplicates(r)
    ensures NoDuplicates(selected) && selected != [] ==> r != []
  {
    if memberId in selected then
      if |selected| > 1 then
        WithoutKeepsNoDuplicates(selected, memberId);
        OtherMemberSurvives(selected, memberId);
        Without(selected, memberId)
      else selected
    else
      assert NoDuplicates(selected) ==> NoDuplicates(selected + [memberId]);
      selected + [memberId]
  }

  /** In a duplicate-free selection of two or more, removing one member leaves another. */
  lemma {:induction false} OtherMemberSurvives(selected: seq<string>, memberId: string)
    requires |selected| > 1
    ensures NoDuplicates(selected) ==> Without(selected, memberId) != []
  {
    if NoDuplicates(selected) {
      var other := if selected[0] != memberId then selected[0] else selected[1];
      assert other != memberId;
      assert multiset(Without(selected, memberId))[other] == multiset(selected)[other] > 0;
    }
  }

  /** The selection after a series of clicks. */
  function ApplyToggles(selected: seq<string>, clicks: seq<string>): (r: seq<string>)
    ensures NoDuplicates(selected) && selected != [] ==> NoDuplicates(r) && r != []
    decreases |clicks|
  {
    if clicks == [] then selected else ApplyToggles(ToggleMember(selected, clicks[0]), clicks[1..])
  }

  /** The form starts (and is reset) with the current user alone selected, so every
      selection it can reach is non-empty and duplicate-free. */
  lemma ReachableSelectionIsValid(currentUserId: string, clicks: seq<string>)
    ensures ApplyToggles([currentUserId], clicks) != []
    ensures NoDuplicates(ApplyToggles([currentUserId], clicks))
  {
  }

  /** Toggling an absent member twice restores a non-empty selection exactly. */
  lemma {:induction false} ToggleTwiceRestores(selected: seq<string>, memberId: string)
    requires selected != [] && memberId !in selected
    ensures ToggleMember(ToggleMember(selected, memberId), memberId) == selected
  {
    var added := selected + [memberId];
    assert memberId in added;
    assert multiset(Without(added, memberId)) == multiset(selected);
    SubsequenceOfSameSize(Without(added, memberId), selected, memberId);
  }

  /** A subsequence of `s + [x]` that avoids `x` and has `|s|` elements is `s` itself. */
  lemma SubsequenceOfSameSize(a: seq<string>, s: seq<string>, x: string)
    requires IsSubsequence(a, s + [x]) && |a| == |s| && x !in a
    ensures a == s
  {
    SubsequenceDropsLast(a, s, x);
    SubsequenceSameLength(a, s);
  }

  lemma {:induction false} SubsequenceDropsLast(a: seq<string>, s: seq<string>, x: string)
    requires IsSubsequence(a, s + [x]) && x !in a
    ensures IsSubsequence(a, s)
    decreases |s|
  {
    if a != [] && s != [] {
      assert (s + [x])[0] == s[0] && (s + [x])[1..] == s[1..] + [x];
      if a[0] == s[0] && IsSubsequence(a[1..], s[1..] + [x]) {
        SubsequenceDropsLast(a[1..], s[1..], x);
      } else {
        SubsequenceDropsLast(a, s[1..], x);
      }
    }
  }

  lemma {:induction false} SubsequenceSameLength(a: seq<string>, b: seq<string>)
    requires IsSubsequence(a, b) && |a| == |b|
    ensures a == b
    decreases |b|
  {
    if a != [] {
      SubsequenceLength(a, b[1..]);
      if a[0] == b[0] && IsSubsequence(a[1..], b[1..]) {
        SubsequenceSameLength(a[1..], b[1..]);
      }
    }
  }

  lemma {:induction false} SubsequenceLength(a: seq<string>, b: seq<string>)
    ensures IsSubsequence(a, b) ==> |a| <= |b|
    decreases |b|
  {
    if a != [] && b != [] {
      SubsequenceLength(a[1..], b[1..]);
      SubsequenceLength(a, b[1..]);
    }
  }

  /** Toggling a present member of a duplicate-free selection of two or more twice moves
      it to the end: the same members, possibly in a new order. */
  lemma {:induction false} ToggleTwiceReorders(selected: seq<string>, memberId: string)
    requires NoDuplicates(selected) && memberId in selected && |selected| > 1
    ensures ToggleMember(ToggleMember(selected, memberId), memberId) == Without(selected, memberId) + [memberId]
    ensures multiset(ToggleMember(ToggleMember(selected, memberId), memberId)) == multiset(selected)
  {
    var removed := Without(selected, memberId);
    assert ToggleMember(selected, memberId) == removed;
    assert memberId !in removed;
    NoDuplicatesOccurrences(selected, memberId);
    assert multiset(removed + [memberId]) == multiset(selected);
  }

  // ---------------------------------------------------------------------------------------
  // Submission

  /** The three messages `handleSubmit` shows instead of recording. */
  datatype SubmitError =
    | MissingDescription  // "Please enter a description"
    | InvalidAmount       // "Please enter a valid amount"
    | NoParticipants      // "Please select at least one person to split with"

  /** What a successful submission writes: the expense and its derived debts. */
  datatype Recording = Recording(expense: Expense, transactions: seq<Transaction>)

  /** `amount / splitAmong.length`: the equal share, which times the head count gives back
      the amount; a positive amount gives a positive share no larger than the amount. */
  function PerPersonAmount(amount: real, splitAmong: seq<string>): (share: real)
    requires splitAmong != []
    ensures share * (|splitAmong| as real) == amount
    ensures amount > 0.0 ==> 0.0 < share <= amount
  {
    var n := |splitAmong| as real;
    assert n >= 1.0;
    amount / n
  }

  /** The debtor of each transaction, in order. */
  function Debtors(txs: seq<Transaction>): (r: seq<string>)
    ensures |r| == |txs|
    ensures forall i :: 0 <= i < |txs| ==> r[i] == txs[i].from
  {
    if txs == [] then [] else [txs[0].from] + Debtors(txs[1..])
  }

  /** The batch of debts: one per participant other than the payer, in `splitAmong` order,
      each from that participant to the payer for the share, tagged with the expense id. */
  function DeriveTransactions(splitAmong: seq<string>, paidBy: string, share: real, expenseId: string): (txs: seq<Transaction>)
    ensures |txs| == |splitAmong| - multiset(splitAmong)[paidBy]
    ensures forall i :: 0 <= i < |txs| ==>
      txs[i].from != paidBy && txs[i].to == paidBy && txs[i].amount == share && txs[i].expenseId == expenseId
  {
    if splitAmong == [] then []
    else
      var rest := DeriveTransactions(splitAmong[1..], paidBy, share, expenseId);
      assert multiset(splitAmong) == multiset{splitAmong[0]} + multiset(splitAmong[1..]) by {
        assert splitAmong == [splitAmong[0]] + splitAmong[1..];
      }
      if splitAmong[0] != paidBy then
        var txs := [Transaction(splitAmong[0], paidBy, share, expenseId)] + rest;
        assert txs[1..] == rest;
        txs
      else
        rest
  }

  /** The debtors of the derived debts are the participants other than the payer, in
      `splitAmong` order. */
  lemma {:induction false} DerivedDebtorsInOrder(splitAmong: seq<string>, paidBy: string, share: real, expenseId: string)
    ensures Debtors(DeriveTransactions(splitAmong, paidBy, share, expenseId)) == Without(splitAmong, paidBy)
  {
    if splitAmong != [] {
      DerivedDebtorsInOrder(splitAmong[1..], paidBy, share, expenseId);
      var rest := DeriveTransactions(splitAmong[1..], paidBy, share, expenseId);
      if splitAmong[0] != paidBy {
        var t := Transaction(splitAmong[0], paidBy, share, expenseId);
        assert DeriveTransactions(splitAmong, paidBy, share, expenseId) == [t] + rest;
        assert ([t] + rest)[1..] == rest;
        assert Without(splitAmong, paidBy) == [splitAmong[0]] + Without(splitAmong[1..], paidBy);
      }
    }
  }

  /** The debts derived from a stored expense. */
  function ExpenseTransactions(e: Expense): seq<Transaction>
  {
    DeriveTransactions(e.splitAmong, e.paidBy, e.perPersonAmount, e.id)
  }

  /** Transactions that all carry the same amount sum to their count times it. */
  lemma {:induction false} UniformAmountsSum(txs: seq<Transaction>, amount: real)
    requires forall i :: 0 <= i < |txs| ==> txs[i].amount == amount
    ensures SumOfAmounts(txs) == Multiple(|txs|, amount)
  {
    if txs != [] {
      UniformAmountsSum(txs[1..], amount);
    }
  }

  /** The derived debts add up to the share times the number of non-paying participants. */
  lemma {:induction false} DerivedAmountsSum(splitAmong: seq<string>, paidBy: string, share: real, expenseId: string)
    ensures SumOfAmounts(DeriveTransactions(splitAmong, paidBy, share, expenseId))
         == Multiple(|splitAmong| - multiset(splitAmong)[paidBy], share)
  {
    UniformAmountsSum(DeriveTransactions(splitAmong, paidBy, share, expenseId), share);
  }

  /** The same total as a product: the number of debts times the share. */
  lemma {:induction false} DerivedAmountsProduct(splitAmong: seq<string>, paidBy: string, share: real, expenseId: string)
    ensures SumOfAmounts(DeriveTransactions(splitAmong, paidBy, share, expenseId))
         == ((|splitAmong| - multiset(splitAmong)[paidBy]) as real) * share
  {
    var txs := DeriveTransactions(splitAmong, paidBy, share, expenseId);
    var count := |splitAmong| - multiset(splitAmong)[paidBy];
    DerivedAmountsSum(splitAmong, paidBy, share, expenseId);
    RepeatedSumIsProduct(SumOfAmounts(txs), count, share);
  }

  /** A total made of `count` equal shares is `count` times the share. */
  lemma RepeatedSumIsProduct(total: real, count: nat, share: real)
    requires total == Multiple(count, share)
    ensures total == (count as real) * share
  {
    MultipleIsProduct(count, share);
  }

  /** `handleSubmit`: refuses, with the first failing check's message, a description that
      trims to nothing, an amount that is missing or not positive, or an empty selection;
      otherwise stores the trimmed description and the equal share, and derives the debts. */
  function SubmitExpense(description: string, amount: Option<real>, paidBy: string, splitAmong: seq<string>, expenseId: string): (r: Result<Recording, SubmitError>)
    ensures r.Success? <==> Trim(description) != [] && amount.Some? && amount.value > 0.0 && splitAmong != []
    ensures Trim(description) == [] ==> r == Failure(MissingDescription)
    ensures Trim(description) != [] && (amount.None? || amount.value <= 0.0) ==> r == Failure(InvalidAmount)
    ensures Trim(description) != [] && amount.Some? && amount.value > 0.0 && splitAmong == [] ==> r == Failure(NoParticipants)
    ensures r.Success? ==>
      && r.value.expense.id == expenseId
      && r.value.expense.description == Trim(description)
      && r.value.expense.totalAmount == amount.value
      && r.value.expense.paidBy == paidBy
      && r.value.expense.splitAmong == splitAmong
      && r.value.expense.perPersonAmount == amount.value / (|splitAmong| as real)
      && r.value.transactions == ExpenseTransactions(r.value.expense)
  {
    var trimmed := Trim(description);
    if trimmed == [] then Failure(MissingDescription)
    else if amount.None? || amount.value <= 0.0 then Failure(InvalidAmount)
    else if splitAmong == [] then Failure(NoParticipants)
    else
      var share := PerPersonAmount(amount.value, splitAmong);
      var expense := Expense(expenseId, trimmed, amount.value, paidBy, splitAmong, share);
      Success(Recording(expense, ExpenseTransactions(expense)))
  }

  /** A selection with a repeated member can be emptied by one click; the form never reaches
      one (see `ReachableSelectionIsValid`). */
  lemma ToggleEmptiesDuplicatedSelection()
    ensures ToggleMember(["a", "a"], "a") == []
  {
    assert "a" in ["a", "a"];
  }
}
