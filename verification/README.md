# Expense splitter core in Dafny

This project models the pure core of a group expense-splitting web application. It covers:

- **The expense recorder.** This is the add-expense form with its React state, toasts and database writes removed. It covers:
  - the participant toggle;
  - the three validation checks of a submission;
  - the equal per-person split;
  - the derivation of one debt (a *transaction*) from every participant other than the payer, to the payer.
- **The balance calculator.** It has two parts:
  - `calculateUserBalance`: a per-user *summary*. Its net balance is derived from the transactions (`othersOweYou - youOwe`).
  - `calculateGroupBalances`: a per-member *roster*. Its net balance is derived from the expenses (`totalPaid - totalOwed`).
- **Two helpers:**
  - the display-name lookup with its `"Unknown"` fallback;
  - the five-digit join-code generator.

Amounts are exact `real`s, ids are strings, and records are immutable datatypes. Each sum is modelled as the code writes it: a `filter` followed by a left-to-right `reduce` from 0. Each sum is also proved equal to a reference sum defined element by element (`Balances.ExpenseTotal`, `Balances.TransactionTotal`).

The main result is `Agreement.NetBalancesAgree`. The two net-balance formulas agree for every user on a *consistent ledger*. In a consistent ledger:

- the transactions are, in any order, exactly the debts the recorder derives from the expenses;
- every expense has a non-empty, duplicate-free participant list;
- every expense's shares add back up to its total.

`Agreement.RecordingKeepsLedgerConsistent` shows that each successful submission keeps the ledger consistent. `Agreement.DuplicateParticipantBreaksAgreement` shows that the duplicate-free condition is needed: with a participant listed twice, the two formulas disagree.

The form never produces a duplicated participant list:

- It starts, and is reset, with the current user alone selected.
- `ExpenseForm.ReachableSelectionIsValid` proves that every selection reachable by clicks is non-empty and duplicate-free.
- `ExpenseForm.ToggleEmptiesDuplicatedSelection` shows why this matters. The toggle's "keep at least one" guard compares the list's length, not its distinct members, so on a selection with a repeated member one click can empty it.

Modules:

| module | models |
|---|---|
| `Wrappers` | `Option` and `Result` |
| `Seqs` | duplicate-freedom, subsequences, and `filter(y => y !== x)` |
| `Ledger` | the records of `src/lib/utils.ts`, and repeated addition |
| `Text` | ECMAScript `String.prototype.trim` |
| `Balances` | `calculateUserBalance` and `calculateGroupBalances` |
| `Names` | `getUserName` |
| `JoinCode` | `generateJoinCode`, and the plain decimal numeral `toString` writes for its values |
| `ExpenseForm` | `handleToggleMember` and `handleSubmit` |
| `Agreement` | the relation between the recorder and the two balance formulas, with a worked example |

## Model

| member | source | states |
|---|---|---|
| Balances.FilterExpenses | src/lib/utils.ts:49-50 | every kept expense matches, every matching expense is kept, and the result is a subsequence of the input (original relative order) |
| Balances.FilterExpensesCounts | src/lib/utils.ts:49-50 | each matching expense is kept as many times as it occurs and every other one is dropped; with the subsequence clause this fixes the result |
| Balances.FilterTransactions | src/lib/utils.ts:59-60 | every kept transaction matches, every matching transaction is kept, and the result is a subsequence of the input (original relative order) |
| Balances.FilterTransactionsCounts | src/lib/utils.ts:59-60 | each matching transaction is kept as many times as it occurs and every other one is dropped; with the subsequence clause this fixes the result |
| Balances.FilterReduceExpenses | src/lib/utils.ts:49-56 | filtering and then reducing from `acc` gives `acc` plus the reference sum over the matching expenses |
| Balances.FilterReduceTransactions | src/lib/utils.ts:59-66 | filtering and then reducing from `acc` gives `acc` plus the reference sum over the matching transactions |
| Balances.CalculateUserBalance | src/lib/utils.ts:43-78 | `totalPaid` sums `totalAmount` over exactly the expenses the user paid for; `personalTripCost` sums `perPersonAmount` over exactly the expenses the user shares in; `youOwe` and `othersOweYou` sum the debts from and to the user; the net is `othersOweYou - youOwe` |
| Balances.MemberBalance | src/lib/utils.ts:88-106 | one member's line: the member's id, name and photo, paid equal to the sum of `totalAmount` over the expenses they paid for, owed equal to the sum of `perPersonAmount` over the expenses they share in, and net paid minus owed |
| Balances.CalculateGroupBalances | src/lib/utils.ts:83-108 | one line per member, in member order, with the member's id, name and photo; paid and owed equal the user summary's `totalPaid` and `personalTripCost`; the net is paid minus owed |
| Balances.ExpenseTotalAppend | src/lib/utils.ts:49-56 | an expense sum over a concatenation is the sum of the sums over the parts |
| Balances.TransactionTotalAppend | src/lib/utils.ts:59-66 | a transaction sum over a concatenation is the sum of the sums over the parts |
| Balances.TransactionTotalPermutation | src/lib/utils.ts:59-66 | reordering the transactions leaves `youOwe` and `othersOweYou` unchanged |
| Balances.UnrelatedTotalIsZero | src/lib/utils.ts:59-66 | transactions in which the user is neither debtor nor creditor sum to zero for that user |
| Balances.UnrelatedTransactionsIgnored | src/lib/utils.ts:59-69 | adding transactions that do not involve the user leaves that user's whole summary unchanged |
| Balances.GroupBalancesIgnoreTransactions | src/lib/utils.ts:83-108 | the roster does not depend on the transactions it is given |
| Balances.EmptyHistoryIsZero | src/lib/utils.ts:43-78 | with no expenses and no transactions every figure of the summary is 0 |
| Names.FindMember | src/lib/utils.ts:166 | `find` returns the index of the first member with the id, or nothing when no member has it |
| Names.GetUserName | src/lib/utils.ts:165-168 | the result is the first matching member's name, or "Unknown" when there is no match or that name is empty; it is never empty |
| JoinCode.DecimalString | src/lib/utils.ts:114 | the decimal numeral of a natural (what `toString` writes below 10^21, so for every join code) is a non-empty digit string that starts with '0' only for zero |
| JoinCode.DecimalRoundTrip | src/lib/utils.ts:114 | reading the decimal numeral back gives the number |
| JoinCode.CanonicalRoundTrip | src/lib/utils.ts:114 | a digit string without a superfluous leading zero is the numeral of its own value |
| JoinCode.DecimalLength | src/lib/utils.ts:114 | a number in `[10^(k-1), 10^k)` has a numeral of exactly k digits |
| JoinCode.DecimalLengthBounds | src/lib/utils.ts:114 | the numeral's length bounds the number from both sides |
| JoinCode.GenerateJoinCode | src/lib/utils.ts:113-115 | for a draw k in `[0, 90000)`, the code is five digits with no leading zero and denotes `10000 + k` |
| JoinCode.JoinCodeCoversAllCodes | src/lib/utils.ts:113-115 | every five-digit code without a leading zero comes from a draw, so the codes are exactly 10000..99999 |
| JoinCode.JoinCodeInjective | src/lib/utils.ts:113-115 | distinct draws give distinct codes |
| Text.Trim | src/components/AddExpenseModal.tsx:46 | the trimmed description is empty exactly when the input is all whitespace, and otherwise starts and ends with a non-whitespace character |
| Text.TrimIsSlice | src/components/AddExpenseModal.tsx:71 | the stored description is the input with its leading and trailing whitespace removed: the slice after the leading whitespace, with only whitespace after it |
| Text.TrimIdempotent | src/components/AddExpenseModal.tsx:71 | trimming the stored, already trimmed description again changes nothing |
| Seqs.Without | src/components/AddExpenseModal.tsx:36 | the filter drops every occurrence of the member, keeps every other member's count and order, and shortens the list by the number of occurrences |
| Seqs.WithoutKeepsNoDuplicates | src/components/AddExpenseModal.tsx:36 | removal keeps a duplicate-free selection duplicate-free |
| ExpenseForm.ToggleMember | src/components/AddExpenseModal.tsx:32-41 | an absent member is appended at the end; a present member is removed, with the others keeping their order, unless the selection has length 1; a duplicate-free selection stays duplicate-free and, if non-empty, non-empty |
| ExpenseForm.OtherMemberSurvives | src/components/AddExpenseModal.tsx:35-36 | removing a member from a duplicate-free selection of two or more leaves it non-empty |
| ExpenseForm.ApplyToggles | src/components/AddExpenseModal.tsx:32-41 | any series of clicks keeps a non-empty duplicate-free selection non-empty and duplicate-free |
| ExpenseForm.ReachableSelectionIsValid | src/components/AddExpenseModal.tsx:29 | every selection reachable from the initial `[currentUserId]` is non-empty and duplicate-free |
| ExpenseForm.ToggleTwiceRestores | src/components/AddExpenseModal.tsx:36-39 | adding and then removing an absent member restores the selection exactly |
| ExpenseForm.ToggleTwiceReorders | src/components/AddExpenseModal.tsx:36-39 | removing and then re-adding a present member gives the others in their order followed by that member, so the same members |
| ExpenseForm.ToggleEmptiesDuplicatedSelection | src/components/AddExpenseModal.tsx:33-36 | on `["a", "a"]` the length guard lets a click on "a" empty the selection |
| ExpenseForm.PerPersonAmount | src/components/AddExpenseModal.tsx:65 | the share times the number of participants is the amount; a positive amount gives a positive share no larger than it |
| ExpenseForm.DeriveTransactions | src/components/AddExpenseModal.tsx:83-96 | one debt per participant other than the payer, each from that participant to the payer, for the share, tagged with the expense id; the count is the list length minus the payer's occurrences |
| ExpenseForm.DerivedDebtorsInOrder | src/components/AddExpenseModal.tsx:83-89 | the debtors are exactly the participants other than the payer, in `splitAmong` order |
| ExpenseForm.UniformAmountsSum | src/components/AddExpenseModal.tsx:91 | debts that all carry the share add up to their number of shares |
| ExpenseForm.DerivedAmountsSum | src/components/AddExpenseModal.tsx:83-96 | the derived debts add up to one share per non-paying participant |
| ExpenseForm.DerivedAmountsProduct | src/components/AddExpenseModal.tsx:83-96 | the derived debts add up to their count times the share |
| ExpenseForm.SubmitExpense | src/components/AddExpenseModal.tsx:46-96 | submission succeeds exactly when the trimmed description is non-empty, the amount is a positive number and the selection is non-empty; otherwise it fails with the first failing check's message; on success it stores the trimmed description, the amount, the payer, the selection and `amount / |splitAmong|`, and derives the debts from that expense |
| Agreement.SharesAddUp | src/components/AddExpenseModal.tsx:65 | n shares of `total / n` add back up to the total |
| Agreement.DerivedCreditorTotal | src/components/AddExpenseModal.tsx:83-96 | through one expense's debts the payer is owed one share per other participant, and nobody else is owed anything |
| Agreement.DerivedDebtorTotal | src/components/AddExpenseModal.tsx:83-96 | through one expense's debts each non-payer owes one share per listing, and the payer owes nothing |
| Agreement.ExpenseNet | src/components/AddExpenseModal.tsx:65-96 | for a sound expense, the user's creditor total minus debtor total is what they paid for it minus their share of it |
| Agreement.DerivedLedgerNet | src/lib/utils.ts:49-66 | over all derived debts, the transaction-derived net equals `totalPaid - personalTripCost` |
| Agreement.NetBalancesAgree | src/lib/utils.ts:69 | on a consistent ledger the summary's net `othersOweYou - youOwe` equals `totalPaid - personalTripCost` |
| Agreement.RosterAgreesWithSummary | src/lib/utils.ts:97 | on a consistent ledger every roster line's net equals that member's summary net |
| Agreement.SubmissionIsSound | src/components/AddExpenseModal.tsx:65-75 | a successful submission from a duplicate-free selection stores an expense whose shares add up to its total |
| Agreement.RecordingKeepsLedgerConsistent | src/components/AddExpenseModal.tsx:68-98 | adding a submission's expense and its debts to a consistent ledger keeps it consistent |
| Agreement.DuplicateParticipantBreaksAgreement | src/lib/utils.ts:69 | with split `["B", "B"]` for 100 paid by A, B's summary nets -100 but B's roster line nets -50 |
| Agreement.ScenarioTransactions | src/components/AddExpenseModal.tsx:83-96 | dinner 300 by A for A, B, C gives debts B→A 100 and C→A 100; taxi 50 by B for B, C gives C→B 25 |
| Agreement.ScenarioExpenseTotals | src/lib/utils.ts:49-56 | after the dinner alone, and after both expenses, each person's paid and shared totals are the expected figures |
| Agreement.ScenarioSummaries | src/lib/utils.ts:43-78 | after the dinner, A's summary is paid 300, share 100, owes 0, owed 200, net +200; B's is 0, 100, 100, 0, net -100 |
| Agreement.ScenarioRoster | src/lib/utils.ts:83-108 | after both expenses the roster reads A 300/100/+200, B 50/125/-75, C 0/125/-125 |

## Left out

- Database I/O is not modelled: `addDoc`, `writeBatch` and `commit`, `isJoinCodeUnique`, and the unbounded retry loop of `generateUniqueJoinCode` (src/lib/utils.ts:120-140). These are calls into an external store. The expense id that `addDoc` returns is a parameter of `ExpenseForm.SubmitExpense`.
- The expense write and the debt batch are two separate writes (src/components/AddExpenseModal.tsx:68-98). An all-or-nothing write would keep the expense and its debts together, but the code does not provide one. The model follows the code's data flow, and failure between the two writes is not modelled.
- `Math.random` is a draw parameter `k = floor(random * 90000)` in `[0, 90000)`. The code is `10000 + k`.
- Floating point is not modelled. Amounts are exact reals, so rounding in `amount / splitAmong.length` and in the sums is not modelled, and neither is `Infinity`.
- `parseFloat` is not modelled. The amount reaches `SubmitExpense` already parsed, as an `Option<real>`, and `None` stands for `NaN`.
- `formatCurrency` (`toFixed`) and `formatDate` (`Intl.DateTimeFormat`) are library formatting and are left out.
- `createdAt` timestamps, transaction document ids, toasts, the loading flag, and resetting the form after success are UI or store details.
- JoinCode.DecimalString: only the plain decimal form is modelled. JavaScript writes numbers of 10^21 and above in exponent form and is inexact above 2^53, but the join code never exceeds 99999.
- Names.GetUserName: a member whose `name` field is missing (`undefined`) is not modelled. Names are always strings, and only the empty name falls back to "Unknown".
- Member records are `any` in the source. The model keeps only `uid`, `name` and `photoURL`, the fields the core reads.
- `src/hooks/useGroupData.ts` and `src/lib/auth-context.tsx` are live subscriptions and authentication, and are not part of this model.
- The rendering components are not part of this model.
