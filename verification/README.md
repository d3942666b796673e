# Bill splitter settlement engine in Dafny

A model of the settlement engine of the bill splitter, a small React page.
People enter a name and what they paid, or leave the amount empty. The page
then lists who pays whom so that everyone ends up having paid the same share.

The engine, `calculateSplit`, works in four stages:

1. It totals the contributions. A missing amount counts as zero.
2. It takes the mean as everyone's fair share. Each person's balance is what
   they paid minus that share.
3. It splits the balances into debtors and creditors. Debtors have a negative
   balance, most negative first. Creditors have a positive balance, largest
   first. A zero balance is on neither side.
4. A greedy loop keeps one cursor in each list. Each step pays
   `min(-debt, credit)` from the current debtor to the current creditor and
   takes that amount off both balances. A cursor moves on once its party's
   remaining balance is below 0.01 in magnitude. Emitted amounts are rounded to
   cents.

The two list edits the page offers are modelled as well: adding a person,
including the check against negative amounts, and removing a person by id.

Modules, one file each:

- `Amounts` (`amounts.dfy`): the settlement tolerance, `Abs`, `Min`,
  rounding to cents, and sums of amounts.
- `People` (`people.dfy`): the `Person` record, `AddPerson` and `RemovePerson`.
- `Shares` (`balances.dfy`): contributions, the fair share and the balances.
- `Partition` (`partition.dfy`): the debtor and creditor lists, built by a
  filter and a stable insertion sort.
- `Matching` (`matching.dfy`): the greedy loop.
  - The `Ledger` datatype is the loop state: the remaining balances and the
    two cursors.
  - `Advance` is one step and `Match` is the recursive reference definition of
    the whole loop.
  - A `Step` names a debtor and a creditor by position and carries the amount
    before rounding.
- `BillSplitter` (`bill_splitter.dfy`): the whole engine.
  - `CalculateSplit` is the functional definition.
  - `CalculateSplitLoop` and `SettleLoop` are the loop as `calculateSplit`
    writes it, a `while` over two cursors that updates balances in place. It is proved
    equal to `CalculateSplit`.
- `Scenarios` (`scenarios.dfy`): worked examples computed stage by stage.

Amounts are exact rationals (`real`). Under exact arithmetic every step pays
off at least one of the two current parties completely. That is why the loop
terminates and emits at most one payment fewer than there are people.

## Model

| member | source | states |
|---|---|---|
| People.AddPerson | app/_components/bill-splitters.tsx:31-53 | an empty name changes nothing; the add is refused exactly when the name is non-empty and a negative amount was given; otherwise the list gains exactly the new person at its end and is otherwise unchanged, and a list whose amounts were all non-negative stays so |
| People.RemovePerson | app/_components/bill-splitters.tsx:55-57 | nobody with the removed id remains; a person is kept exactly when they were in the list with a different id, with the same multiplicity; the list never grows |
| People.RemovePersonAppend | app/_components/bill-splitters.tsx:56 | removing from a concatenation is removing from each part, so the people kept stay in their original relative order |
| People.RemovePersonIdempotent | app/_components/bill-splitters.tsx:56 | removing the same id a second time changes nothing |
| People.RemoveAbsentId | app/_components/bill-splitters.tsx:56 | removing an id nobody has leaves the list exactly as it was |
| People.RemovePreservesNonNegative | app/_components/bill-splitters.tsx:56 | removal cannot bring back a negative amount the add check keeps out |
| People.Contribution | app/_components/bill-splitters.tsx:65-70 | a missing amount counts as zero, an entered amount as itself |
| Amounts.Settled | app/_components/bill-splitters.tsx:94-95 | a balance counts as settled exactly when it lies strictly between -0.01 and 0.01 |
| Amounts.Round2 | app/_components/bill-splitters.tsx:88 | the rounded amount is a whole number of cents, within half a cent of the exact amount, and keeps its sign; an exact half cent goes away from zero |
| Amounts.Round2Cents | app/_components/bill-splitters.tsx:88 | an amount that already is a whole number of cents, of either sign, is shown unchanged |
| Shares.Total | app/_components/bill-splitters.tsx:65 | no people make a total of zero; with no negative amounts the total is non-negative and at least each person's contribution |
| Shares.TotalAppend | app/_components/bill-splitters.tsx:65 | the fold adds each person's contribution once: a person appended adds exactly their amount, or nothing when they entered none |
| Shares.FairShare | app/_components/bill-splitters.tsx:66 | the share, paid once by each person, makes up the total exactly |
| Shares.Balances | app/_components/bill-splitters.tsx:68-71 | one entry per person, in list order, under the person's name; any two balances differ exactly as the two contributions do |
| Shares.BalancesUnique | app/_components/bill-splitters.tsx:65-71 | the balances are the only list with the people's names whose entries differ as the contributions do and add up to zero, so those two properties define them |
| Shares.BalancesSumToZero | app/_components/bill-splitters.tsx:65-71 | the balances add up to exactly zero, with a missing amount counted as zero |
| Shares.EqualContributionsZeroBalances | app/_components/bill-splitters.tsx:65-71 | when everybody paid the same amount the fair share is that amount and every balance is zero |
| Partition.Filter | app/_components/bill-splitters.tsx:74-75 | keeps exactly the entries on the chosen side, with their multiplicities |
| Partition.Sort | app/_components/bill-splitters.tsx:74-75 | the result is sorted in the chosen direction and is a permutation of the input |
| Partition.Debtors | app/_components/bill-splitters.tsx:74 | holds exactly the negative balances, each as often as in the balances, most negative first |
| Partition.Creditors | app/_components/bill-splitters.tsx:75 | holds exactly the positive balances, each as often as in the balances, largest first |
| Partition.SidesFitInPeople | app/_components/bill-splitters.tsx:74-75 | the two lists together are no longer than the list of people |
| Partition.NoSidesWhenAllZero | app/_components/bill-splitters.tsx:74-75 | when every balance is zero both lists are empty |
| Partition.SidesComeFromEntries | app/_components/bill-splitters.tsx:74-75 | every debtor and creditor is one of the balance entries |
| Partition.SidesKeepSum | app/_components/bill-splitters.tsx:74-75 | what the debtors owe and what the creditors are owed add up to the sum of all balances, since zero balances add nothing |
| Matching.Amount | app/_components/bill-splitters.tsx:83 | the amount is the current debt or the current credit, whichever is smaller, and is positive while the cursors stand on parties that owe and are owed |
| Matching.Advance | app/_components/bill-splitters.tsx:83-95 | a step takes the same amount off the current debtor and creditor and changes no other balance; each cursor moves on by one exactly when its party's new balance is settled, and at least one moves |
| Matching.StepClearsSmallerSide | app/_components/bill-splitters.tsx:83-95 | the smaller of the two current balances is paid off exactly and its cursor moves on; on a tie both move |
| Matching.Match | app/_components/bill-splitters.tsx:77-96 | the loop takes fewer steps than there are parties still ahead of the cursors, none when a list is exhausted, and every step names parties at or after the cursors |
| Matching.MatchCursorsMonotone | app/_components/bill-splitters.tsx:77-96 | payments come in non-decreasing debtor order and non-decreasing creditor order |
| Matching.MatchPaysSmallerRemainder | app/_components/bill-splitters.tsx:81-83 | each payment is the smaller of what its debtor still owes and what its creditor is still owed, counting all earlier payments |
| Matching.MatchAmountsPositive | app/_components/bill-splitters.tsx:83 | every payment before rounding is strictly positive |
| Matching.MatchWithinBalances | app/_components/bill-splitters.tsx:83-95 | no debtor pays more than its debt and no creditor receives more than its credit |
| Matching.RemainderKeepsSign | app/_components/bill-splitters.tsx:91-95 | before each of its payments a party still owes (or is owed), and no payment carries its balance past zero |
| Matching.AdvanceKeepsConsistent | app/_components/bill-splitters.tsx:91-95 | the loop invariant (no balance past zero, every party behind a cursor settled) survives a step |
| Matching.AdvanceKeepsTotal | app/_components/bill-splitters.tsx:91-92 | a step leaves the total of debts and credits unchanged |
| Matching.FinalState | app/_components/bill-splitters.tsx:80-96 | where the loop stops, each balance is the starting balance less what the plan paid, the invariant holds and the total is unchanged |
| Matching.StoppedNearlySettled | app/_components/bill-splitters.tsx:80-95 | once a list is exhausted and the balances cancel out, every remaining balance is within a cent per party of zero |
| Matching.MatchEndsNearlySettled | app/_components/bill-splitters.tsx:77-96 | from balances that cancel out, the plan pays every party its balance to within a cent per party |
| BillSplitter.Start | app/_components/bill-splitters.tsx:74-78 | the loop starts on parties that really owe and are owed, and there are no more of them than people |
| BillSplitter.Plan | app/_components/bill-splitters.tsx:77-96 | no payments for one person or when either list is empty; otherwise at most one fewer than the debtors and creditors together, and so at most one fewer than the people |
| BillSplitter.Emit | app/_components/bill-splitters.tsx:85-89 | one settlement per step, in step order, from the step's debtor to its creditor by name, with the amount rounded to cents |
| BillSplitter.CalculateSplit | app/_components/bill-splitters.tsx:59-99 | no people give no settlements, and otherwise there is at most one settlement fewer than people |
| BillSplitter.PlanRespectsBalances | app/_components/bill-splitters.tsx:83-95 | payments are positive, each is the smaller remaining balance, and no debtor or creditor moves more than its balance |
| BillSplitter.SettlementsGoFromDebtorsToCreditors | app/_components/bill-splitters.tsx:81-89 | every settlement goes from a person with a negative balance to a person with a positive balance |
| BillSplitter.SettlementAmounts | app/_components/bill-splitters.tsx:83-88 | every settlement shows the rounded amount of a strictly positive payment |
| BillSplitter.StartBalanced | app/_components/bill-splitters.tsx:65-78 | the loop starts in a state meeting its invariant, with debts and credits cancelling out |
| BillSplitter.EveryoneEndsNearFairShare | app/_components/bill-splitters.tsx:65-96 | after the payments every debtor and creditor is within a cent per participant of having paid exactly the fair share |
| BillSplitter.EqualContributionsNoSettlements | app/_components/bill-splitters.tsx:66-80 | when everybody paid the same amount, including a single person or nobody entering anything, there are no settlements |
| BillSplitter.CalculateSplitLoop | app/_components/bill-splitters.tsx:59-99 | the in-place loop gives exactly the settlements of the functional definition |
| BillSplitter.SettleLoop | app/_components/bill-splitters.tsx:77-96 | the two-cursor `while` loop emits exactly the rounded payments of the reference plan |
| Scenarios.OnePayerSettlements | app/_components/bill-splitters.tsx:59-99 | A paid 100, B paid 0, C nothing: B and C each pay A 33.33, in list order |
| Scenarios.UnevenSettlements | app/_components/bill-splitters.tsx:59-99 | A paid 30, B paid 10, C nothing: C pays A 13.33, then B pays A 3.33 |
| Scenarios.EvenPairSettlements | app/_components/bill-splitters.tsx:59-99 | two people who paid 50 each give no settlements |
| Scenarios.TinyDebtRoundsToZero | app/_components/bill-splitters.tsx:83-89 | a debt of 0.0015 is still paid, and the payment shows as 0.00 |

## Left out

- React state, `useEffect` re-running the engine and all rendering (lines
  24-29, 98-172): the engine takes the list of people and returns the
  settlements.
- Toasts (lines 35-39): the refused add returns `Rejected(NegativeAmount)`
  instead of showing a message.
- `parseFloat` of the text field (line 33): `AddPerson` takes the parsed
  amount as an optional number. Text that does not parse gives NaN in the
  page, which the model does not represent. `person.amount || 0` would
  treat NaN as zero.
- `Date.now()` ids (line 45): the id is a parameter of `AddPerson`.
- IEEE-754 doubles: all amounts are exact rationals. Residual error in the
  floating-point loop is what the 0.01 tolerance is for. Under exact
  arithmetic the paid-off side reaches exactly zero.
- Amounts.Round2: models `Number(x.toFixed(2))` on exact values, rounding half
  away from zero. It does not model cases where the binary representation
  decides the direction, such as 1.005 shown as 1.00.
- Partition.Sort: the model sorts stably, as JavaScript's `sort` has done
  since ES2019. The contract states only sortedness and permutation, not
  stability.
- BillSplitter.EveryoneEndsNearFairShare: the bound is a cent per participant,
  not the 0.01 tolerance itself. When the loop stops, every party on one side
  is below the tolerance. The other side can only be bounded by what those
  parties still hold together.

## Notes

- Every payment is strictly positive before rounding
  (`BillSplitter.SettlementAmounts`). A payment below half a cent still
  shows as 0.00: contributions 0.003 and none give one settlement of 0.00
  (`Scenarios.TinyDebtRoundsToZero`).
- Rounding each payment on its own can lose a cent against the balance it
  settles. With A 30, B 10 and C nothing, A is owed 50/3. The two payments to
  A are 40/3 and 10/3 and show as 13.33 and 3.33
  (`Scenarios.UnevenSettlements`). They add up to 16.66, while A's balance
  would show as 16.67.
