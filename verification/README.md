# Budget ledger, header amounts and display order — a Dafny model

This project models the sequential core of a small personal-budgeting app:

- **The budget screen's ledger** (`app/budget/index.tsx`). The screen holds a
  total, a remaining amount and an ordered list of entries. Each entry has a
  title, an allocated amount, a target amount, a target date and a category
  (Goal, Want or EmergencyFund). The screen's handlers are modelled as pure
  transitions over an immutable `Ledger`: edit the total (a handler the page
  hands to the header as `onEditAmount`, which this header never calls), add 100 to an entry,
  reduce 100 from an entry, delete an entry, open the edit dialog, and save a
  new or edited entry. The default "New Goal" dialog template is modelled too.
  The bookkeeping invariant is `remainingAmount == totalAmount - Sum(allocations)`.
  The model proves which handlers keep it and proves exactly when the others
  break it.
- **The header's amount buttons** (`components/Budget/BudgetHeader.tsx`).
  Add and remove move the header's own total and remaining amount together by
  100, and mirror the new pair into the module-level budget object.
- **The display order** (`components/Budget/BudgetComponents.tsx`). The list
  sorts its cards with a comparator ranking Goal (1) < Want (2) <
  EmergencyFund (3). `Array.prototype.sort` is stable (ECMA-262, section
  23.1.3.30, since the 2019 edition). The model is an insertion sort driven by
  the same comparator. It is proved equal to a group-by-category reference
  definition, and every stable sort is proved to produce that same list.

Files: `ledger.dfy` (module `Budget`), `reconciled.dfy` (module `Reconciled`:
the discrepancies listed under Findings and the corrected handlers),
`header.dfy` (module `Header`), `display.dfy` (module `Display`).

Amounts are mathematical integers. The source's JavaScript numbers are
floating point; the handlers only add and subtract whole amounts, which are
exact in JavaScript below 2^53.

## Model

| member | source | states |
|---|---|---|
| Budget.EditTotal | app/budget/index.tsx:60-64 | (the handler is passed to the header as `onEditAmount` at line 145, but the header never declares or calls that prop, so no user action reaches it; modelled as written) the total becomes the new value, total minus remaining is unchanged, the entries are untouched, and the ledger is consistent afterwards exactly when it was before |
| Budget.AddAmount | app/budget/index.tsx:67-74 | entry i's allocation rises by exactly 100 with its other fields kept, every other entry and the total are unchanged, remaining falls by 100; i must name an entry (otherwise the source throws) |
| Budget.AddAmountKeepsConsistent | app/budget/index.tsx:67-74 | add keeps the bookkeeping invariant, in both directions |
| Budget.AddAmountKeepsStepped | app/budget/index.tsx:67-74 | add keeps every allocation a non-negative multiple of 100 |
| Budget.ReduceAmount | app/budget/index.tsx:77-86 | reduce is a no-op exactly when entry i holds 0 or less; otherwise that allocation falls by 100, remaining rises by 100, and nothing else changes |
| Budget.ReduceAmountKeepsConsistent | app/budget/index.tsx:77-86 | reduce keeps the bookkeeping invariant, in both directions |
| Budget.ReduceAmountKeepsStepped | app/budget/index.tsx:77-86 | when all allocations are non-negative multiples of 100, the `> 0` guard means "at least 100", so reduce keeps them non-negative multiples of 100 |
| Budget.DeleteComponent | app/budget/index.tsx:89-92 | delete removes exactly the entry at the index, keeps the others in order, shortens the list by one, and leaves total and remaining alone; an index naming no entry removes nothing |
| Budget.DeleteConsistentIff | app/budget/index.tsx:89-92 | from a consistent ledger, delete leaves it consistent exactly when the removed entry held 0 |
| Budget.EditDialog | app/budget/index.tsx:95-99 | the edit dialog opened on entry i carries that entry's fields and the position i |
| Budget.SaveUneditedDialog | app/budget/index.tsx:95-108 | saving an edit dialog without changing it leaves the ledger unchanged |
| Budget.SaveComponent | app/budget/index.tsx:102-112 | new-goal mode appends exactly one entry and keeps the existing ones; edit mode replaces only the dialog's position; with no index nothing changes; total and remaining are never touched |
| Budget.SaveNewConsistentIff | app/budget/index.tsx:103-104 | from a consistent ledger, appending keeps it consistent exactly when the new entry's allocation is 0 |
| Budget.SaveEditConsistentIff | app/budget/index.tsx:105-108 | from a consistent ledger, an edit keeps it consistent exactly when the allocation is left as it was |
| Budget.NewGoalKeepsConsistent | app/budget/index.tsx:115-122 | saving the untouched template (Budget.NewGoalTemplate) appends one entry ("New Goal", 0, 1000, "Dec 2025", Goal) and keeps the invariant |
| Budget.ApplyConsistentIff | app/budget/index.tsx:60-112 | any single user action keeps a consistent ledger consistent exactly when it is neutral: it moves money, or deletes or saves without changing what is allocated |
| Budget.RunKeepsConsistent | app/budget/index.tsx:60-112 | a run of user actions whose every step is neutral keeps a consistent ledger consistent |
| Budget.MoneyRun | app/budget/index.tsx:60-86 | every run of edit-total, add and reduce presses on existing entries can be performed, keeps the number of entries, keeps the invariant, and keeps non-negative multiples of 100 non-negative multiples of 100 |
| Reconciled.ReduceBelowZero | app/budget/index.tsx:79-80 | on a consistent ledger whose only entry holds 50, one reduce leaves that allocation at -50 |
| Reconciled.ReduceClamped | app/budget/index.tsx:77-86 | reduce that acts only when at least 100 is allocated: a no-op exactly below 100; when it acts, entry i loses exactly 100 with its other fields kept and remaining gains exactly 100; every other entry and the total are unchanged; keeps every allocation non-negative, and keeps the invariant |
| Reconciled.DeleteStrandsAllocation | app/budget/index.tsx:89-92 | deleting the only entry (holding 100) from a consistent ledger of 1000 leaves 900 remaining and an inconsistent ledger |
| Reconciled.DeleteFreeing | app/budget/index.tsx:89-92 | delete that removes the same entry and returns its allocation to remaining; an index naming no entry leaves the ledger unchanged; keeps the invariant and non-negativity |
| Reconciled.EditDriftsRemaining | app/budget/index.tsx:105-108 | editing an allocation from 100 to 300 on a consistent ledger leaves remaining at 900 and the ledger inconsistent |
| Reconciled.SaveReconciled | app/budget/index.tsx:102-112 | save that produces the same entries and moves the change in allocation through remaining; an edit-mode save with no index leaves the ledger unchanged; keeps the invariant, and keeps non-negativity when the saved allocation is non-negative |
| Reconciled.RunKeepsBookkeeping | app/budget/index.tsx:60-112 | with the reconciled handlers, every run of user actions keeps the ledger's consistency exactly as it found it, and keeps allocations non-negative when no save carries a negative one |
| Header.Mount | components/Budget/BudgetHeader.tsx:20-27 | after its mount effect the header shows the stored pair and mirrors it |
| Header.HandleAdd | components/Budget/BudgetHeader.tsx:29-38 | total and remaining both rise by 100, total minus remaining is unchanged, and the module-level copy equals the new state |
| Header.HandleRemove | components/Budget/BudgetHeader.tsx:40-49 | total and remaining both fall by 100, total minus remaining is unchanged, and the module-level copy equals the new state |
| Header.AddRemoveInverse | components/Budget/BudgetHeader.tsx:29-49 | remove undoes add and add undoes remove on the shown pair, and on the whole state when it was mirrored |
| Header.RemoveUnguarded | components/Budget/BudgetHeader.tsx:40-44 | remove has no lower bound: from a zero pair both amounts become negative |
| Header.PressesNet | components/Budget/BudgetHeader.tsx:29-49 | after any sequence of presses, total and remaining have each moved by 100 times (adds minus removes), total minus remaining is unchanged, and the copy is mirrored once any button was pressed |
| Display.Cards | app/budget/index.tsx:171-182 | the screen builds one card per entry, in ledger order, each card's buttons targeting its own ledger position |
| Display.Sort | components/Budget/BudgetComponents.tsx:30-34 | the display sort, an insertion sort driven by the source comparator (Display.Compare over the rank table Display.Order: Goal=1, Want=2, EmergencyFund=3); its result has the input's length and multiset, which needs the contracts of its recursive calls and of Display.Insert |
| Display.SortPermutes | components/Budget/BudgetComponents.tsx:30-34 | the sorted list is a permutation of the input: same length, same multiset |
| Display.SortIsGrouped | components/Budget/BudgetComponents.tsx:30-34 | the sort equals the reference definition: Goal cards, then Want cards, then EmergencyFund cards, each in input order |
| Display.SortSorted | components/Budget/BudgetComponents.tsx:31-33 | the sorted list is non-decreasing under Display.Compare, whose ranks (Display.Order) are Goal=1, Want=2, EmergencyFund=3 |
| Display.SortStable | components/Budget/BudgetComponents.tsx:31-34 | each category's cards appear in the output exactly as in the input |
| Display.SortKeepsLedgerOrder | components/Budget/BudgetComponents.tsx:31-34 | two displayed cards of the same category appear in the order of their ledger positions |
| Display.SortOfSorted | components/Budget/BudgetComponents.tsx:31-34 | a list already in display order is returned unchanged |
| Display.SortIdempotent | components/Budget/BudgetComponents.tsx:31-34 | sorting twice equals sorting once |
| Display.StableSortUnique | components/Budget/BudgetComponents.tsx:30-34 | any output that is in display order and keeps each category's order is this sort's output, so the model covers whatever stable algorithm the engine uses |
| Display.SortedCardsTargetSource | components/Budget/BudgetComponents.tsx:35-46 | sorting changes no card: each displayed card carries a valid ledger position and exactly the entry at that position, and each position is shown exactly once |

## Left out

- Persistence (`utils/budgetData.ts`) is not part of this model: file-system and browser-storage I/O, the platform branch, JSON serialisation and the swallowed errors are I/O plumbing.
- The write-on-change effect (app/budget/index.tsx:55-57) and React's asynchronous, batched `setState`: each handler is one atomic synchronous transition.
- In-place mutation through the shallow copy `[...components]` (app/budget/index.tsx:68-69, 78-80), which also alters the imported JSON module's objects: entries are immutable values here.
- Budget.AddAmount, Budget.ReduceAmount: require an index naming an entry. Out of range, the source throws a TypeError on `undefined.allocatedAmount`. The buttons always pass a valid index.
- Budget.SaveComponent: in edit mode it requires the dialog's index to name an entry. Out of range, JavaScript would grow a sparse array or set a stray property, which is not modelled. The stored object's extra `index` key from the dialog is also not modelled.
- Budget.EditDialog: requires an index naming an entry. Out of range, the source opens a dialog holding only `{index}`.
- Modal visibility, the `isNewGoal` flag's own state, header expand/collapse toggles, the chart, all layout, styling and `Dimensions` sizes are UI state and floating point. The new-goal flag is a parameter of Budget.SaveComponent.
- The page passes `totalAmount`, `remainingAmount` and `onEditAmount` to the header (app/budget/index.tsx:140-146). The header in components/Budget/BudgetHeader.tsx declares only `isExpanded` and `toggleExpanded` and keeps its own pair, so the Header and Budget modules are independent, as in the source.
- The `type` cast at app/budget/index.tsx:177 is unchecked in the source; the model's `Category` admits only the three categories.
- JavaScript `number` semantics (floating point, NaN, fractional amounts) are not modelled: amounts are `int`.
- The welcome screen (`app/index.tsx`) and route types (`navigation/types.ts`) are navigation and declarations only.
- Import/export, load defaults and parse errors have no counterpart among the modelled handlers.

## Findings

The ledger is meant to keep `remainingAmount` equal to the total minus the
allocations after every action, so that deleting an entry frees its
allocation and a reduce never takes an allocation below zero. The handlers as
written do not keep these promises. The `Budget` module follows the code. The
`Reconciled` module holds the evidently intended handlers, and
`Reconciled.Run` performs whole user sessions with them.

| source | as written | input that shows it | evidently intended | confidence | as-written member | corrected member |
|---|---|---|---|---|---|---|
| app/budget/index.tsx:79-80 | guard `allocatedAmount > 0`, then subtract 100 | an entry holding 50 (set through the edit dialog): one reduce leaves -50 | reduce only when a whole step of 100 is allocated, so no allocation goes below zero | medium, not executed | Reconciled.ReduceBelowZero | Reconciled.ReduceClamped |
| app/budget/index.tsx:89-92 | the entry is filtered out; `remainingAmount` is not touched | total 1000, remaining 900, one entry holding 100: after delete, remaining is 900 with nothing allocated | remaining grows by the deleted allocation | medium, not executed | Reconciled.DeleteStrandsAllocation | Reconciled.DeleteFreeing |
| app/budget/index.tsx:105-108 | the edited entry replaces the old one; `remainingAmount` is not touched | total 1000, remaining 900, one entry holding 100 edited to 300: remaining stays 900 | remaining moves by the old allocation minus the new one | low (the edit dialog component is not part of this model), not executed | Reconciled.EditDriftsRemaining | Reconciled.SaveReconciled |
