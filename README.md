# Budget tracker ledger: a Dafny model

This project models the logic of the single-page budgeting app. The logic is the
transaction ledger, which the page changes by add, edit and delete. It is also the view
derived from the ledger: the filtered list of transactions and the income, expense and
balance totals over it. All of it lives in the `Index` component, `src/pages/Index.jsx`.

- `ledger.dfy`, module `Ledger`: the records. A `Transaction` has a date, an amount,
  a kind (the source's `type`: income or expense) and a category. A `Criteria` has a
  kind criterion, a category criterion, each with an "all" option, and two date bounds.
  `Unset` is the all-unset criteria the page starts with and the reset button restores.
- `dates.dfy`, module `Dates`: the `<=` and `>=` on date strings that the filter uses.
  `AtMost` compares character by character, as JavaScript compares two strings. It is
  proved to equal a reference definition of lexicographic order, and to be a total order.
- `view.dfy`, module `View`: the pure part. `Filtered` keeps the records that pass all
  four conditions. `Positions` gives the ledger position of each displayed row. The sums
  are `Sum`, a left fold from 0 as `reduce` does, `OfKind`, `Total`, `TotalIncome`,
  `TotalExpense` and `Balance`. The lemmas state what the view is: an order-preserving
  subsequence holding exactly the matching records. They also state how the totals
  relate to each other and to a signed sum.
- `page.dfy`, module `Budget`: the imperative part. Class `Page` holds the component
  state: the ledger, the form fields, the criteria and the edit cursor. Its methods are
  the handlers `handleSubmit`, `handleEdit`, `handleDelete` and `handleFilter`, and the
  reset button. Each states the whole new state. Methods outside the class run the
  handlers in sequence for the scenarios that matter.

Amounts are exact `real` numbers. The date of a record is the text of the date input.
The amount input is either `Blank` or `Entered(x)`.

One quirk is kept on purpose. The Edit and Delete buttons of a table row pass the row's
index in the *filtered* list, and the handlers use it as a position in the *raw*
ledger. So `Page.Edit` and `Page.Delete` take a ledger position. `View.DisplayedRowPosition`
shows that such an index is always a valid ledger position. It also shows that the row
displayed there sits at ledger position `Positions(ledger, c)[i]`, which is `i` or later.
`View.RowsAtOwnPositionIff` shows that every row sits at its own ledger position exactly
when the matching positions form a prefix of the ledger. That holds in particular when every
record matches, as with `Unset` (`View.FilteredUnset`). `View.ExpenseFilterExample` shows a case
where a row and its position differ.

The edit cursor is a ledger position, not a record. It is the index the row's button
passes, stored as a raw position (`src/pages/Index.jsx:36`) and written to on submit
(line 18). `handleDelete` never clears the cursor, so an update after a delete does not
fail and does not follow the record:

- Deleting the first row while a later record is being edited makes the submit overwrite
  the record after the edited one, which is lost (`Budget.DeleteBeforeEditedRow`).
- Deleting the last row while editing it leaves the cursor at the new length, so the submit
  appends (`Budget.DeleteEditedLastRow`). An edit therefore does not always keep the length.

## Model

| member | source | states |
|---|---|---|
| `Dates.AtMostIsLexicographic` | src/pages/Index.jsx:52-53 | the string comparison used for the date bounds holds iff the two strings share a prefix after which the first ends or has the smaller character |
| `Dates.AtMostReflexive` | src/pages/Index.jsx:52-53 | every date is within the bounds `[d, d]` of itself |
| `Dates.AtMostAntisymmetric` | src/pages/Index.jsx:52-53 | two dates each at most the other are equal |
| `Dates.AtMostTransitive` | src/pages/Index.jsx:52-53 | the comparison is transitive |
| `Dates.AtMostTotal` | src/pages/Index.jsx:52-53 | any two dates are comparable |
| `View.Matches` | src/pages/Index.jsx:50-54 | definition: the conjunction of the type, category, start-date and end-date conditions, an unset criterion passing every record; properties in `PositionsAreMatches`, `FilteredCount`, `EmptyDateRange` |
| `View.Filtered` | src/pages/Index.jsx:49-55 | the view is no longer than the ledger, and every displayed record passes all four conditions |
| `View.Positions` | src/pages/Index.jsx:49-55 | the displayed rows are ledger records at strictly increasing positions, so the view is an order-preserving subsequence |
| `View.PositionsAreMatches` | src/pages/Index.jsx:49-55 | a ledger position is displayed iff its record passes the four conditions |
| `View.FilteredCount` | src/pages/Index.jsx:49-55 | each matching record appears in the view as often as in the ledger, and a non-matching one not at all |
| `View.FilteredMembership` | src/pages/Index.jsx:49-55 | a record is displayed iff it is in the ledger and matches the criteria |
| `View.FilteredAppend` | src/pages/Index.jsx:49-55 | filtering a concatenation of ledgers is concatenating their views |
| `View.FilteredIsLedgerIff` | src/pages/Index.jsx:49-55 | the view equals the whole ledger iff every record matches |
| `View.FilteredUnset` | src/pages/Index.jsx:112 | with the initial or reset criteria, every record is displayed, in order |
| `View.FilteredIdempotent` | src/pages/Index.jsx:49-55 | filtering the view again with the same criteria changes nothing |
| `View.EmptyDateRange` | src/pages/Index.jsx:52-53 | two set date bounds with the end before the start hide every record |
| `View.DisplayedRowPosition` | src/pages/Index.jsx:125-133 | the index a row's Edit or Delete button passes is a valid ledger position; the record shown there is at that position or a later one |
| `View.RowsAtOwnPositionPrefix` | src/pages/Index.jsx:125-133 | if every displayed row sits at its own ledger position, then below every matching record all records match |
| `View.PrefixRowsAtOwnPosition` | src/pages/Index.jsx:125-133 | if the matching records form a prefix of the ledger, every displayed row sits at its own ledger position |
| `View.RowsAtOwnPositionIff` | src/pages/Index.jsx:125-133 | the Edit and Delete buttons of every row address the record the row shows iff the matching records form a prefix of the ledger |
| `View.OfKind` | src/pages/Index.jsx:57-59 | the inner filter of each total is exactly the view under criteria that select that type alone: every record of the kind is kept, in order, and no other |
| `View.Sum` | src/pages/Index.jsx:57 | definition: the amounts folded from the left starting at 0, as the `reduce` of each total; properties in `SumAppend`, `SumByKind`, `SumNonNegative` |
| `View.Total` | src/pages/Index.jsx:57 | definition: the sum of the amounts of one kind over the view; properties in `TotalsUnderKindFilter`, `TotalNonNegative` |
| `View.TotalIncome` | src/pages/Index.jsx:57 | definition: the total of the income records in the view; properties in `TotalsCoverView`, `TotalsUnderKindFilter` |
| `View.TotalExpense` | src/pages/Index.jsx:59 | definition: the total of the expense records in the view; properties in `TotalsCoverView`, `TotalsUnderKindFilter` |
| `View.Balance` | src/pages/Index.jsx:61 | definition: total income minus total expense; property in `BalanceIsSignedSum` |
| `View.SumAppend` | src/pages/Index.jsx:57 | the sum of the amounts of a concatenation is the sum of the two sums |
| `View.SumByKind` | src/pages/Index.jsx:57-59 | the income sum and the expense sum of a list add up to the sum of all its amounts |
| `View.SignedSumByKind` | src/pages/Index.jsx:57-61 | income sum minus expense sum is the sum of the signed amounts |
| `View.TotalsCoverView` | src/pages/Index.jsx:57-59 | total income plus total expense is the sum of all displayed amounts |
| `View.BalanceIsSignedSum` | src/pages/Index.jsx:61 | the balance is the sum of the displayed amounts, income counted positive and expense negative |
| `View.TotalsUnderKindFilter` | src/pages/Index.jsx:57-59 | with the type criterion on one kind, the other kind's total is 0 and the selected kind's total is the sum over the view |
| `View.SumNonNegative` | src/pages/Index.jsx:57 | the sum of non-negative amounts is non-negative |
| `View.TotalNonNegative` | src/pages/Index.jsx:57-59 | if every amount in the ledger is non-negative, so are both totals, whatever the criteria |
| `View.ExpenseFilterExample` | src/pages/Index.jsx:49-61 | an income and an expense filtered to expenses: the view is the expense, totals 0 and 200, balance -200, and displayed row 0 is not ledger position 0 |
| `Budget.Page.constructor` | src/pages/Index.jsx:6-12 | the page starts with an empty ledger, a default form, unset criteria and no edit cursor |
| `Budget.Page.Pending` | src/pages/Index.jsx:18 | definition: the record `{date, amount, type, category}` built from the form fields, as at lines 18 and 22; used by `Submit` and `Edit` |
| `Budget.Page.Submit` | src/pages/Index.jsx:14-28 | not editing: appends the form's record. Editing: replaces only the record at the cursor, keeping the length. A cursor at the length appends. Afterwards the cursor is cleared and the form is at its defaults |
| `Budget.Page.Edit` | src/pages/Index.jsx:30-37 | the form holds exactly the record at the given ledger position, the cursor is that position, and the ledger is unchanged |
| `Budget.Page.Delete` | src/pages/Index.jsx:39-43 | the length shrinks by one. Earlier records stay. Later records move down one in order. Exactly one copy of the removed record leaves the multiset. Form, cursor and criteria are unchanged |
| `Budget.Page.SetFilter` | src/pages/Index.jsx:45-47 | exactly the named criterion takes the new value; everything else is unchanged |
| `Budget.Page.ResetFilter` | src/pages/Index.jsx:112 | the criteria become all-unset, so the table shows the whole ledger; nothing else changes |
| `Budget.EditThenSubmit` | src/pages/Index.jsx:14-37 | Edit at a position, then submitting the untouched form, leaves the ledger unchanged and the form at its defaults |
| `Budget.AddThenDelete` | src/pages/Index.jsx:14-43 | adding a record and deleting the last position restores the ledger |
| `Budget.DeleteBeforeEditedRow` | src/pages/Index.jsx:14-43 | deleting the first row during an edit of record `i`: the new ledger is the old one without its first record and with position `i` (the old record `i + 1`, now lost) overwritten by the edited record, which also stays at `i - 1`; the cursor is cleared and the form is at its defaults |
| `Budget.DeleteEditedLastRow` | src/pages/Index.jsx:14-43 | deleting the last row while editing it, then submitting, puts the record back: the ledger is as before |
| `Budget.RecategoriseOutOfView` | src/pages/Index.jsx:14-55 | editing a record into a category the criteria exclude keeps it in the ledger but removes it from the table |

## Left out

- Rendering, the Chakra UI widgets, icons and table layout (`src/pages/Index.jsx:73-154`)
  are presentation only. The `onChange` setters of the form inputs are not separate
  operations; a caller assigns the form fields of `Page` directly.
- The JSON export (`src/pages/Index.jsx:63-71`) is left out. It goes through
  `JSON.stringify`, `Blob`, object URLs and a DOM anchor click.
- Parsing and formatting of amounts are left out: `parseFloat` and its NaN result,
  `toString` in `handleEdit`, `toFixed(2)` on display. An entered amount is already an
  exact number, and `Edit` loads it back unchanged. Floating-point rounding of the sums
  is not modelled: sums are exact over `real`.
- `Budget.Page.Submit`: requires the amount input to hold a number. This is the input's
  `required` attribute, which stops the browser from submitting. The date input's
  `required` attribute is not modelled, so the model accepts an empty date.
- `Budget.Page.Submit`: requires the edit cursor to be at most the ledger length. A cursor
  further out can only arise after deleting several rows during an edit. The code would
  then assign past the end of the array and leave holes that the next handler spreads
  into `undefined` records. That sparse-array state is not modelled.
- Amounts are not checked for sign; the model, like the code, accepts any number.
  `View.TotalNonNegative` states what follows when they are non-negative.
- JavaScript compares strings by UTF-16 code unit; Dafny characters are Unicode scalar
  values. The two orders agree on the ASCII text of `YYYY-MM-DD` dates.
- React's state mechanics (`useState`, batched setter calls, re-rendering) are left out.
  Each handler's setter calls are applied as one update of `Page`.
