# Expense tracker: entry store and chart aggregation

A Dafny model of the two pieces of logic inside the expense tracker's React
components:

- the **entry store and form state machine** of `ExpenseTracker`: an
  insertion-ordered list of income/expense entries, the four form fields
  (description, amount, type, date), the edit cursor `editId`, the three
  handlers that change them (submit, delete, edit) and the summary totals
  (total income, total expense, balance);
- the **date-bucket aggregation** of `ChartDisplay`: the fold of the entries
  into one `{Income, Expense}` bucket per date, the chronological sort of the
  dates, the two series aligned with the sorted dates, and the "no data"
  placeholder for an empty list.

Files:

- `entry.dfy` (module `Entries`): the `Entry` record and the `Income | Expense` union.
- `ledger.dfy` (module `Ledger`): the list transforms the handlers apply
  (`Replaced` for the edit branch's `map`, `Removed` for the delete handler's
  `filter`), the totals as `filter` then `reduce`, and their lemmas.
- `expense_tracker.dfy` (module `ExpenseTracker`): class `Tracker` whose
  fields are the component's state and whose methods are its handlers; two
  client methods for handler sequences.
- `dates.dfy` (module `Dates`): the chronological order of `yyyy-mm-dd`
  strings, proved a strict total order, and the comparator sort of date keys.
- `chart_display.dfy` (module `ChartDisplay`): the per-date fold as a loop
  over a map, the chart it renders, and the conservation of the totals.

Modelling choices:

- Amounts are exact integers, not JavaScript numbers.
- The entry's `type` field is called `kind`, since `type` is a Dafny keyword.
- The clock reading used as a new entry's id is a parameter (`freshId`) of
  `Tracker.AddEntry`. Nothing claims ids are unique, because the code never checks.
- The `alert` on invalid input becomes `accepted == false` with no state change.
- Dates are the strings a date input yields. For `yyyy-mm-dd` strings,
  comparing parsed times, as the chart's sort does, is the same as comparing
  the text character by character. `Dates.Before` is that order.
- `Object.keys` is modelled by the `keys` sequence that `Aggregate` returns:
  each date once, in the order the fold first met it.

Behaviour of the code that a reader might not expect, kept as written:

- Deleting an entry does not clear the edit cursor
  (`src/components/ExpenseTracker.tsx:55-57`).
- A submit in edit mode whose id no longer matches any entry raises no
  not-found error. It rewrites nothing, clears the cursor and resets the
  form, so the typed values are lost. `ExpenseTracker.DeleteThenUpdate`
  states this.
- The edit handler takes an entry, not an id, and cannot fail.
- Invalid input leaves the form as it was. No error value is returned; only an alert is shown.

## Model

| member | source | states |
|---|---|---|
| Ledger.Replaced | src/components/ExpenseTracker.tsx:28-34 | the edit branch keeps length, order and every id; entries with the edited id take the four form fields, all others are unchanged; with no entry carrying the id the list is unchanged |
| Ledger.Removed | src/components/ExpenseTracker.tsx:55-57 | after delete no entry carries the id and the list is no longer than before |
| Ledger.RemovedMembers | src/components/ExpenseTracker.tsx:56 | an entry survives delete exactly when it was listed and its id differs |
| Ledger.RemovedCounts | src/components/ExpenseTracker.tsx:56 | delete drops every copy of an entry with the id and keeps each other entry as many times as it occurred |
| Ledger.RemovedDistributes | src/components/ExpenseTracker.tsx:56 | delete filters each part of a concatenation on its own, so survivors keep their relative order |
| Ledger.RemovedIdempotent | src/components/ExpenseTracker.tsx:56 | deleting the same id twice gives the same list as deleting it once |
| Ledger.RemovedAbsent | src/components/ExpenseTracker.tsx:56 | deleting an id no entry carries leaves the list unchanged |
| Ledger.RemovedWellFormed | src/components/ExpenseTracker.tsx:56 | deletion keeps every stored entry's description and date non-empty and its amount positive |
| Ledger.ReplacedWellFormed | src/components/ExpenseTracker.tsx:21-31 | an edit that passed the guard keeps every stored entry valid |
| Ledger.ReplacedWithOwnFields | src/components/ExpenseTracker.tsx:28-34 | writing an entry's own fields back under its unique id leaves the list unchanged |
| Ledger.OfType | src/components/ExpenseTracker.tsx:67-72 | the totals' type filter returns only entries of the given type and never lengthens the list |
| Ledger.OfTypeCounts | src/components/ExpenseTracker.tsx:67-72 | the type filter keeps every entry of the given type as often as it occurred, and nothing else |
| Ledger.TotalOfAppend | src/components/ExpenseTracker.tsx:67-72 | appending an entry raises the total of its own type by its amount and leaves the other total alone |
| Ledger.BalanceAfterAppend | src/components/ExpenseTracker.tsx:67-73 | after an append the balance moves up by the amount of an income and down by the amount of an expense |
| Ledger.TotalsCoverAll | src/components/ExpenseTracker.tsx:67-73 | total income plus total expense is the sum of all amounts; all three figures are 0 for an empty list |
| Ledger.TotalsNonNegative | src/components/ExpenseTracker.tsx:67-72 | over stored entries, which passed the guard, neither total is negative |
| ExpenseTracker.Tracker.constructor | src/components/ExpenseTracker.tsx:13-18 | the initial state is no entries, the cleared form `""`, `0`, Income, `""` and no edit cursor |
| ExpenseTracker.Tracker.AddEntry | src/components/ExpenseTracker.tsx:20-53 | invalid input changes nothing. Valid input with no cursor appends one entry built from the form. Valid input with a cursor rewrites the entries with that id. Either success clears the cursor and resets the form, and every stored entry stays valid |
| ExpenseTracker.Tracker.DeleteEntry | src/components/ExpenseTracker.tsx:55-57 | the list becomes the filtered list; the cursor and the form are untouched |
| ExpenseTracker.Tracker.EditEntry | src/components/ExpenseTracker.tsx:59-65 | the cursor becomes the entry's id and the form its fields; the list is untouched |
| ExpenseTracker.EditThenUpdate | src/components/ExpenseTracker.tsx:20-65 | edit on a listed entry with a unique id, then submit, leaves the list unchanged, the cursor cleared and the form reset |
| ExpenseTracker.DeleteThenUpdate | src/components/ExpenseTracker.tsx:20-57 | deleting the entry under edit and then submitting valid input only deletes: nothing is rewritten, the cursor is cleared, the form is reset |
| Dates.BeforeIrreflexive | src/components/ChartDisplay.tsx:36 | no date sorts before itself |
| Dates.BeforeTransitive | src/components/ChartDisplay.tsx:36 | the date order is transitive |
| Dates.BeforeTotal | src/components/ChartDisplay.tsx:36 | two different dates are ordered one way, and never both ways |
| Dates.Insert | src/components/ChartDisplay.tsx:36 | inserting into an ascending list keeps it ascending and adds exactly that date |
| Dates.SortDates | src/components/ChartDisplay.tsx:36 | the sorted dates are ascending and a permutation of the keys |
| Dates.SortedKeysStrict | src/components/ChartDisplay.tsx:36 | sorting repeat-free keys gives exactly those keys, each once, in strictly ascending order |
| ChartDisplay.DatesOfIsDates | src/components/ChartDisplay.tsx:24-33 | a date is a bucket key exactly when some entry carries it, so there are never more buckets than entries |
| ChartDisplay.DaySumAbsent | src/components/ChartDisplay.tsx:27 | a bucket starts at zero: a date with no entries has zero sums |
| ChartDisplay.Aggregate | src/components/ChartDisplay.tsx:24-33 | the keys are the distinct entry dates. Each bucket holds the day's Income sum and Expense sum, 0 for a type with no entries that day, whatever the ids. The key list names each key once |
| ChartDisplay.SeriesConserves | src/components/ChartDisplay.tsx:44-50 | a series of day sums over repeat-free dates covering every entry date adds up to the summary total of that type |
| ChartDisplay.Render | src/components/ChartDisplay.tsx:24-99 | no entries gives the "no data" placeholder, and only then. Otherwise the labels are the distinct dates in ascending order, both series align with them and hold that day's sums, and each series adds up to the summary total |

## Left out

- The JSX markup, styles and `onChange` wiring of both components. The form fields are public fields of `Tracker`, which a caller may assign directly.
- The `alert` call: modelled as "no state change" and `accepted == false`.
- `Date.now()`: replaced by the `freshId` parameter. Ids are not claimed unique.
- JavaScript floating-point amounts and `Number(...)` parsing of the amount input: amounts are exact integers.
- Date parsing with `new Date(...).getTime()`: replaced by the lexicographic order of the date text, which matches it for `yyyy-mm-dd` strings. Strings that do not parse as dates are not modelled.
- The `toLocaleDateString()` label formatting: the labels are the date keys themselves.
- Chart.js registration, chart options, tooltip and tick formatting, the `incomeColor`/`expenseColor` props and the `<Bar>` rendering are presentation.
- `src/main.tsx` and `src/App.tsx` hold only bootstrap and layout.
- ExpenseTracker.EditThenUpdate: requires that no other entry shares the edited entry's id. The code never checks ids for uniqueness, and with a repeated id the submit overwrites every entry carrying it with the edited entry's fields.
- React's state batching and render closures: each handler is modelled as one sequential step on the current state.
