/** The record kept for every income or expense line of the tracker. */
module Entries {

  datatype Option<+T> = None | Some(value: T)

  /** The closed union `"Income" | "Expense"` of the entry's `type` field. */
  datatype EntryType = Income | Expense

  /**
   * One entry. `kind` is the source's `type` field (a Dafny keyword);
   * `amount` is an exact integer instead of a JavaScript number and `date`
   * is the `yyyy-mm-dd` text of a date input.
   */
  datatype Entry = Entry(id: int, kind: EntryType, description: string, amount: int, date: string)
}
