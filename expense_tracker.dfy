/**
 * The state of the expense tracker component: the entry list, the four form
 * fields and the edit cursor, with the three handlers that change them.
 */
module ExpenseTracker {
  import opened Entries
  import opened Ledger

  class Tracker {
    var entries: seq<Entry>
    var description: string
    var amount: int
    var kind: EntryType
    var date: string
    /** The id of the entry being edited; `None` is the source's `null`. */
    var editId: Option<int>

    /** Only validated form values are ever stored. */
    ghost predicate Valid()
      reads this
    {
      AllWellFormed(entries)
    }

    /** The form as it is after a successful submit and at start-up. */
    ghost predicate FormCleared()
      reads this
    {
      description == "" && amount == 0 && kind == Income && date == ""
    }

    /** The initial state: no entries, an empty form and no edit in progress. */
    constructor ()
      ensures Valid()
      ensures entries == [] && FormCleared() && editId == None
    {
      entries := [];
      description, amount, kind, date := "", 0, Income, "";
      editId := None;
    }

    /**
     * The submit handler. `freshId` stands for the clock reading the source
     * takes as the id of a new entry. Invalid input changes nothing and is
     * reported by `accepted == false`; valid input appends a new entry (no
     * edit in progress) or rewrites every entry with the edited id, then
     * clears the cursor and the form.
     */
    method AddEntry(freshId: int) returns (accepted: bool)
      requires Valid()
      modifies this
      ensures Valid()
      ensures accepted <==> ValidInput(old(description), old(amount), old(date))
      ensures !accepted ==>
        entries == old(entries) && editId == old(editId) &&
        description == old(description) && amount == old(amount) && kind == old(kind) && date == old(date)
      ensures accepted && old(editId) == None ==>
        entries == old(entries) + [Entry(freshId, old(kind), old(description), old(amount), old(date))]
      ensures accepted && old(editId).Some? ==>
        entries == Replaced(old(entries), old(editId).value, old(kind), old(description), old(amount), old(date))
      ensures accepted ==> editId == None && FormCleared()
    {
      if !ValidInput(description, amount, date) {
        return false;
      }
      if editId.Some? {
        ReplacedWellFormed(entries, editId.value, kind, description, amount, date);
        entries := Replaced(entries, editId.value, kind, description, amount, date);
        editId := None;
      } else {
        var newEntry := Entry(freshId, kind, description, amount, date);
        entries := entries + [newEntry];
      }
      description, amount, kind, date := "", 0, Income, "";
      return true;
    }

    /** The delete handler: drops every entry with `id`; the cursor and the form are not touched. */
    method DeleteEntry(id: int)
      requires Valid()
      modifies this
      ensures Valid()
      ensures entries == Removed(old(entries), id)
      ensures editId == old(editId)
      ensures description == old(description) && amount == old(amount) && kind == old(kind) && date == old(date)
    {
      RemovedWellFormed(entries, id);
      entries := Removed(entries, id);
    }

    /** The edit handler: points the cursor at `e` and loads its fields into the form. */
    method EditEntry(e: Entry)
      requires Valid()
      modifies this
      ensures Valid()
      ensures entries == old(entries)
      ensures editId == Some(e.id)
      ensures description == e.description && amount == e.amount && kind == e.kind && date == e.date
    {
      editId := Some(e.id);
      description := e.description;
      amount := e.amount;
      kind := e.kind;
      date := e.date;
    }
  }

  /**
   * Pressing Edit on a listed entry and then Update without touching the
   * form leaves the list as it was and ends the edit, provided no other
   * entry shares the entry's id.
   */
  method EditThenUpdate(t: Tracker, e: Entry, freshId: int)
    requires t.Valid()
    requires e in t.entries
    requires forall i :: 0 <= i < |t.entries| && t.entries[i].id == e.id ==> t.entries[i] == e
    modifies t
    ensures t.Valid()
    ensures t.entries == old(t.entries)
    ensures t.editId == None && t.FormCleared()
  {
    t.EditEntry(e);
    var accepted := t.AddEntry(freshId);
    assert accepted;
    ReplacedWithOwnFields(old(t.entries), e);
  }

  /**
   * Deleting the entry being edited leaves the cursor on its id; the next
   * valid submit then rewrites nothing, clears the cursor and drops the form.
   */
  method DeleteThenUpdate(t: Tracker, id: int, freshId: int)
    requires t.Valid()
    requires t.editId == Some(id)
    requires ValidInput(t.description, t.amount, t.date)
    modifies t
    ensures t.Valid()
    ensures t.entries == Removed(old(t.entries), id)
    ensures t.editId == None && t.FormCleared()
  {
    t.DeleteEntry(id);
    var accepted := t.AddEntry(freshId);
    assert accepted;
  }
}
