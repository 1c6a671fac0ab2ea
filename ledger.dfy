/**
 * The pure list transformations behind the expense tracker's handlers
 * (`[...prev, newEntry]`, `prev.map`, `prev.filter`) and the summary totals
 * (`filter` followed by `reduce`).
 *
 * Every recursive definition peels the LAST element, so that it follows a
 * left-to-right fold such as `reduce` and a loop over `es[..i]`.
 */
module Ledger {
  import opened Entries

  /** The guard of the submit handler: non-empty description and date, positive amount. */
  predicate ValidInput(description: string, amount: int, date: string) {
    description != "" && amount > 0 && date != ""
  }

  /** An entry whose fields passed the submit guard. */
  predicate WellFormed(e: Entry) {
    ValidInput(e.description, e.amount, e.date)
  }

  predicate AllWellFormed(es: seq<Entry>) {
    forall i :: 0 <= i < |es| ==> WellFormed(es[i])
  }

  /** Some entry of `es` carries `id`. */
  predicate HasId(es: seq<Entry>, id: int) {
    exists i :: 0 <= i < |es| && es[i].id == id
  }

  /**
   * The edit branch of the submit handler: every entry whose id is `id`
   * takes the four form fields and keeps its id and position; every other
   * entry is left as it was.
   */
  function Replaced(es: seq<Entry>, id: int, kind: EntryType, description: string, amount: int, date: string): (r: seq<Entry>)
    ensures |r| == |es|
    ensures forall i :: 0 <= i < |r| ==> r[i].id == es[i].id
    ensures forall i :: 0 <= i < |r| && es[i].id == id ==> r[i] == Entry(id, kind, description, amount, date)
    ensures forall i :: 0 <= i < |r| && es[i].id != id ==> r[i] == es[i]
    ensures !HasId(es, id) ==> r == es
  {
    if es == [] then []
    else
      var last := es[|es| - 1];
      Replaced(es[..|es| - 1], id, kind, description, amount, date)
        + [if last.id == id then last.(kind := kind, description := description, amount := amount, date := date) else last]
  }

  /**
   * The delete handler's filter: exactly the entries whose id is `id` go,
   * every other entry stays with its multiplicity.
   */
  function Removed(es: seq<Entry>, id: int): (r: seq<Entry>)
    ensures forall i :: 0 <= i < |r| ==> r[i].id != id
    ensures |r| <= |es|
  {
    if es == [] then []
    else
      var init, last := es[..|es| - 1], es[|es| - 1];
      assert es == init + [last];
      Removed(init, id) + (if last.id == id then [] else [last])
  }

  /** The filter `e.type === t` of the totals. */
  function OfType(es: seq<Entry>, t: EntryType): (r: seq<Entry>)
    ensures forall i :: 0 <= i < |r| ==> r[i].kind == t
    ensures |r| <= |es|
  {
    if es == [] then []
    else
      var init, last := es[..|es| - 1], es[|es| - 1];
      assert es == init + [last];
      OfType(init, t) + (if last.kind == t then [last] else [])
  }

  /** `reduce((sum, e) => sum + e.amount, 0)`. */
  function SumAmounts(es: seq<Entry>): int {
    if es == [] then 0 else SumAmounts(es[..|es| - 1]) + es[|es| - 1].amount
  }

  /** The sum of the amounts of the entries of kind `t`. */
  function TotalOf(es: seq<Entry>, t: EntryType): int {
    SumAmounts(OfType(es, t))
  }

  function TotalIncome(es: seq<Entry>): int {
    TotalOf(es, Income)
  }

  function TotalExpense(es: seq<Entry>): int {
    TotalOf(es, Expense)
  }

  function Balance(es: seq<Entry>): int {
    TotalIncome(es) - TotalExpense(es)
  }

  /** The contribution of one entry to the total of kind `t`. */
  function Share(e: Entry, t: EntryType): int {
    if e.kind == t then e.amount else 0
  }

  /** Appending one entry moves exactly the total of its own kind, by its amount. */
  lemma {:induction false} TotalOfAppend(es: seq<Entry>, e: Entry, t: EntryType)
    ensures TotalOf(es + [e], t) == TotalOf(es, t) + Share(e, t)
  {
    assert (es + [e])[..|es|] == es;
    var f := OfType(es, t);
    if e.kind == t {
      assert OfType(es + [e], t) == f + [e];
      assert (f + [e])[..|f|] == f;
      assert SumAmounts(f + [e]) == SumAmounts(f) + e.amount;
    } else {
      assert OfType(es + [e], t) == f;
    }
  }

  /** The balance after an append moves up by an income and down by an expense. */
  lemma {:induction false} BalanceAfterAppend(es: seq<Entry>, e: Entry)
    ensures Balance(es + [e]) == Balance(es) + Share(e, Income) - Share(e, Expense)
  {
    TotalOfAppend(es, e, Income);
    TotalOfAppend(es, e, Expense);
  }

  /** Every entry is Income or Expense, so the two totals add up to the sum of all amounts. */
  lemma {:induction false} TotalsCoverAll(es: seq<Entry>)
    ensures TotalIncome(es) + TotalExpense(es) == SumAmounts(es)
    ensures es == [] ==> TotalIncome(es) == 0 && TotalExpense(es) == 0 && Balance(es) == 0
  {
    if es != [] {
      var init, last := es[..|es| - 1], es[|es| - 1];
      assert es == init + [last];
      TotalsCoverAll(init);
      TotalOfAppend(init, last, Income);
      TotalOfAppend(init, last, Expense);
    }
  }

  /** Over stored (validated) entries no total is negative. */
  lemma {:induction false} TotalsNonNegative(es: seq<Entry>, t: EntryType)
    requires AllWellFormed(es)
    ensures TotalOf(es, t) >= 0
  {
    if es != [] {
      var init, last := es[..|es| - 1], es[|es| - 1];
      assert es == init + [last];
      TotalsNonNegative(init, t);
      TotalOfAppend(init, last, t);
    }
  }

  /** Deleting removes every copy of an entry with that id and keeps every other entry as often as it occurred. */
  lemma {:induction false} RemovedCounts(es: seq<Entry>, id: int, x: Entry)
    ensures multiset(Removed(es, id))[x] == if x.id == id then 0 else multiset(es)[x]
  {
    if es != [] {
      var init, last := es[..|es| - 1], es[|es| - 1];
      assert es == init + [last];
      RemovedCounts(init, id, x);
    }
  }

  /** The filter keeps exactly the entries whose id differs. */
  lemma RemovedMembers(es: seq<Entry>, id: int)
    ensures forall x :: x in Removed(es, id) <==> x in es && x.id != id
  {
    forall x ensures x in Removed(es, id) <==> x in es && x.id != id {
      RemovedCounts(es, id, x);
      assert x in Removed(es, id) <==> x in multiset(Removed(es, id));
      assert x in es <==> x in multiset(es);
    }
  }

  /** The type filter keeps every entry of type `t`, as often as it occurred, and no other. */
  lemma {:induction false} OfTypeCounts(es: seq<Entry>, t: EntryType, x: Entry)
    ensures multiset(OfType(es, t))[x] == if x.kind == t then multiset(es)[x] else 0
  {
    if es != [] {
      var init, last := es[..|es| - 1], es[|es| - 1];
      assert es == init + [last];
      OfTypeCounts(init, t, x);
    }
  }

  /** Filtering by id twice is filtering once. */
  lemma {:induction false} RemovedIdempotent(es: seq<Entry>, id: int)
    ensures Removed(Removed(es, id), id) == Removed(es, id)
  {
    if es != [] {
      var init, last := es[..|es| - 1], es[|es| - 1];
      RemovedIdempotent(init, id);
      var r := Removed(init, id);
      if last.id == id {
        assert Removed(es, id) == r;
      } else {
        assert Removed(es, id) == r + [last];
        assert (r + [last])[..|r|] == r;
        assert Removed(r + [last], id) == Removed(r, id) + [last];
      }
    }
  }

  /** The filter acts on each part of a concatenation separately: relative order is kept. */
  lemma {:induction false} RemovedDistributes(a: seq<Entry>, b: seq<Entry>, id: int)
    ensures Removed(a + b, id) == Removed(a, id) + Removed(b, id)
  {
    if b == [] {
      assert a + b == a;
    } else {
      var init, last := b[..|b| - 1], b[|b| - 1];
      var tail := if last.id == id then [] else [last];
      var ab := a + b;
      assert ab[..|ab| - 1] == a + init && ab[|ab| - 1] == last;
      assert Removed(ab, id) == Removed(a + init, id) + tail;
      assert Removed(b, id) == Removed(init, id) + tail;
      RemovedDistributes(a, init, id);
      assert Removed(ab, id) == (Removed(a, id) + Removed(init, id)) + tail;
    }
  }


  /** Deleting an id that no entry carries leaves the list as it is. */
  lemma {:induction false} RemovedAbsent(es: seq<Entry>, id: int)
    requires !HasId(es, id)
    ensures Removed(es, id) == es
  {
    if es != [] {
      var init, last := es[..|es| - 1], es[|es| - 1];
      assert !HasId(init, id) by {
        forall i | 0 <= i < |init| ensures init[i].id != id { assert init[i] == es[i]; }
      }
      RemovedAbsent(init, id);
      assert last == es[|es| - 1];
      assert es == init + [last];
    }
  }

  /** Deleting keeps the stored-entry invariant. */
  lemma RemovedWellFormed(es: seq<Entry>, id: int)
    requires AllWellFormed(es)
    ensures AllWellFormed(Removed(es, id))
  {
    var r := Removed(es, id);
    RemovedMembers(es, id);
    forall i | 0 <= i < |r| ensures WellFormed(r[i]) {
      assert r[i] in r;
      var j :| 0 <= j < |es| && es[j] == r[i];
    }
  }

  /** Writing validated form fields keeps the stored-entry invariant. */
  lemma ReplacedWellFormed(es: seq<Entry>, id: int, kind: EntryType, description: string, amount: int, date: string)
    requires AllWellFormed(es)
    requires ValidInput(description, amount, date)
    ensures AllWellFormed(Replaced(es, id, kind, description, amount, date))
  {
  }

  /**
   * Writing an entry's own fields back under its id changes nothing, as long
   * as no other entry shares that id.
   */
  lemma ReplacedWithOwnFields(es: seq<Entry>, e: Entry)
    requires e in es
    requires forall i :: 0 <= i < |es| && es[i].id == e.id ==> es[i] == e
    ensures Replaced(es, e.id, e.kind, e.description, e.amount, e.date) == es
  {
  }
}
