/**
 * Chronological order of the `yyyy-mm-dd` strings a date input produces.
 * For such strings comparing the parsed times, as the chart's sort does,
 * orders them exactly as comparing the text character by character; this
 * module defines that lexicographic order, proves it a strict total order
 * and sorts date keys with it.
 */
module Dates {

  /** `a` comes strictly before `b`. */
  predicate Before(a: string, b: string) {
    if a == [] then b != []
    else if b == [] then false
    else if a[0] != b[0] then a[0] < b[0]
    else Before(a[1..], b[1..])
  }

  /** `a` comes before `b` or is the same date. */
  predicate AtOrBefore(a: string, b: string) {
    a == b || Before(a, b)
  }

  lemma {:induction false} BeforeIrreflexive(a: string)
    ensures !Before(a, a)
  {
    if a != [] {
      BeforeIrreflexive(a[1..]);
    }
  }

  lemma {:induction false} BeforeTransitive(a: string, b: string, c: string)
    requires Before(a, b) && Before(b, c)
    ensures Before(a, c)
  {
    if a != [] && a[0] == b[0] && b[0] == c[0] {
      BeforeTransitive(a[1..], b[1..], c[1..]);
    }
  }

  /** Two different dates are always ordered one way or the other, and never both. */
  lemma {:induction false} BeforeTotal(a: string, b: string)
    ensures a != b <==> Before(a, b) || Before(b, a)
    ensures !(Before(a, b) && Before(b, a))
  {
    if a != [] && b != [] && a[0] == b[0] {
      BeforeTotal(a[1..], b[1..]);
      assert a == [a[0]] + a[1..] && b == [b[0]] + b[1..];
    } else if a == b {
      BeforeIrreflexive(a);
    }
  }

  /** Ascending: no date comes after a later one. */
  predicate Ascending(s: seq<string>) {
    forall i, j :: 0 <= i < j < |s| ==> AtOrBefore(s[i], s[j])
  }

  /** Strictly ascending: ascending and free of repeats. */
  predicate StrictlyAscending(s: seq<string>) {
    forall i, j :: 0 <= i < j < |s| ==> Before(s[i], s[j])
  }

  predicate NoDuplicates<T(==)>(s: seq<T>) {
    forall i, j :: 0 <= i < j < |s| ==> s[i] != s[j]
  }

  /** Inserts `d` into an ascending sequence, before the first date not earlier than it. */
  function Insert(d: string, s: seq<string>): (r: seq<string>)
    requires Ascending(s)
    ensures Ascending(r)
    ensures multiset(r) == multiset(s) + multiset{d}
  {
    if s == [] then [d]
    else if !Before(s[0], d) then
      BeforeTotal(s[0], d);
      forall k | 0 < k < |s| ensures AtOrBefore(d, s[k]) {
        if d != s[0] && s[0] != s[k] { BeforeTransitive(d, s[0], s[k]); }
      }
      [d] + s
    else
      var t := Insert(d, s[1..]);
      assert s == [s[0]] + s[1..];
      forall k | 0 <= k < |t| ensures AtOrBefore(s[0], t[k]) {
        assert t[k] in multiset(t);
        assert t[k] in multiset(s[1..]) || t[k] == d;
        if t[k] != d {
          var m :| 0 <= m < |s[1..]| && s[1..][m] == t[k];
          assert s[m + 1] == t[k];
        }
      }
      [s[0]] + t
  }

  /**
   * The comparator sort of the chart's date keys: an ascending permutation
   * of its input.
   */
  function SortDates(ds: seq<string>): (r: seq<string>)
    ensures Ascending(r)
    ensures multiset(r) == multiset(ds)
  {
    if ds == [] then []
    else
      assert ds == [ds[0]] + ds[1..];
      Insert(ds[0], SortDates(ds[1..]))
  }

  /** A sequence is free of repeats exactly when no element occurs twice in its multiset. */
  lemma {:induction false} NoDuplicatesMultiset<T>(s: seq<T>)
    ensures NoDuplicates(s) <==> forall x :: multiset(s)[x] <= 1
  {
    if s != [] {
      var h, t := s[0], s[1..];
      assert s == [h] + t;
      NoDuplicatesMultiset(t);
      if NoDuplicates(s) {
        assert NoDuplicates(t) by {
          forall i, j | 0 <= i < j < |t| ensures t[i] != t[j] { assert t[i] == s[i + 1] && t[j] == s[j + 1]; }
        }
        forall k | 0 <= k < |t| ensures t[k] != h { assert t[k] == s[k + 1]; }
        assert h !in t;
      } else {
        var i, j :| 0 <= i < j < |s| && s[i] == s[j];
        if i == 0 {
          assert s[j] in t by { assert t[j - 1] == s[j]; }
          assert multiset(s)[h] >= 2;
        } else {
          assert t[i - 1] == t[j - 1];
          assert !NoDuplicates(t);
          var x :| multiset(t)[x] > 1;
          assert multiset(s) == multiset{h} + multiset(t);
          assert multiset(s)[x] > 1;
        }
      }
    }
  }

  /** Sorting repeat-free keys gives them in strictly ascending order, each once. */
  lemma SortedKeysStrict(ds: seq<string>)
    requires NoDuplicates(ds)
    ensures StrictlyAscending(SortDates(ds))
    ensures NoDuplicates(SortDates(ds))
    ensures forall d :: d in SortDates(ds) <==> d in ds
  {
    var r := SortDates(ds);
    NoDuplicatesMultiset(ds);
    NoDuplicatesMultiset(r);
    forall d ensures d in r <==> d in ds {
      assert d in r <==> d in multiset(r);
    }
    forall i, j | 0 <= i < j < |r| ensures Before(r[i], r[j]) {
      assert AtOrBefore(r[i], r[j]);
    }
  }
}
