/**
 * The chart component's data preparation: entries are folded into one
 * `{ Income, Expense }` bucket per date, the dates are sorted
 * chronologically and two series aligned with the sorted dates are read off
 * the buckets; with no entries a placeholder is shown instead.
 */
module ChartDisplay {
  import opened Entries
  import opened Ledger
  import opened Dates

  /** The accumulator record kept per date. */
  datatype Bucket = Bucket(income: int, expense: int) {
    /** `acc[date][type] += amount`. */
    function Add(t: EntryType, amount: int): Bucket {
      match t
      case Income => this.(income := income + amount)
      case Expense => this.(expense := expense + amount)
    }
  }

  /** The accumulator of the fold: one bucket per date. */
  type Buckets = map<string, Bucket>

  /** What the component shows: the "no data" placeholder, or a bar chart with its labels and two series. */
  datatype Chart = NoData | Bars(labels: seq<string>, income: seq<int>, expense: seq<int>)

  /** The distinct dates occurring in `es`. */
  function DatesOf(es: seq<Entry>): set<string> {
    if es == [] then {} else DatesOf(es[..|es| - 1]) + {es[|es| - 1].date}
  }

  /** The sum of the amounts of the entries of kind `t` dated `d`. */
  function DaySum(es: seq<Entry>, d: string, t: EntryType): int {
    if es == [] then 0
    else
      var last := es[|es| - 1];
      DaySum(es[..|es| - 1], d, t) + (if last.date == d then Share(last, t) else 0)
  }

  /** The sum of a series of numbers. */
  function Sum(xs: seq<int>): int {
    if xs == [] then 0 else Sum(xs[..|xs| - 1]) + xs[|xs| - 1]
  }

  /** A date is a bucket key exactly when some entry carries it; there are never more keys than entries. */
  lemma {:induction false} DatesOfIsDates(es: seq<Entry>)
    ensures forall d :: d in DatesOf(es) <==> exists i :: 0 <= i < |es| && es[i].date == d
    ensures |DatesOf(es)| <= |es|
  {
    if es != [] {
      var init := es[..|es| - 1];
      DatesOfIsDates(init);
      forall d ensures d in DatesOf(es) <==> exists i :: 0 <= i < |es| && es[i].date == d {
        if d in DatesOf(init) {
          var i :| 0 <= i < |init| && init[i].date == d;
          assert es[i].date == d;
        }
        if exists i :: 0 <= i < |es| && es[i].date == d {
          var i :| 0 <= i < |es| && es[i].date == d;
          if i < |init| { assert init[i].date == d; }
        }
      }
    }
  }

  /** A date no entry carries has nothing to sum. */
  lemma {:induction false} DaySumAbsent(es: seq<Entry>, d: string, t: EntryType)
    requires d !in DatesOf(es)
    ensures DaySum(es, d, t) == 0
  {
    if es != [] {
      DaySumAbsent(es[..|es| - 1], d, t);
    }
  }

  /** One more entry of the fold adds its date to the keys. */
  lemma DatesStep(es: seq<Entry>, i: nat)
    requires i < |es|
    ensures DatesOf(es[..i + 1]) == DatesOf(es[..i]) + {es[i].date}
  {
    assert es[..i + 1][..i] == es[..i];
  }

  /** One more entry of the fold bumps the sum of its own date and kind. */
  lemma DaySumStep(es: seq<Entry>, i: nat, d: string, t: EntryType)
    requires i < |es|
    ensures DaySum(es[..i + 1], d, t) == DaySum(es[..i], d, t) + (if es[i].date == d then Share(es[i], t) else 0)
  {
    assert es[..i + 1][..i] == es[..i];
  }

  /** The sums a bucket holds for date `d` after the entries `es`. */
  ghost predicate Holds(b: Bucket, es: seq<Entry>, d: string) {
    b == Bucket(DaySum(es, d, Income), DaySum(es, d, Expense))
  }

  /**
   * The fold of the chart component: one bucket per distinct date, holding
   * the per-kind sums of that date's amounts; `keys` lists the dates in the
   * order in which the fold first met them, each once.
   */
  method Aggregate(es: seq<Entry>) returns (data: Buckets, keys: seq<string>)
    ensures data.Keys == DatesOf(es)
    ensures forall d :: d in data ==> data[d] == Bucket(DaySum(es, d, Income), DaySum(es, d, Expense))
    ensures NoDuplicates(keys) && (forall d :: d in keys <==> d in data)
  {
    data, keys := map[], [];
    var i := 0;
    while i < |es|
      invariant 0 <= i <= |es|
      invariant data.Keys == DatesOf(es[..i])
      invariant forall d :: d in data ==> Holds(data[d], es[..i], d)
      invariant NoDuplicates(keys) && (forall d :: d in keys <==> d in data)
    {
      var e := es[i];
      DatesStep(es, i);
      var acc := data;
      if e.date !in acc {
        DaySumAbsent(es[..i], e.date, Income);
        DaySumAbsent(es[..i], e.date, Expense);
        acc := acc[e.date := Bucket(0, 0)];
        keys := keys + [e.date];
      }
      assert Holds(acc[e.date], es[..i], e.date);
      data := acc[e.date := acc[e.date].Add(e.kind, e.amount)];
      forall d | d in data ensures Holds(data[d], es[..i + 1], d) {
        DaySumStep(es, i, d, Income);
        DaySumStep(es, i, d, Expense);
      }
      i := i + 1;
    }
    assert es[..i] == es;
  }

  /**
   * Summing a series that differs from another only at the position of date
   * `d`, by `v`, differs by `v` when `d` occurs once among the dates and not at all otherwise.
   */
  lemma {:induction false} SumBump(xs: seq<int>, ys: seq<int>, ds: seq<string>, d: string, v: int)
    requires |xs| == |ys| == |ds|
    requires NoDuplicates(ds)
    requires forall i :: 0 <= i < |ds| ==> xs[i] == ys[i] + (if ds[i] == d then v else 0)
    ensures Sum(xs) == Sum(ys) + (if d in ds then v else 0)
  {
    if ds != [] {
      var n := |ds| - 1;
      assert ds == ds[..n] + [ds[n]];
      SumBump(xs[..n], ys[..n], ds[..n], d, v);
      if ds[n] == d {
        assert d !in ds[..n] by {
          forall k | 0 <= k < n ensures ds[..n][k] != d { assert ds[k] != ds[n]; }
        }
      }
    }
  }

  /** A series of sums over no entries adds up to zero. */
  lemma {:induction false} SumOfEmptyDays(xs: seq<int>, ds: seq<string>, t: EntryType)
    requires |xs| == |ds|
    requires forall i :: 0 <= i < |ds| ==> xs[i] == DaySum([], ds[i], t)
    ensures Sum(xs) == 0
  {
    if xs != [] {
      SumOfEmptyDays(xs[..|xs| - 1], ds[..|ds| - 1], t);
    }
  }

  /**
   * Conservation: a series holding, for every one of a repeat-free list of
   * dates covering all entry dates, the day's sum of kind `t`, adds up to the
   * summary total of that kind.
   */
  lemma {:induction false} SeriesConserves(xs: seq<int>, ds: seq<string>, es: seq<Entry>, t: EntryType)
    requires NoDuplicates(ds)
    requires forall d :: d in DatesOf(es) ==> d in ds
    requires DaySeries(xs, ds, es, t)
    ensures Sum(xs) == TotalOf(es, t)
    decreases |es|
  {
    if es == [] {
      SumOfEmptyDays(xs, ds, t);
    } else {
      var init, e := es[..|es| - 1], es[|es| - 1];
      assert es == init + [e];
      var ys := seq(|ds|, i requires 0 <= i < |ds| => DaySum(init, ds[i], t));
      SeriesConserves(ys, ds, init, t);
      SumBump(xs, ys, ds, e.date, Share(e, t));
      TotalOfAppend(init, e, t);
    }
  }

  /** `xs` holds, position by position, the sums of kind `t` of the dates `ds`. */
  ghost predicate DaySeries(xs: seq<int>, ds: seq<string>, es: seq<Entry>, t: EntryType) {
    |xs| == |ds| && forall i :: 0 <= i < |ds| ==> xs[i] == DaySum(es, ds[i], t)
  }

  /** `sortedDates.map((date) => data[date][t])`. */
  function Column(sortedDates: seq<string>, data: Buckets, t: EntryType): seq<int>
    requires forall d :: d in sortedDates ==> d in data
  {
    seq(|sortedDates|, i requires 0 <= i < |sortedDates| =>
      if t == Income then data[sortedDates[i]].income else data[sortedDates[i]].expense)
  }

  /**
   * The chart component: the placeholder exactly when there are no entries;
   * otherwise the distinct dates in ascending order, each once, with the
   * day's income and expense sums at the same position, both series adding
   * up to the summary totals.
   */
  method Render(es: seq<Entry>) returns (c: Chart)
    ensures c == NoData <==> es == []
    ensures c != NoData ==> StrictlyAscending(c.labels) && (forall d :: d in c.labels <==> d in DatesOf(es))
    ensures c != NoData ==> DaySeries(c.income, c.labels, es, Income) && DaySeries(c.expense, c.labels, es, Expense)
    ensures c != NoData ==> Sum(c.income) == TotalIncome(es) && Sum(c.expense) == TotalExpense(es)
  {
    var data, keys := Aggregate(es);
    var sortedDates := SortDates(keys);
    SortedKeysStrict(keys);
    var income := Column(sortedDates, data, Income);
    var expense := Column(sortedDates, data, Expense);
    if |es| == 0 {
      return NoData;
    }
    assert DaySeries(income, sortedDates, es, Income);
    assert DaySeries(expense, sortedDates, es, Expense);
    SeriesConserves(income, sortedDates, es, Income);
    SeriesConserves(expense, sortedDates, es, Expense);
    c := Bars(sortedDates, income, expense);
  }
}
