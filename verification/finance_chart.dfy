/** The spending chart of the wallet page (`chartData` in `useFinance`): the
    filtered expenses are totalled per category in a plain object, its keys
    are read back in insertion order, each becomes a named entry, and the
    entries are sorted by value, largest first. */
module FinanceChart {
  import opened Common
  import opened Sorting
  import opened FinanceFilter

  /** The `totals` object: its keys in insertion order and its values. */
  datatype Totals = Totals(keys: seq<string>, values: map<string, int>)

  /** The keys listed are exactly the keys present, each listed once. */
  ghost predicate WellFormed(t: Totals) {
    && (forall k :: k in t.keys <==> k in t.values)
    && (forall i, j :: 0 <= i < j < |t.keys| ==> t.keys[i] != t.keys[j])
  }

  /** `totals[k] || 0`. */
  function Get(t: Totals, k: string): int {
    if k in t.values then t.values[k] else 0
  }

  function ValueIn(t: Totals): string -> int {
    k => Get(t, k)
  }

  /** `totals[c] = (totals[c] || 0) + amount`: a key already present keeps
      its place, a new key goes last. */
  function AddTo(t: Totals, c: string, amount: int): (r: Totals)
    ensures WellFormed(t) ==> WellFormed(r)
    ensures c in r.values && r.values.Keys == t.values.Keys + {c}
    ensures Get(r, c) == Get(t, c) + amount
    ensures forall k :: k != c ==> Get(r, k) == Get(t, k)
  {
    if c in t.values then Totals(t.keys, t.values[c := t.values[c] + amount])
    else Totals(t.keys + [c], t.values[c := amount])
  }

  /** The `forEach` over the filtered expenses, in list order. */
  function CategoryTotals(es: seq<Expense>): (r: Totals)
    ensures WellFormed(r)
  {
    if |es| == 0 then Totals([], map[])
    else AddTo(CategoryTotals(es[..|es| - 1]), es[|es| - 1].category, es[|es| - 1].amount)
  }

  function InCategory(c: string): Expense -> bool {
    (e: Expense) => e.category == c
  }

  /** The last expense of a list contributes to its own category only. */
  lemma {:induction false} LastContribution(es: seq<Expense>, c: string)
    requires |es| > 0
    ensures TotalSpent(Filter(es, InCategory(c)))
              == TotalSpent(Filter(es[..|es| - 1], InCategory(c)))
                 + (if es[|es| - 1].category == c then es[|es| - 1].amount else 0)
  {
    var init, last := es[..|es| - 1], es[|es| - 1];
    assert es == init + [last];
    FilterAppend(init, [last], InCategory(c));
    var tail := Filter([last], InCategory(c));
    assert tail == if last.category == c then [last] else [];
    SumOfAppend(Filter(init, InCategory(c)), tail, Amount);
  }

  /** Each category's total is the sum of that category's expenses. */
  lemma {:induction false} CategoryTotalsCorrect(es: seq<Expense>, c: string)
    ensures Get(CategoryTotals(es), c) == TotalSpent(Filter(es, InCategory(c)))
  {
    if |es| > 0 {
      CategoryTotalsCorrect(es[..|es| - 1], c);
      LastContribution(es, c);
    }
  }

  /** A category has a key exactly when some expense belongs to it. */
  lemma {:induction false} CategoryTotalsKeys(es: seq<Expense>, c: string)
    ensures c in CategoryTotals(es).values <==> exists i :: 0 <= i < |es| && es[i].category == c
  {
    if |es| > 0 {
      var init := es[..|es| - 1];
      CategoryTotalsKeys(init, c);
      if exists i :: 0 <= i < |init| && init[i].category == c {
        var i :| 0 <= i < |init| && init[i].category == c;
        assert es[i] == init[i];
      }
      if exists i :: 0 <= i < |es| && es[i].category == c {
        var i :| 0 <= i < |es| && es[i].category == c;
        if i < |init| {
          assert init[i] == es[i];
        }
      }
    }
  }

  /** Changing the value of one key changes a sum over distinct keys by that
      change when the key is listed, and not at all otherwise. */
  lemma {:induction false} SumOfBump(keys: seq<string>, f: string -> int, g: string -> int, c: string, amount: int)
    requires forall i, j :: 0 <= i < j < |keys| ==> keys[i] != keys[j]
    requires forall k :: k != c ==> g(k) == f(k)
    requires g(c) == f(c) + amount
    ensures SumOf(keys, g) == SumOf(keys, f) + (if c in keys then amount else 0)
  {
    if |keys| > 0 {
      SumOfBump(keys[1..], f, g, c, amount);
      if keys[0] == c {
        assert c !in keys[1..] by {
          forall j | 0 <= j < |keys[1..]|
            ensures keys[1..][j] != c
          {
            assert keys[1..][j] == keys[j + 1];
          }
        }
      } else {
        assert c in keys <==> c in keys[1..];
      }
    }
  }

  /** Adding to a key keeps the sum over the keys in step. */
  lemma {:induction false} AddToSum(t: Totals, c: string, amount: int)
    requires WellFormed(t)
    ensures var r := AddTo(t, c, amount);
            SumOf(r.keys, ValueIn(r)) == SumOf(t.keys, ValueIn(t)) + amount
  {
    var r := AddTo(t, c, amount);
    if c in t.values {
      SumOfBump(t.keys, ValueIn(t), ValueIn(r), c, amount);
    } else {
      SumOfBump(t.keys, ValueIn(t), ValueIn(r), c, amount);
      SumOfAppend(t.keys, [c], ValueIn(r));
    }
  }

  lemma {:induction false} TotalSpentLast(es: seq<Expense>)
    requires |es| > 0
    ensures TotalSpent(es) == TotalSpent(es[..|es| - 1]) + es[|es| - 1].amount
  {
    assert es == es[..|es| - 1] + [es[|es| - 1]];
    SumOfAppend(es[..|es| - 1], [es[|es| - 1]], Amount);
  }

  /** The totals over all keys add up to the total of the list. */
  lemma {:induction false} TotalsSum(es: seq<Expense>)
    ensures var t := CategoryTotals(es);
            SumOf(t.keys, ValueIn(t)) == TotalSpent(es)
  {
    if |es| > 0 {
      var init, last := es[..|es| - 1], es[|es| - 1];
      TotalsSum(init);
      AddToSum(CategoryTotals(init), last.category, last.amount);
      TotalSpentLast(es);
    }
  }

  /** One bar of the chart. */
  datatype ChartEntry = ChartEntry(name: string, value: int)

  function EntryValue(e: ChartEntry): int {
    e.value
  }

  function ByValue(e: ChartEntry): real {
    e.value as real
  }

  /** `t.categories[cat] || cat`: the label when it is a non-empty string,
      the raw category otherwise. */
  function EntryName(labels: map<string, string>, category: string): string {
    if category in labels && labels[category] != "" then labels[category] else category
  }

  /** `Object.keys(totals).map(...)` before sorting. */
  function Entries(t: Totals, keys: seq<string>, labels: map<string, string>): (r: seq<ChartEntry>)
    ensures |r| == |keys|
    ensures forall i :: 0 <= i < |keys| ==> r[i] == ChartEntry(EntryName(labels, keys[i]), Get(t, keys[i]))
  {
    if |keys| == 0 then [] else [ChartEntry(EntryName(labels, keys[0]), Get(t, keys[0]))] + Entries(t, keys[1..], labels)
  }

  lemma {:induction false} EntriesSum(t: Totals, keys: seq<string>, labels: map<string, string>)
    ensures SumOf(Entries(t, keys, labels), EntryValue) == SumOf(keys, ValueIn(t))
  {
    if |keys| > 0 {
      EntriesSum(t, keys[1..], labels);
    }
  }

  /** `chartData` over the filtered expenses. */
  function ChartData(filtered: seq<Expense>, labels: map<string, string>): seq<ChartEntry>
  {
    var t := CategoryTotals(filtered);
    SortDesc(Entries(t, t.keys, labels), ByValue)
  }

  /** The chart has one entry per category present, its values add up to
      `totalSpentFiltered`, it is sorted largest first, and entries of equal
      value keep the order in which their categories first appeared. */
  lemma {:induction false} ChartDataCorrect(filtered: seq<Expense>, labels: map<string, string>, v: real)
    ensures var t := CategoryTotals(filtered);
            var chart := ChartData(filtered, labels);
            && |chart| == |t.keys|
            && multiset(chart) == multiset(Entries(t, t.keys, labels))
            && SortedDesc(chart, ByValue)
            && SumOf(chart, EntryValue) == TotalSpent(filtered)
            && Filter(chart, KeyIs(ByValue, v)) == Filter(Entries(t, t.keys, labels), KeyIs(ByValue, v))
  {
    var t := CategoryTotals(filtered);
    var entries := Entries(t, t.keys, labels);
    SortDescCorrect(entries, ByValue, v);
    SortDescSum(entries, ByValue, EntryValue);
    EntriesSum(t, t.keys, labels);
    TotalsSum(filtered);
  }

  /** Each category present gets exactly one entry, whose value is that
      category's total over the filtered list. */
  lemma {:induction false} ChartEntryOfCategory(filtered: seq<Expense>, labels: map<string, string>, i: nat)
    requires i < |CategoryTotals(filtered).keys|
    ensures var t := CategoryTotals(filtered);
            var c := t.keys[i];
            ChartEntry(EntryName(labels, c), TotalSpent(Filter(filtered, InCategory(c)))) in ChartData(filtered, labels)
  {
    var t := CategoryTotals(filtered);
    var entries := Entries(t, t.keys, labels);
    CategoryTotalsCorrect(filtered, t.keys[i]);
    SortDescCorrect(entries, ByValue, 0.0);
    assert entries[i] in multiset(entries);
  }
}
