/** The expense list of the wallet page (`useFinance`): the search and period
    filters behind `filteredExpenses`, the eight-per-page pagination and the
    filtered total. Dates are local calendar dates; the selected date of the
    page is the date its `YYYY-MM-DD` key names. */
module FinanceFilter {
  import opened Common
  import opened Calendar
  import opened DateHelpers
  import opened Text

  /** An expense; `date` is the local calendar date of its timestamp and the
      amount is in whole rupiah. */
  datatype Expense = Expense(id: string, description: string, amount: int, category: string, date: CalDate)

  datatype Period = Daily | Weekly | Monthly

  function Amount(e: Expense): int {
    e.amount
  }

  /** `t.categories[category] || ''`: the translated label, or the empty
      string for a category without one. */
  function CategoryLabel(labels: map<string, string>, category: string): string {
    if category in labels then labels[category] else ""
  }

  /** The search test: the lower-cased query (untrimmed) occurs in the
      lower-cased description, raw category or category label. */
  predicate MatchesSearch(e: Expense, query: string, labels: map<string, string>) {
    var q := ToLower(query);
    Includes(ToLower(e.description), q)
    || Includes(ToLower(e.category), q)
    || Includes(ToLower(CategoryLabel(labels, e.category)), q)
  }

  /** The billing-cycle test of the monthly view. With `cycleStart` 1 the
      cycle is the target's calendar month; otherwise it runs from day
      `cycleStart` of the previous month up to, not including, day
      `cycleStart` of the target month, where a day past the end of a month
      rolls over as `new Date(y, m, d)` does. */
  predicate InCycle(d: CalDate, target: CalDate, cycleStart: int) {
    if cycleStart == 1 then
      d.month == target.month && d.year == target.year
    else
      var start := PrevMonth(target.year, target.month);
      DayNumber(start.0, start.1, cycleStart) <= Num(d) < DayNumber(target.year, target.month, cycleStart)
  }

  /** The period test for one expense when the search box is blank. */
  predicate InPeriod(e: Expense, period: Period, selected: CalDate, cycleStart: int) {
    match period
    case Daily => ToLocalDateStr(e.date) == ToLocalDateStr(selected)
    case Weekly => Num(selected) <= Num(e.date) < Num(selected) + 7
    case Monthly => InCycle(e.date, selected, cycleStart)
  }

  /** Which test `filteredExpenses` applies: the search when the query has a
      non-blank character, the period otherwise. */
  predicate Keep(e: Expense, query: string, labels: map<string, string>,
                 period: Period, selected: CalDate, cycleStart: int) {
    if |Trim(query)| > 0 then MatchesSearch(e, query, labels)
    else InPeriod(e, period, selected, cycleStart)
  }

  /** `filteredExpenses`: the expenses passing the test. */
  function FilteredExpenses(expenses: seq<Expense>, query: string, labels: map<string, string>,
                            period: Period, selected: CalDate, cycleStart: int): (r: seq<Expense>)
    ensures |r| <= |expenses|
    ensures forall e :: e in r <==> e in expenses && Keep(e, query, labels, period, selected, cycleStart)
    ensures multiset(r) <= multiset(expenses)
  {
    var p := (e: Expense) => Keep(e, query, labels, period, selected, cycleStart);
    FilterContents(expenses, p);
    Filter(expenses, p)
  }

  /** A query made only of white space falls back to the period filter; a
      query with any other character ignores the period entirely. */
  lemma {:induction false} BlankQueryIff(query: string)
    ensures |Trim(query)| == 0 <==> forall i :: 0 <= i < |query| ==> IsJsSpace(query[i])
  {
    TrimEmptyIff(query);
  }

  /** The search does not depend on the letter case of the query. */
  lemma {:induction false} SearchIgnoresCase(e: Expense, query: string, labels: map<string, string>)
    ensures MatchesSearch(e, query, labels) <==> MatchesSearch(e, ToLower(query), labels)
  {
    ToLowerIdempotent(query);
  }

  /** The daily view keeps exactly the expenses dated on the selected day. */
  lemma {:induction false} DailyIsSameDate(e: Expense, selected: CalDate, cycleStart: int)
    ensures InPeriod(e, Daily, selected, cycleStart) <==> e.date == selected
  {
    IsSameDayIff(e.date, selected);
  }

  /** With `cycleStart` 1 the cycle is the day-number window of the target's
      month, so the special case agrees with a window test. */
  lemma {:induction false} CycleOneIsMonthWindow(d: CalDate, target: CalDate)
    ensures InCycle(d, target, 1) <==>
              DayNumber(target.year, target.month, 1) <= Num(d)
                < DayNumber(target.year, target.month, 1) + DaysInMonth(target.year, target.month)
  {
    var first: CalDate := Date(target.year, target.month, 1);
    var last: CalDate := Date(target.year, target.month, DaysInMonth(target.year, target.month));
    DayNumberBounds(d);
    NumInjective(first, d);
    NumInjective(d, last);
  }

  /** Any other cycle is as long as the month it starts in. */
  lemma {:induction false} CycleWindowLength(target: CalDate, cycleStart: int)
    ensures var start := PrevMonth(target.year, target.month);
            DayNumber(target.year, target.month, cycleStart) - DayNumber(start.0, start.1, cycleStart)
              == DaysInMonth(start.0, start.1)
  {
  }

  /** The first day of month (y, m0). */
  function MonthFirst(y: int, m0: int): (r: CalDate)
    requires 0 <= m0 < 12
    ensures Num(r) == DayNumber(y, m0, 1)
  {
    Date(y, m0, 1)
  }

  /** A month earlier than `later` is at most the month before it, so its
      cycle ends no later than the cycle of `later` starts. */
  lemma EarlierCycleEndsFirst(earlier: CalDate, later: CalDate, cycleStart: int)
    requires Num(MonthFirst(earlier.year, earlier.month)) < Num(MonthFirst(later.year, later.month))
    ensures var p := PrevMonth(later.year, later.month);
            DayNumber(earlier.year, earlier.month, cycleStart) <= DayNumber(p.0, p.1, cycleStart)
  {
    var p := PrevMonth(later.year, later.month);
    NumInjective(MonthFirst(earlier.year, earlier.month), MonthFirst(later.year, later.month));
    NumInjective(MonthFirst(earlier.year, earlier.month), MonthFirst(p.0, p.1));
  }

  /** Two targets whose cycles share a day are the same month. */
  lemma {:induction false} CycleUnique(d: CalDate, t1: CalDate, t2: CalDate, cycleStart: int)
    requires InCycle(d, t1, cycleStart) && InCycle(d, t2, cycleStart)
    ensures t1.year == t2.year && t1.month == t2.month
  {
    if cycleStart != 1 {
      var a1 := MonthFirst(t1.year, t1.month);
      var a2 := MonthFirst(t2.year, t2.month);
      NumInjective(a1, a2);
      if Num(a1) < Num(a2) {
        EarlierCycleEndsFirst(t1, t2, cycleStart);
      } else if Num(a2) < Num(a1) {
        EarlierCycleEndsFirst(t2, t1, cycleStart);
      }
    }
  }

  /** The month whose cycle contains `d`, as a target date: the month after
      `d`'s when `d` is on or past the cycle day, the month before when the
      cycle day lies so late that the previous month's cycle still runs, and
      `d`'s own month otherwise. */
  function CycleTarget(d: CalDate, cycleStart: int): (t: CalDate)
    requires 1 <= cycleStart <= 31
    ensures InCycle(d, t, cycleStart)
  {
    var own := MonthFirst(d.year, d.month);
    var prev := PrevMonth(d.year, d.month);
    if cycleStart == 1 then own
    else if d.day >= cycleStart then
      var next := NextMonth(d.year, d.month);
      NextThenPrev(d.year, d.month);
      MonthFirst(next.0, next.1)
    else if cycleStart <= DaysInMonth(prev.0, prev.1) + d.day then own
    else
      MonthFirst(prev.0, prev.1)
  }

  /** Cycles tile the calendar: for a cycle day the picker offers, every date
      lies in the cycle of exactly one month, even for a start day that some
      months do not have. */
  lemma {:induction false} CyclesTile(d: CalDate, target: CalDate, cycleStart: int)
    requires 1 <= cycleStart <= 31
    ensures InCycle(d, target, cycleStart) <==>
              target.year == CycleTarget(d, cycleStart).year && target.month == CycleTarget(d, cycleStart).month
  {
    if InCycle(d, target, cycleStart) {
      CycleUnique(d, target, CycleTarget(d, cycleStart), cycleStart);
    }
  }

  /** For a cycle day other than the first, when both boundary days exist, the
      cycle runs from that day of the previous month to the day before it in
      the target's month, both inclusive. */
  lemma {:induction false} CycleBounds(d: CalDate, target: CalDate, cycleStart: int)
    requires 2 <= cycleStart
    requires var prev := PrevMonth(target.year, target.month);
             cycleStart <= DaysInMonth(prev.0, prev.1) && cycleStart - 1 <= DaysInMonth(target.year, target.month)
    ensures var prev := PrevMonth(target.year, target.month);
            InCycle(d, target, cycleStart) <==>
              Num(Date(prev.0, prev.1, cycleStart)) <= Num(d) <= Num(Date(target.year, target.month, cycleStart - 1))
  {
  }

  /** The example of the source comment: with cycle day 25 the cycle of
      February 2026 runs from 25 January to 24 February inclusive. */
  lemma {:induction false} CycleExample(d: CalDate)
    ensures InCycle(d, Date(2026, 1, 10), 25) <==>
              Num(Date(2026, 0, 25)) <= Num(d) <= Num(Date(2026, 1, 24))
  {
  }

  const ItemsPerPage: nat := 8

  /** `Math.ceil(n / 8)`. */
  function TotalPages(n: nat): (p: nat)
    ensures p * ItemsPerPage >= n
    ensures p > 0 ==> (p - 1) * ItemsPerPage < n
  {
    (n + ItemsPerPage - 1) / ItemsPerPage
  }

  /** `paginatedExpenses` for page `page` (one-based). */
  function Page<T>(s: seq<T>, page: int): (r: seq<T>)
    ensures |r| <= ItemsPerPage
  {
    var start := (page - 1) * ItemsPerPage;
    Slice(s, start, start + ItemsPerPage)
  }

  /** A page from the first on is the run of at most eight items starting at
      its offset; pages past the last are empty. */
  lemma {:induction false} PageContents<T>(s: seq<T>, page: int)
    requires page >= 1
    ensures var start := (page - 1) * ItemsPerPage;
            var end := if start + ItemsPerPage < |s| then start + ItemsPerPage else |s|;
            Page(s, page) == if start < |s| then s[start..end] else []
    ensures page > TotalPages(|s|) ==> Page(s, page) == []
    ensures page <= TotalPages(|s|) ==> |Page(s, page)| > 0
  {
  }

  /** Pages 1 to `k` laid end to end. */
  function Pages<T>(s: seq<T>, k: nat): seq<T> {
    if k == 0 then [] else Pages(s, k - 1) + Page(s, k)
  }

  lemma {:induction false} PagesPrefix<T>(s: seq<T>, k: nat)
    ensures Pages(s, k) == s[..if k * ItemsPerPage < |s| then k * ItemsPerPage else |s|]
  {
    if k > 0 {
      PagesPrefix(s, k - 1);
      PageContents(s, k);
      var a := if (k - 1) * ItemsPerPage < |s| then (k - 1) * ItemsPerPage else |s|;
      var b := if k * ItemsPerPage < |s| then k * ItemsPerPage else |s|;
      assert s[..b] == s[..a] + s[a..b];
    }
  }

  /** Reading the pages in order reproduces the filtered list exactly. */
  lemma {:induction false} PagesCover<T>(s: seq<T>)
    ensures Pages(s, TotalPages(|s|)) == s
  {
    PagesPrefix(s, TotalPages(|s|));
  }

  /** `totalSpentFiltered`, and the same reduction over any expense list. */
  function TotalSpent(expenses: seq<Expense>): int {
    SumOf(expenses, Amount)
  }
}
