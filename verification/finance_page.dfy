/** The pure logic of the wallet page (`pages/Finance.tsx`): the window of
    page buttons and the page navigation, the quoting of descriptions in the
    CSV export, the month grid of the calendar, the text naming the end of a
    billing cycle, and the over-budget test and remainder of a budget card. */
module FinancePage {
  import opened Common
  import opened Calendar
  import opened DateHelpers
  import opened FinanceFilter
  import opened FinanceBudget

  function Max(a: int, b: int): int {
    if a >= b then a else b
  }

  function Min(a: int, b: int): int {
    if a <= b then a else b
  }

  const MaxVisible: int := 5

  /** The first and last page button: start two before the current page,
      show at most five, and when the window reaches the last page shift it
      back so that it still shows five pages where there are five. */
  function PageWindow(current: int, total: nat): (r: (int, int))
    ensures 1 <= r.0 && r.1 <= total
    ensures r.1 - r.0 + 1 <= MaxVisible
    ensures 1 <= current <= total ==> r.0 <= current <= r.1
    ensures total >= MaxVisible ==> r.1 - r.0 + 1 == MaxVisible
    ensures total <= MaxVisible ==> r == (1, total)
  {
    var start := Max(1, current - 2);
    var end := Min(total, start + MaxVisible - 1);
    if end == total then (Max(1, end - MaxVisible + 1), end) else (start, end)
  }

  /** The page numbers on the buttons, as the render loop produces them. */
  method PageButtons(current: int, total: nat) returns (pages: seq<int>)
    ensures |pages| <= MaxVisible
    ensures forall i :: 0 <= i < |pages| ==> 1 <= pages[i] <= total
    ensures forall i :: 0 < i < |pages| ==> pages[i] == pages[i - 1] + 1
    ensures 1 <= current <= total ==> current in pages
    ensures total >= MaxVisible ==> |pages| == MaxVisible
    ensures total >= 1 ==> |pages| >= 1
  {
    var w := PageWindow(current, total);
    var start, end := w.0, w.1;
    pages := [];
    var i := start;
    while i <= end
      invariant start <= i <= Max(start, end + 1)
      invariant |pages| == i - start
      invariant forall k :: 0 <= k < |pages| ==> pages[k] == start + k
    {
      pages := pages + [i];
      i := i + 1;
    }
    if 1 <= current <= total {
      assert pages[current - start] == current;
    }
  }

  /** The pagination controls: first, previous, next, last, and the `k`-th
      button of the window. */
  datatype PageNav = First | Prev | Next | Last | Button(k: nat)

  /** The page after pressing a control; a disabled control, or a button
      that is not shown, leaves the page as it is. */
  function Navigate(current: int, total: nat, nav: PageNav): (r: int)
    ensures 1 <= current <= total ==> 1 <= r <= total
    ensures nav == First && current != 1 ==> r == 1
    ensures nav == Last && current != total ==> r == total
  {
    match nav
    case First => if current == 1 then current else 1
    case Prev => if current == 1 then current else Max(current - 1, 1)
    case Next => if current == total then current else Min(current + 1, total)
    case Last => if current == total then current else total
    case Button(k) =>
      var w := PageWindow(current, total);
      if w.0 + k <= w.1 then w.0 + k else current
  }

  /** Any sequence of presses keeps the page inside `[1, totalPages]`. */
  function NavigateAll(current: int, total: nat, navs: seq<PageNav>): int
    decreases |navs|
  {
    if |navs| == 0 then current else NavigateAll(Navigate(current, total, navs[0]), total, navs[1..])
  }

  lemma {:induction false} NavigationStaysInRange(current: int, total: nat, navs: seq<PageNav>)
    requires 1 <= current <= total
    ensures 1 <= NavigateAll(current, total, navs) <= total
    decreases |navs|
  {
    if |navs| > 0 {
      NavigationStaysInRange(Navigate(current, total, navs[0]), total, navs[1..]);
    }
  }

  /** Previous and next move by exactly one page when they are enabled. */
  lemma StepByOne(current: int, total: nat)
    requires 1 <= current <= total
    ensures current > 1 ==> Navigate(current, total, Prev) == current - 1
    ensures current < total ==> Navigate(current, total, Next) == current + 1
    ensures Navigate(current, total, Prev) <= current <= Navigate(current, total, Next)
  {
  }

  /** `description.replace(/"/g, '""')`. */
  function DoubleQuotes(s: string): string {
    if |s| == 0 then "" else (if s[0] == '"' then "\"\"" else [s[0]]) + DoubleQuotes(s[1..])
  }

  /** The description field of a CSV row: wrapped in double quotes, each
      inner double quote doubled. */
  function QuoteField(s: string): (r: string)
    ensures |r| == |s| + 2 + Count(s, c => c == '"')
    ensures r[0] == '"' && r[|r| - 1] == '"'
  {
    DoubleQuotesLength(s);
    "\"" + DoubleQuotes(s) + "\""
  }

  lemma {:induction false} DoubleQuotesLength(s: string)
    ensures |DoubleQuotes(s)| == |s| + Count(s, c => c == '"')
  {
    if |s| > 0 {
      DoubleQuotesLength(s[1..]);
    }
  }

  /** Reads the inside of a quoted field back: a doubled quote is one quote,
      a lone quote is malformed. */
  function Undouble(t: string): (r: Option<string>)
    decreases |t|
  {
    if |t| == 0 then Some("")
    else if t[0] == '"' then
      if |t| >= 2 && t[1] == '"' then
        match Undouble(t[2..])
        case Some(rest) => Some("\"" + rest)
        case None => None
      else None
    else
      match Undouble(t[1..])
      case Some(rest) => Some([t[0]] + rest)
      case None => None
  }

  /** Reads a quoted field back; `None` when it is not one. */
  function Unquote(t: string): Option<string> {
    if |t| >= 2 && t[0] == '"' && t[|t| - 1] == '"' then Undouble(t[1..|t| - 1]) else None
  }

  lemma {:induction false} UndoubleDouble(s: string)
    ensures Undouble(DoubleQuotes(s)) == Some(s)
  {
    if |s| > 0 {
      UndoubleDouble(s[1..]);
      var head := if s[0] == '"' then "\"\"" else [s[0]];
      var t := head + DoubleQuotes(s[1..]);
      if s[0] == '"' {
        assert t[2..] == DoubleQuotes(s[1..]);
      } else {
        assert t[1..] == DoubleQuotes(s[1..]);
      }
      assert s == [s[0]] + s[1..];
    }
  }

  /** Unquoting a quoted description gives the description back, so no two
      descriptions export to the same field. */
  lemma QuoteRoundTrip(s: string)
    ensures Unquote(QuoteField(s)) == Some(s)
  {
    var t := QuoteField(s);
    assert t[1..|t| - 1] == DoubleQuotes(s);
    UndoubleDouble(s);
  }

  /** A cell of the month grid: a leading blank, or a day with what was spent
      on it. */
  datatype Cell = Blank | Day(day: int, total: int)

  /** The expenses of one calendar date, compared by their `YYYY-MM-DD` keys. */
  function OnDate(date: CalDate): Expense -> bool {
    (e: Expense) => ToLocalDateStr(e.date) == ToLocalDateStr(date)
  }

  /** What was spent on one date, summed over the list in order. */
  function DayTotal(expenses: seq<Expense>, date: CalDate): int {
    if |expenses| == 0 then 0
    else (if expenses[0].date == date then expenses[0].amount else 0) + DayTotal(expenses[1..], date)
  }

  /** The cell of day `d` of the month: the day and the day's total. */
  function DayCell(expenses: seq<Expense>, year: int, month0: int, d: int): Cell
    requires 0 <= month0 < 12 && 1 <= d <= DaysInMonth(year, month0)
  {
    var date: CalDate := Date(year, month0, d);
    Day(d, DayTotal(expenses, date))
  }

  /** `renderCalendar`: as many blanks as the weekday of the first of the
      month, then one cell per day of the month. */
  method RenderCalendar(expenses: seq<Expense>, year: int, month0: int) returns (cells: seq<Cell>)
    requires 0 <= month0 < 12
    ensures var firstDay := Weekday(DayNumber(year, month0, 1));
            && |cells| == firstDay + DaysInMonth(year, month0)
            && (forall i :: 0 <= i < firstDay ==> cells[i] == Blank)
            && (forall d: int :: 1 <= d <= DaysInMonth(year, month0) ==>
                  cells[firstDay + d - 1] == DayCell(expenses, year, month0, d))
  {
    var firstDay := Weekday(DayNumber(year, month0, 1));
    cells := LeadingBlanks(firstDay);
    cells := AppendDays(cells, expenses, year, month0);
  }

  /** The first loop of `renderCalendar`. */
  method LeadingBlanks(n: nat) returns (cells: seq<Cell>)
    ensures |cells| == n
    ensures forall k :: 0 <= k < n ==> cells[k] == Blank
  {
    cells := [];
    var i := 0;
    while i < n
      invariant 0 <= i <= n
      invariant |cells| == i
      invariant forall k :: 0 <= k < i ==> cells[k] == Blank
    {
      cells := cells + [Blank];
      i := i + 1;
    }
  }

  /** The cells of the first `n` days of the month, in order. */
  function DayCells(expenses: seq<Expense>, year: int, month0: int, n: nat): (r: seq<Cell>)
    requires 0 <= month0 < 12 && n <= DaysInMonth(year, month0)
    ensures |r| == n
  {
    if n == 0 then [] else DayCells(expenses, year, month0, n - 1) + [DayCell(expenses, year, month0, n)]
  }

  /** Position `d - 1` of the first `n` day cells is the cell of day `d`. */
  lemma {:induction false} DayCellsAt(expenses: seq<Expense>, year: int, month0: int, n: nat, d: int)
    requires 0 <= month0 < 12 && n <= DaysInMonth(year, month0) && 1 <= d <= n
    ensures DayCells(expenses, year, month0, n)[d - 1] == DayCell(expenses, year, month0, d)
  {
    if d < n {
      DayCellsAt(expenses, year, month0, n - 1, d);
    }
  }

  /** The second loop of `renderCalendar`: one cell per day, in order. */
  method AppendDays(prefix: seq<Cell>, expenses: seq<Expense>, year: int, month0: int) returns (cells: seq<Cell>)
    requires 0 <= month0 < 12
    ensures |cells| == |prefix| + DaysInMonth(year, month0)
    ensures cells[..|prefix|] == prefix
    ensures forall d: int :: 1 <= d <= DaysInMonth(year, month0) ==>
              cells[|prefix| + d - 1] == DayCell(expenses, year, month0, d)
  {
    var daysInMonth := DaysInMonth(year, month0);
    var days := [];
    var d := 1;
    while d <= daysInMonth
      invariant 1 <= d <= daysInMonth + 1
      invariant days == DayCells(expenses, year, month0, d - 1)
    {
      days := days + [DayCell(expenses, year, month0, d)];
      d := d + 1;
    }
    cells := prefix + days;
    forall d: int | 1 <= d <= daysInMonth
      ensures cells[|prefix| + d - 1] == DayCell(expenses, year, month0, d)
    {
      DayCellsAt(expenses, year, month0, daysInMonth, d);
    }
  }

  /** The grid has seven columns starting on Sunday, and the blanks put each
      day in the column of its weekday. */
  lemma DayColumn(year: int, month0: int, d: int)
    requires 0 <= month0 < 12 && d >= 1
    ensures (Weekday(DayNumber(year, month0, 1)) + d - 1) % 7 == Weekday(DayNumber(year, month0, d))
  {
    var n := DayNumber(year, month0, 1);
    var w := (n + 4) % 7;
    var q := (n + 4) / 7;
    assert n + 4 == 7 * q + w;
    assert DayNumber(year, month0, d) + 4 == 7 * q + (w + d - 1);
    ModAddMultiple(w + d - 1, q);
  }

  lemma ModAddMultiple(a: int, q: int)
    ensures (7 * q + a) % 7 == a % 7
  {
  }

  /** The expenses dated exactly on `date`. */
  function SameDate(date: CalDate): Expense -> bool {
    (e: Expense) => e.date == date
  }

  /** A day cell's total is the sum over the expenses dated on that day. */
  lemma {:induction false} DayTotalIsSameDate(expenses: seq<Expense>, date: CalDate)
    ensures DayTotal(expenses, date) == TotalSpent(Filter(expenses, SameDate(date)))
  {
    if |expenses| > 0 {
      DayTotalIsSameDate(expenses[1..], date);
      var head := if SameDate(date)(expenses[0]) then [expenses[0]] else [];
      SumOfAppend(head, Filter(expenses[1..], SameDate(date)), Amount);
    }
  }

  /** The running sum is the source's `filter` by date key followed by the
      `reduce` of the amounts. */
  lemma {:induction false} DayTotalIsFilterSum(expenses: seq<Expense>, date: CalDate)
    ensures DayTotal(expenses, date) == TotalSpent(Filter(expenses, OnDate(date)))
  {
    DayTotalIsSameDate(expenses, date);
    FilterSameDate(expenses, date);
  }

  lemma {:induction false} FilterSameDate(s: seq<Expense>, date: CalDate)
    ensures Filter(s, OnDate(date)) == Filter(s, SameDate(date))
  {
    if |s| > 0 {
      FilterSameDate(s[1..], date);
      IsSameDayIff(s[0].date, date);
    }
  }

  /** The cycle text's end day as written: `cycleStartDate - 1 || 30`. */
  function CycleEndLabel(cycleStart: int): (r: int)
    ensures cycleStart != 1 ==> r == cycleStart - 1
  {
    if cycleStart - 1 == 0 then 30 else cycleStart - 1
  }

  /** With the default cycle the text names day 30 as the end, yet the cycle
      of January 2026 also holds 31 January. */
  lemma CycleEndLabelMissesLastDay()
    ensures CycleEndLabel(1) == 30
    ensures InCycle(Date(2026, 0, 31), Date(2026, 0, 15), 1)
    ensures Date(2026, 0, 31).day > CycleEndLabel(1)
  {
  }

  /** The last date of the cycle of the target month, for the cycle days the
      picker offers: the month's own last day for the default cycle, and
      otherwise the day before day `cycleStart` of the target month, which
      rolls into the next month when the target month is shorter. */
  function CycleEndDate(target: CalDate, cycleStart: int): (r: CalDate)
    requires 1 <= cycleStart <= 31
    ensures cycleStart == 1 ==> r == Date(target.year, target.month, DaysInMonth(target.year, target.month))
    ensures cycleStart != 1 ==> Num(r) == DayNumber(target.year, target.month, cycleStart) - 1
    ensures cycleStart != 1 && cycleStart - 1 <= DaysInMonth(target.year, target.month) ==>
              r == Date(target.year, target.month, CycleEndLabel(cycleStart))
  {
    if cycleStart == 1 then Date(target.year, target.month, DaysInMonth(target.year, target.month))
    else if cycleStart - 1 <= DaysInMonth(target.year, target.month) then Date(target.year, target.month, cycleStart - 1)
    else DayPastEnd(target.year, target.month, cycleStart - 1)
  }

  /** The corrected end date lies in the cycle, and no day of the cycle comes
      after it. */
  lemma {:induction false} CycleEndDateIsLast(target: CalDate, cycleStart: int, d: CalDate)
    requires 1 <= cycleStart <= 31
    ensures InCycle(CycleEndDate(target, cycleStart), target, cycleStart)
    ensures InCycle(d, target, cycleStart) ==> Num(d) <= Num(CycleEndDate(target, cycleStart))
  {
    var end := CycleEndDate(target, cycleStart);
    if cycleStart == 1 {
      CycleOneIsMonthWindow(end, target);
      CycleOneIsMonthWindow(d, target);
    }
  }

  /** With cycle day 30 in February 2026 the text names day 29, a day
      February does not have: the cycle really ends on 1 March. */
  lemma CycleEndLabelPastMonthEnd()
    ensures CycleEndLabel(30) == 29 && DaysInMonth(2026, 1) == 28
    ensures CycleEndDate(Date(2026, 1, 10), 30) == Date(2026, 2, 1)
  {
  }

  /** A budget card is over budget when it has a positive budget and more
      was spent. */
  predicate IsOver(spent: int, budget: int) {
    spent > budget && budget > 0
  }

  /** `Math.max(0, budget - spent)`: what is left, never negative. */
  function Remaining(spent: int, budget: int): (r: int)
    ensures r >= 0
    ensures r == 0 <==> spent >= budget
    ensures spent <= budget ==> r + spent == budget
  {
    Max(0, budget - spent)
  }

  /** The red marking agrees with the analysis: a card is over budget exactly
      when its share is above 100 percent, and then nothing remains. */
  lemma OverIffShareAbove100(spent: int, budget: int)
    ensures IsOver(spent, budget) <==> Percent(spent, budget) > 100.0
    ensures IsOver(spent, budget) ==> Remaining(spent, budget) == 0
  {
  }

  /** `budgetAnalysis.find(a => a.category === cat)`. */
  function FindRow(rows: seq<BudgetRow>, category: string): (r: Option<BudgetRow>)
    ensures r.None? <==> forall i :: 0 <= i < |rows| ==> rows[i].category != category
    ensures r.Some? ==> r.value in rows && r.value.category == category
  {
    Find(rows, (row: BudgetRow) => row.category == category)
  }

  datatype Card = Card(spent: int, budget: int, over: bool, remaining: int)

  /** The numbers of one budget card. */
  function CardFor(rows: seq<BudgetRow>, budgets: seq<Budget>, category: string): Card {
    var budget := BudgetFor(budgets, category);
    var spent := match FindRow(rows, category) case Some(row) => row.spent case None => 0;
    Card(spent, budget, IsOver(spent, budget), Remaining(spent, budget))
  }

  /** Every category's card shows what the analysis computed for it: the
      spending of the category in the selected cycle and its budget. */
  lemma {:induction false} CardShowsCycleSpending(expenses: seq<Expense>, budgets: seq<Budget>,
                                                  selected: CalDate, cycleStart: int, category: string)
    requires category in CategoryKeys
    ensures var rows := FinanceAnalysis(expenses, budgets, selected, cycleStart);
            var card := CardFor(rows, budgets, category);
            && card.spent == SpentIn(expenses, CycleWindow(selected, cycleStart), category)
            && card.budget == BudgetFor(budgets, category)
  {
    var rows := FinanceAnalysis(expenses, budgets, selected, cycleStart);
    AnalysisCorrect(expenses, budgets, CycleWindow(selected, cycleStart), 0.0);
    var found := FindRow(rows, category);
    assert RowFor(expenses, budgets, CycleWindow(selected, cycleStart), category) in rows;
  }
}
