/** The figures of the overview page (`useDashboard`): the global spending
    and savings totals, the best habit streak, the spending of the last seven
    days, and the budget analysis of the current calendar month. Today is a
    parameter. */
module Dashboard {
  import opened Common
  import opened Calendar
  import opened Habits
  import opened FinanceFilter
  import opened FinanceBudget
  import opened FinanceLists

  /** `totalSpentGlobal`: the sum of every expense amount. */
  function TotalSpentGlobal(expenses: seq<Expense>): int {
    TotalSpent(expenses)
  }

  /** Removing the expenses with one id lowers the global total by exactly
      what they amounted to. */
  lemma {:induction false} TotalSpentAfterDelete(expenses: seq<Expense>, id: string)
    ensures TotalSpentGlobal(Filter(expenses, (e: Expense) => e.id != id))
              == TotalSpentGlobal(expenses) - TotalSpent(Filter(expenses, (e: Expense) => e.id == id))
  {
    SumOfSplit(expenses, Amount, (e: Expense) => e.id == id, (e: Expense) => e.id != id);
  }

  function SavingCurrent(s: Saving): int {
    s.current
  }

  /** `totalSavingsGlobal`: the sum of every goal's current amount. */
  function TotalSavingsGlobal(savings: seq<Saving>): int {
    SumOf(savings, SavingCurrent)
  }

  lemma {:induction false} SumOfUpdate<T>(s: seq<T>, k: nat, x: T, f: T -> int)
    requires k < |s|
    ensures SumOf(s[k := x], f) == SumOf(s, f) - f(s[k]) + f(x)
  {
    if k > 0 {
      SumOfUpdate(s[1..], k - 1, x, f);
      assert s[k := x][1..] == s[1..][k - 1 := x];
    } else {
      assert s[k := x][1..] == s[1..];
    }
  }

  /** A saved deposit into a goal whose id is unique raises the global
      savings total by the deposit. */
  lemma {:induction false} SavingsAfterDeposit(savings: seq<Saving>, k: nat, add: int)
    requires k < |savings|
    requires forall i :: 0 <= i < |savings| && i != k ==> savings[i].id != savings[k].id
    ensures var r := UpdateSavingAmount(savings, savings[k].id, add, true);
            r.Some? && TotalSavingsGlobal(r.value.savings) == TotalSavingsGlobal(savings) + add
  {
    var id := savings[k].id;
    FindUnique(savings, k);
    var row := savings[k].(current := savings[k].current + add);
    var r := UpdateSavingAmount(savings, id, add, true);
    assert r.value.savings == savings[k := row] by {
      assert |r.value.savings| == |savings[k := row]|;
      forall i | 0 <= i < |savings|
        ensures r.value.savings[i] == savings[k := row][i]
      {
      }
    }
    SumOfUpdate(savings, k, row, SavingCurrent);
  }

  /** A goal whose id no other goal shares is the one found by its id. */
  lemma FindUnique(savings: seq<Saving>, k: nat)
    requires k < |savings|
    requires forall i :: 0 <= i < |savings| && i != k ==> savings[i].id != savings[k].id
    ensures FindSaving(savings, savings[k].id) == Some(savings[k])
  {
    var found := FindSaving(savings, savings[k].id).value;
    var j :| 0 <= j < |savings| && savings[j] == found;
  }

  /** `Math.max(...streaks, 0)`. */
  function MaxStreak(habits: seq<Habit>): (m: int)
    ensures m >= 0
    ensures forall i :: 0 <= i < |habits| ==> habits[i].streak <= m
    ensures m == 0 || exists i :: 0 <= i < |habits| && habits[i].streak == m
  {
    if |habits| == 0 then 0
    else
      var rest := MaxStreak(habits[1..]);
      if rest != 0 && rest >= habits[0].streak then
        var i :| 0 <= i < |habits[1..]| && habits[1..][i].streak == rest;
        assert habits[i + 1].streak == rest;
        rest
      else if habits[0].streak >= rest then habits[0].streak
      else rest
  }

  /** `bestStreak`: the largest streak of any habit, never below 0, and 0
      without habits; when it is positive some habit has exactly that streak. */
  function BestStreak(habits: seq<Habit>): (m: int)
    ensures m >= 0
    ensures |habits| == 0 ==> m == 0
    ensures forall i :: 0 <= i < |habits| ==> habits[i].streak <= m
    ensures m == 0 || exists i :: 0 <= i < |habits| && habits[i].streak == m
  {
    if |habits| > 0 then MaxStreak(habits) else 0
  }

  /** After a habit is toggled, the best streak is at least its new streak and
      every untouched habit's streak, and it is the larger of the old best and
      the new streak at most: a toggle moves the overview only through the
      toggled habit. */
  lemma {:induction false} BestStreakAfterToggle(habits: seq<Habit>, i: nat, today: int)
    requires i < |habits|
    ensures var t := ToggleHabit(habits, habits[i].id, today, true);
            && t[i].streak <= BestStreak(t)
            && (forall j :: 0 <= j < |habits| && habits[j].id != habits[i].id ==> habits[j].streak <= BestStreak(t))
            && BestStreak(t) <= (if BestStreak(habits) >= t[i].streak then BestStreak(habits) else t[i].streak)
  {
    var id := habits[i].id;
    var t := ToggleHabit(habits, id, today, true);
    var b := BestStreak(t);
    if b > 0 {
      var j :| 0 <= j < |t| && t[j].streak == b;
      if habits[j].id == id {
        assert t[j] == t[i];
      } else {
        assert t[j] == habits[j];
      }
    }
  }

  /** The expenses dated on day number `dn`. */
  function OnDay(dn: int): Expense -> bool {
    (e: Expense) => Num(e.date) == dn
  }

  /** The expenses dated in `[lo, hi)`. */
  function InDays(lo: int, hi: int): Expense -> bool {
    (e: Expense) => lo <= Num(e.date) < hi
  }

  function DaySpend(expenses: seq<Expense>, dn: int): int {
    TotalSpent(Filter(expenses, OnDay(dn)))
  }

  /** One point of the weekly chart: the day and what was spent on it. */
  datatype TrendPoint = TrendPoint(day: int, amount: int)

  function PointAmount(p: TrendPoint): int {
    p.amount
  }

  /** The points of the `k` days from day number `lo` on, in order. */
  function TrendPoints(expenses: seq<Expense>, lo: int, k: nat): (r: seq<TrendPoint>)
    ensures |r| == k
  {
    if k == 0 then [] else TrendPoints(expenses, lo, k - 1) + [TrendPoint(lo + (k - 1), DaySpend(expenses, lo + (k - 1)))]
  }

  /** The `i`-th point is day `lo + i` with what was spent on it. */
  lemma {:induction false} TrendPointsAt(expenses: seq<Expense>, lo: int, k: nat)
    ensures forall i :: 0 <= i < k ==> TrendPoints(expenses, lo, k)[i] == TrendPoint(lo + i, DaySpend(expenses, lo + i))
  {
    if k > 0 {
      TrendPointsAt(expenses, lo, k - 1);
    }
  }

  /** `weeklyTrendData`: the seven days ending today, oldest first, each with
      the total of the expenses dated on it. */
  function WeeklyTrend(expenses: seq<Expense>, today: int): (r: seq<TrendPoint>)
    ensures |r| == 7
    ensures forall i :: 0 <= i < 7 ==> r[i].day == today - 6 + i
    ensures forall i :: 0 <= i < 7 ==> r[i].amount == TotalSpent(Filter(expenses, OnDay(r[i].day)))
    ensures r[6].day == today
  {
    TrendPointsAt(expenses, today - 6, 7);
    TrendPoints(expenses, today - 6, 7)
  }

  /** Splitting off the last day of the window `[lo, lo + k)` splits its
      spending. */
  lemma WindowSplit(expenses: seq<Expense>, lo: int, k: nat)
    requires k > 0
    ensures TotalSpent(Filter(expenses, InDays(lo, lo + k)))
              == TotalSpent(Filter(expenses, InDays(lo, lo + (k - 1)))) + DaySpend(expenses, lo + (k - 1))
  {
    SumOfDisjoint(expenses, Amount, InDays(lo, lo + (k - 1)), OnDay(lo + (k - 1)), InDays(lo, lo + k));
  }

  lemma SumOfLast<T>(s: seq<T>, x: T, f: T -> int)
    ensures SumOf(s + [x], f) == SumOf(s, f) + f(x)
  {
    SumOfAppend(s, [x], f);
  }

  /** One more day on the chart adds that day's spending to the window. */
  lemma TrendStep(expenses: seq<Expense>, lo: int, k: nat)
    requires k > 0
    requires SumOf(TrendPoints(expenses, lo, k - 1), PointAmount) == TotalSpent(Filter(expenses, InDays(lo, lo + (k - 1))))
    ensures SumOf(TrendPoints(expenses, lo, k), PointAmount) == TotalSpent(Filter(expenses, InDays(lo, lo + k)))
  {
    var prev := TrendPoints(expenses, lo, k - 1);
    var last := TrendPoint(lo + (k - 1), DaySpend(expenses, lo + (k - 1)));
    SumOfLast(prev, last, PointAmount);
    WindowSplit(expenses, lo, k);
  }

  /** The spending of the first `k` days from `lo` on is the spending of the
      window `[lo, lo + k)`. */
  lemma {:induction false} TrendPrefixSum(expenses: seq<Expense>, lo: int, k: nat)
    ensures SumOf(TrendPoints(expenses, lo, k), PointAmount) == TotalSpent(Filter(expenses, InDays(lo, lo + k)))
  {
    if k == 0 {
      FilterNone(expenses, InDays(lo, lo));
    } else {
      TrendPrefixSum(expenses, lo, k - 1);
      TrendStep(expenses, lo, k);
    }
  }

  /** The seven amounts of the weekly chart add up to the spending of the
      whole week, today included. */
  lemma WeeklyTrendTotal(expenses: seq<Expense>, today: int)
    ensures SumOf(WeeklyTrend(expenses, today), PointAmount)
              == TotalSpent(Filter(expenses, InDays(today - 6, today + 1)))
  {
    TrendPrefixSum(expenses, today - 6, 7);
  }

  /** The calendar month of `today`. */
  function MonthWindow(today: CalDate): CalDate -> bool {
    (d: CalDate) => d.month == today.month && d.year == today.year
  }

  /** `budgetAnalysis` of the overview: the current calendar month. */
  function DashboardAnalysis(expenses: seq<Expense>, budgets: seq<Budget>, today: CalDate): seq<BudgetRow> {
    Analysis(expenses, budgets, MonthWindow(today))
  }

  /** Two windows that agree on every date give the same analysis. */
  lemma {:induction false} AnalysisExt(expenses: seq<Expense>, budgets: seq<Budget>,
                                       w1: CalDate -> bool, w2: CalDate -> bool)
    requires forall d :: w1(d) == w2(d)
    ensures Analysis(expenses, budgets, w1) == Analysis(expenses, budgets, w2)
  {
    forall c | c in CategoryKeys
      ensures RowFor(expenses, budgets, w1, c) == RowFor(expenses, budgets, w2, c)
    {
      forall e: Expense
        ensures SpentFilter(w1, c)(e) == SpentFilter(w2, c)(e)
      {
        assert w1(e.date) == w2(e.date);
      }
      FilterExt(expenses, SpentFilter(w1, c), SpentFilter(w2, c));
    }
    var r1 := Rows(expenses, budgets, w1, CategoryKeys);
    var r2 := Rows(expenses, budgets, w2, CategoryKeys);
    assert forall i :: 0 <= i < |r1| ==> r1[i] == r2[i];
    assert r1 == r2;
  }

  /** The overview's analysis is the wallet's analysis for today with the
      default billing cycle. */
  lemma DashboardIsDefaultCycle(expenses: seq<Expense>, budgets: seq<Budget>, today: CalDate)
    ensures DashboardAnalysis(expenses, budgets, today) == FinanceAnalysis(expenses, budgets, today, 1)
  {
    AnalysisExt(expenses, budgets, MonthWindow(today), CycleWindow(today, 1));
  }
}
