/** Category budgets (`useFinance` and `useDashboard`): the allocation totals
    and the per-category budget analysis. The analysis lists every category
    of the translation table with what was spent in it inside a date window,
    its budget and the spent share of that budget in percent, largest share
    first. Percentages are exact reals. */
module FinanceBudget {
  import opened Common
  import opened Sorting
  import opened Calendar
  import opened FinanceFilter

  datatype Budget = Budget(id: string, category: string, amount: int)

  datatype BudgetRow = BudgetRow(category: string, spent: int, budget: int, percent: real)

  /** The keys of `t.categories`, in declaration order. */
  const CategoryKeys: seq<string> := ["Food", "Transport", "Shopping", "Bills", "Health", "Entertainment", "Others"]

  function BudgetAmount(b: Budget): int {
    b.amount
  }

  /** `totalAllocated`: the sum of all budget amounts. */
  function TotalAllocated(budgets: seq<Budget>): int {
    SumOf(budgets, BudgetAmount)
  }

  /** `unallocatedBudget`. */
  function Unallocated(totalMonthly: int, budgets: seq<Budget>): int {
    totalMonthly - TotalAllocated(budgets)
  }

  /** Every budget added lowers what is left to allocate by its amount, and
      the budgets plus the remainder always make up the monthly total. */
  lemma {:induction false} UnallocatedAfterAdd(totalMonthly: int, budgets: seq<Budget>, b: Budget)
    ensures Unallocated(totalMonthly, budgets + [b]) == Unallocated(totalMonthly, budgets) - b.amount
    ensures Unallocated(totalMonthly, budgets + [b]) + TotalAllocated(budgets) + b.amount == totalMonthly
  {
    SumOfAppend(budgets, [b], BudgetAmount);
  }

  /** `budgets.find(b => b.category === cat)?.amount || 0`: the amount of the
      first budget of that category, 0 when there is none. */
  function BudgetFor(budgets: seq<Budget>, category: string): (r: int)
    ensures (forall i :: 0 <= i < |budgets| ==> budgets[i].category != category) ==> r == 0
    ensures forall i :: 0 <= i < |budgets| && budgets[i].category == category
                        && (forall j :: 0 <= j < i ==> budgets[j].category != category)
                        ==> r == budgets[i].amount
  {
    if |budgets| == 0 then 0
    else if budgets[0].category == category then budgets[0].amount
    else
      assert forall i :: 0 < i < |budgets| ==> budgets[i] == budgets[1..][i - 1];
      BudgetFor(budgets[1..], category)
  }

  /** `budget > 0 ? (spent / budget) * 100 : 0`. */
  function Percent(spent: int, budget: int): (p: real)
    ensures budget <= 0 ==> p == 0.0
    ensures budget > 0 ==> p * (budget as real) == (spent as real) * 100.0
    ensures budget > 0 ==> (p >= 100.0 <==> spent >= budget)
    ensures budget > 0 ==> (p > 100.0 <==> spent > budget)
  {
    if budget > 0 then
      var b := budget as real;
      var p := (spent as real / b) * 100.0;
      assert p * b == (spent as real) * 100.0;
      p
    else 0.0
  }

  /** The selector of one category's expenses inside a date window. */
  function SpentFilter(window: CalDate -> bool, category: string): Expense -> bool {
    (e: Expense) => window(e.date) && e.category == category
  }

  /** What was spent in one category inside the window. */
  function SpentIn(expenses: seq<Expense>, window: CalDate -> bool, category: string): int {
    TotalSpent(Filter(expenses, SpentFilter(window, category)))
  }

  /** The analysis row of one category. */
  function RowFor(expenses: seq<Expense>, budgets: seq<Budget>, window: CalDate -> bool, category: string): BudgetRow {
    var spent := SpentIn(expenses, window, category);
    var budget := BudgetFor(budgets, category);
    BudgetRow(category, spent, budget, Percent(spent, budget))
  }

  /** `Object.keys(t.categories).map(...)` before sorting. */
  function Rows(expenses: seq<Expense>, budgets: seq<Budget>, window: CalDate -> bool, categories: seq<string>): (r: seq<BudgetRow>)
    ensures |r| == |categories|
    ensures forall i :: 0 <= i < |r| ==> r[i] == RowFor(expenses, budgets, window, categories[i])
  {
    if |categories| == 0 then []
    else [RowFor(expenses, budgets, window, categories[0])] + Rows(expenses, budgets, window, categories[1..])
  }

  function ByPercent(row: BudgetRow): real {
    row.percent
  }

  /** The budget analysis over a date window, largest share first. */
  function Analysis(expenses: seq<Expense>, budgets: seq<Budget>, window: CalDate -> bool): seq<BudgetRow> {
    SortDesc(Rows(expenses, budgets, window, CategoryKeys), ByPercent)
  }

  /** The analysis has one row per category, each row holds that category's
      spending in the window, its budget and the share, and the rows are
      sorted by share, largest first, ties in category order. */
  lemma {:induction false} AnalysisCorrect(expenses: seq<Expense>, budgets: seq<Budget>, window: CalDate -> bool, v: real)
    ensures var r := Analysis(expenses, budgets, window);
            && |r| == |CategoryKeys|
            && (forall c :: c in CategoryKeys ==> RowFor(expenses, budgets, window, c) in r)
            && (forall row :: row in r ==> row.category in CategoryKeys && row == RowFor(expenses, budgets, window, row.category))
            && SortedDesc(r, ByPercent)
            && Filter(r, KeyIs(ByPercent, v)) == Filter(Rows(expenses, budgets, window, CategoryKeys), KeyIs(ByPercent, v))
  {
    var rows := Rows(expenses, budgets, window, CategoryKeys);
    var r := Analysis(expenses, budgets, window);
    SortDescCorrect(rows, ByPercent, v);
    RowsMembers(expenses, budgets, window, CategoryKeys);
    SameMembers(r, rows);
  }

  /** The rows before sorting are exactly the rows of the given categories. */
  lemma RowsMembers(expenses: seq<Expense>, budgets: seq<Budget>, window: CalDate -> bool, categories: seq<string>)
    ensures forall c :: c in categories ==> RowFor(expenses, budgets, window, c) in Rows(expenses, budgets, window, categories)
    ensures forall row :: row in Rows(expenses, budgets, window, categories) ==>
              row.category in categories && row == RowFor(expenses, budgets, window, row.category)
  {
    var rows := Rows(expenses, budgets, window, categories);
    forall c | c in categories
      ensures RowFor(expenses, budgets, window, c) in rows
    {
      var i :| 0 <= i < |categories| && categories[i] == c;
      assert rows[i] == RowFor(expenses, budgets, window, c);
    }
    forall row | row in rows
      ensures row.category in categories && row == RowFor(expenses, budgets, window, row.category)
    {
      var i :| 0 <= i < |rows| && rows[i] == row;
      assert row == RowFor(expenses, budgets, window, categories[i]);
    }
  }

  /** Two sequences with the same multiset have the same elements. */
  lemma SameMembers<T>(a: seq<T>, b: seq<T>)
    requires multiset(a) == multiset(b)
    ensures forall x :: x in a <==> x in b
  {
    forall x
      ensures x in a <==> x in b
    {
      assert x in a <==> x in multiset(a);
      assert x in b <==> x in multiset(b);
    }
  }

  /** The billing-cycle window of the wallet page. */
  function CycleWindow(target: CalDate, cycleStart: int): CalDate -> bool {
    (d: CalDate) => InCycle(d, target, cycleStart)
  }

  /** `budgetAnalysis` of the wallet page: the cycle of the selected date. */
  function FinanceAnalysis(expenses: seq<Expense>, budgets: seq<Budget>, selected: CalDate, cycleStart: int): seq<BudgetRow> {
    Analysis(expenses, budgets, CycleWindow(selected, cycleStart))
  }

  /** The spending of a category in a window never counts an expense outside
      the window or of another category: it is the sum over exactly the
      expenses the monthly view of the wallet keeps that are of that category. */
  lemma {:induction false} CycleSpentIsMonthlyView(expenses: seq<Expense>, selected: CalDate, cycleStart: int,
                                                   labels: map<string, string>, category: string)
    ensures SpentIn(expenses, CycleWindow(selected, cycleStart), category)
              == TotalSpent(Filter(FilteredExpenses(expenses, "", labels, Monthly, selected, cycleStart),
                                   (e: Expense) => e.category == category))
  {
    var keep := (e: Expense) => Keep(e, "", labels, Monthly, selected, cycleStart);
    var inCat := (e: Expense) => e.category == category;
    FilterTwice(expenses, keep, inCat, SpentFilter(CycleWindow(selected, cycleStart), category));
  }

  /** Filtering twice is filtering once by both tests. */
  lemma {:induction false} FilterTwice(s: seq<Expense>, p: Expense -> bool, q: Expense -> bool, both: Expense -> bool)
    requires forall e :: both(e) == (p(e) && q(e))
    ensures Filter(Filter(s, p), q) == Filter(s, both)
  {
    if |s| > 0 {
      FilterTwice(s[1..], p, q, both);
      var head := if p(s[0]) then [s[0]] else [];
      FilterAppend(head, Filter(s[1..], p), q);
    }
  }
}
