# Zenith: a Dafny model of the offline queue, habits, wallet and overview logic

Zenith is a personal productivity web application: it tracks expenses,
budgets, savings goals and habits, and keeps local mutations in an offline
queue that is replayed against the backend later. This project models the
logic behind those screens as pure Dafny functions over immutable data, and
proves what each piece promises:

- the offline mutation queue (`hooks/useSync.ts`): the coalescing enqueue
  (an UPDATE merges into a pending INSERT, a DELETE cancels it, anything else
  is appended) and the drain loop that retries failing items by rotating them
  to the tail within `length + 2` attempts (modules `SyncQueue`, `SyncProcess`);
- habits (`hooks/useHabits.ts`): toggling today's completion, the streak of
  consecutive completed days, and deleting a habit (module `Habits`);
- the wallet (`hooks/useFinance.ts`, `pages/Finance.tsx`): the search and
  daily/weekly/monthly filters with the billing cycle, pagination and its page
  buttons, the per-category chart, the budget analysis and budget cards, the
  CSV quoting of descriptions, the month calendar grid, quick actions,
  subscriptions and saving goals (modules `FinanceFilter`, `FinanceChart`,
  `FinanceBudget`, `FinanceLists`, `FinancePage`);
- the overview (`hooks/useDashboard.ts`): global totals, best streak, the
  seven-day trend and the calendar-month budget analysis (module `Dashboard`);
- toast notifications (`components/Toast.tsx`): at most five on screen,
  newest last (module `Toasts`);
- the date keys of `utils/dateHelpers.ts` (module `DateHelpers`) over a model
  of the local calendar of JavaScript's `Date` (module `Calendar`: day
  numbers, month lengths, weekdays), and the string helpers the search uses
  (module `Text`: `toLowerCase`, `trim`, `includes`).

Shared pieces live in `Common` (`Option`, `filter`, sums, `slice`) and
`Sorting` (a stable descending sort, as `Array.prototype.sort` is stable).
The backend, local storage, the clock and random ids are parameters: a remote
call's outcome is an oracle `ok(attempt, item)`, "today" and fresh ids are
arguments, and a backend row returned after an update is taken to be the row
the client computed.

## Model

| member | source | states |
|---|---|---|
| Calendar.DaysInMonth | pages/Finance.tsx:106 | The day before the first of the next month is 28 to 31, and 29 exactly in February of a leap year. |
| Calendar.Weekday | pages/Finance.tsx:107 | `getDay()` of a day number is in 0..6 (0 Sunday). |
| Calendar.NumInjective | hooks/useFinance.ts:107-112 | Comparing two dates as `Date` values is comparing their day numbers: equal day numbers exactly for the same date, and smaller exactly for an earlier (year, month, day). |
| Calendar.DayNumberBounds | hooks/useFinance.ts:119-120 | A date's day number lies inside its own month and its own year. |
| Calendar.PrevMonth | hooks/useFinance.ts:124-126 | The month before, January wrapping to December of the year before, is a valid month whose length separates its first day from the first of the given month. |
| Calendar.NextMonth | hooks/useFinance.ts:128 | The month after, December wrapping to January of the next year, is a valid month starting as many days after the given month's first day as that month has. |
| Calendar.NextThenPrev | hooks/useFinance.ts:124-128 | The month before the month after a month is that month again. |
| Calendar.RollOver | hooks/useFinance.ts:126-128 | A day up to three past a month's end is the matching early day of the next month, with the same day number, as `new Date` rolls it over. |
| Calendar.DayPastEnd | hooks/useFinance.ts:126-128 | The rolled-over date is a real calendar date with the day number of the overflowing day. |
| DateHelpers.PadStart | utils/dateHelpers.ts:5-6 | `padStart` keeps the string as its suffix and fills the front with the fill character up to the width. |
| DateHelpers.TwoDigits | utils/dateHelpers.ts:5-6 | A month or day is printed as exactly two digits that read back as the number. |
| DateHelpers.TwoDigitsIsPadded | utils/dateHelpers.ts:5-6 | The two digits are exactly `String(n).padStart(2, '0')` for every month or day number. |
| DateHelpers.IntRoundTrip | utils/dateHelpers.ts:4 | Printing a year with `String` and parsing it back gives the year, negative years included. |
| DateHelpers.KeyRoundTrip | utils/dateHelpers.ts:2-8 | A `YYYY-MM-DD` key parses back to the (year, month, day) it was made from. |
| DateHelpers.IsSameDayIff | utils/dateHelpers.ts:10-12 | Two dates have equal keys exactly when they are the same calendar date. |
| SyncQueue.FindPendingInsert | hooks/useSync.ts:30-34 | `findIndex` returns the first pending INSERT on the table with the strictly equal `matchValue`, or none when no entry qualifies. |
| SyncQueue.MergePayload | hooks/useSync.ts:37 | The spread merge has the keys of both payloads, the update's values winning on a shared key. |
| SyncQueue.RemoveAt | hooks/useSync.ts:52 | `splice(i, 1)` removes position `i` and keeps the others in order. |
| SyncQueue.CoalesceTarget | hooks/useSync.ts:29-35 | Only an UPDATE or DELETE with a truthy `matchValue` coalesces, into the first matching pending INSERT; otherwise no target exists. |
| SyncQueue.AddToQueue | hooks/useSync.ts:24-65 | An UPDATE merges into its pending INSERT in place, a DELETE removes that INSERT leaving the rest in order, and anything else is appended with a fresh id. |
| SyncQueue.AddToQueueLength | hooks/useSync.ts:24-65 | An enqueue changes the length by at most one, only a DELETE shrinks the queue, and a growing queue ends with the new item. |
| SyncQueue.InsertAlwaysAppends | hooks/useSync.ts:58-63 | An INSERT is always appended. |
| SyncQueue.FalsyMatchAppends | hooks/useSync.ts:29 | An UPDATE or DELETE with an absent, empty or zero `matchValue` is appended, never coalesced. |
| SyncQueue.InsertThenDeleteCancels | hooks/useSync.ts:44-55 | An INSERT under a fresh temporary id followed by a DELETE of that id leaves the queue as it was. |
| SyncQueue.InsertThenUpdateMerges | hooks/useSync.ts:29-40 | An INSERT under a fresh temporary id followed by an UPDATE of it leaves one INSERT carrying the merged payload. |
| SyncQueue.AddToQueueKeepsNoReference | hooks/useSync.ts:24-65 | No queued UPDATE or DELETE ever refers to an INSERT still pending before it, and enqueueing keeps it so. |
| SyncProcess.StepMultiset | hooks/useSync.ts:130-138 | A success removes exactly the head item and a failure moves it to the tail without losing anything. |
| SyncProcess.DrainBounds | hooks/useSync.ts:106-146 | The loop makes at most one backend call per remaining attempt and stops early only on an empty queue. |
| SyncProcess.DrainMultiset | hooks/useSync.ts:106-146 | The loop only removes items: the final queue is a sub-multiset of the initial one. |
| SyncProcess.ProcessQueue | hooks/useSync.ts:88-161 | Nothing runs without a user, during a sync, or with no or an empty stored queue; a run makes at most length + 2 calls, clears storage and refetches exactly when the queue emptied, and otherwise stores a non-empty queue no longer than before. |
| SyncProcess.ProcessQueueKeepsItems | hooks/useSync.ts:88-161 | What stays stored after a run is a sub-multiset of what was stored. |
| SyncProcess.RunQueue | hooks/useSync.ts:106-146 | The imperative loop computes the same final queue and call count as the loop's recursive definition, within length + 2 calls. |
| SyncProcess.FixedOutcomeDrain | hooks/useSync.ts:106-146 | When each item always succeeds or always fails, the final queue is the failing items, rotated twice by the two buffered attempts. |
| SyncProcess.FixedOutcomeProcess | hooks/useSync.ts:106-158 | With fixed outcomes, a run refetches exactly when no item fails, and otherwise stores the failing items rotated twice. |
| SyncProcess.OneBadItemRemains | hooks/useSync.ts:103-107 | One permanently failing item among succeeding ones is all that remains, after all length + 2 attempts. |
| SyncProcess.CallsUsed | hooks/useSync.ts:107-145 | When a failing item is left over, every allowed attempt was spent. |
| SyncProcess.NeverEmpties | hooks/useSync.ts:109-146 | A queue holding an item that fails on every attempt spends every remaining attempt. |
| Habits.ToggleDates | hooks/useHabits.ts:38-39 | Toggling removes every occurrence of today when present, keeping every other day, and appends today otherwise. |
| Habits.ToggleTwice | hooks/useHabits.ts:38-39 | Toggling twice restores which days are completed, and restores the list itself when today was absent. |
| Habits.RunBackIsMaximalRun | hooks/useHabits.ts:53-60 | The backward count from a day is a maximal run: those days are all completed and the day before them is not. |
| Habits.MaximalRunIsRunBack | hooks/useHabits.ts:53-60 | Any maximal run ending at a day has the length the backward count gives. |
| Habits.StreakCases | hooks/useHabits.ts:42-64 | The streak is the run ending today when today is completed, otherwise the run ending yesterday, and 0 when neither day is completed. |
| Habits.ComputeStreak | hooks/useHabits.ts:42-64 | The `while (true)` loop as written terminates and returns the streak. |
| Common.Find | hooks/useHabits.ts:35 | `find` gives a matching element of the list, and nothing exactly when no element matches. |
| Common.FindFirst | hooks/useHabits.ts:35 | The element `find` gives is the one at the first index where the test holds. |
| Habits.FindHabit | hooks/useHabits.ts:35 | `find` returns a habit with that id from the list, and none exactly when no habit has it. |
| Habits.ToggleHabit | hooks/useHabits.ts:34-69 | Toggling changes only the habits with that id, and nothing when the id is unknown or the backend returned no row. |
| Habits.ToggleHabitUpdates | hooks/useHabits.ts:34-68 | The toggled habit carries the toggled dates and the streak computed over them. |
| Habits.DeleteHabit | hooks/useHabits.ts:28-32 | No habit with the deleted id remains. |
| Habits.DeleteHabitKeepsOthers | hooks/useHabits.ts:28-32 | Deleting keeps exactly the habits with another id, and an unknown id changes nothing. |
| Text.ToLower | hooks/useFinance.ts:93 | Lower-casing keeps the length, leaves no upper-case letter, keeps every other character and shifts each upper-case letter by 32. |
| Text.ToLowerIdempotent | hooks/useFinance.ts:93 | Lower-casing twice is lower-casing once. |
| Text.TrimStart | hooks/useFinance.ts:92 | The result is a suffix starting with a non-space, and only white space was removed. |
| Text.TrimEnd | hooks/useFinance.ts:92 | The result is a prefix ending with a non-space, and only white space was removed. |
| Text.TrimEmptyIff | hooks/useFinance.ts:92 | A query trims to empty exactly when every character is JavaScript white space. |
| Text.Includes | hooks/useFinance.ts:95-98 | `includes` holds exactly when the query occurs at some position. |
| Text.IncludesTrivial | hooks/useFinance.ts:95-98 | Every string includes the empty query and itself. |
| Sorting.SortDescCorrect | hooks/useFinance.ts:155 | Sorting by a key, largest first, is a permutation, is sorted, and keeps the relative order of elements with equal keys. |
| Sorting.SortDescSum | hooks/useFinance.ts:155 | Sorting does not change a sum over the elements. |
| FinanceFilter.FilteredExpenses | hooks/useFinance.ts:90-135 | The filtered list keeps exactly the expenses that match the search, or the selected period when the query is blank, without adding or duplicating any. |
| FinanceFilter.BlankQueryIff | hooks/useFinance.ts:92 | The search applies exactly when the query has a non-white-space character. |
| FinanceFilter.SearchIgnoresCase | hooks/useFinance.ts:93-99 | A query matches an expense exactly when its lower-cased form does. |
| FinanceFilter.DailyIsSameDate | hooks/useFinance.ts:103-104 | The daily view keeps exactly the expenses dated on the selected date. |
| FinanceFilter.CycleOneIsMonthWindow | hooks/useFinance.ts:119-120 | The default cycle keeps exactly the day numbers of the target's calendar month. |
| FinanceFilter.CycleWindowLength | hooks/useFinance.ts:122-130 | Any other cycle spans as many days as the month it starts in. |
| FinanceFilter.MonthFirst | hooks/useFinance.ts:126-128 | The first of a month has that month's first day number. |
| FinanceFilter.EarlierCycleEndsFirst | hooks/useFinance.ts:124-130 | The cycle of an earlier month ends no later than the cycle of a later month starts. |
| FinanceFilter.CycleUnique | hooks/useFinance.ts:118-130 | Two targets whose cycles share a day are the same month, for every cycle day. |
| FinanceFilter.CycleTarget | hooks/useFinance.ts:118-130 | For every cycle day the picker offers, each date lies in the cycle of some month: the next, its own or the previous one. |
| FinanceFilter.CyclesTile | hooks/useFinance.ts:118-130 | For every cycle day the picker offers, a date lies in a target's cycle exactly when the target is that one month, so the cycles tile the calendar. |
| FinanceFilter.CycleBounds | hooks/useFinance.ts:122-130 | For cycle day c from 2 on, when both boundary days exist, the cycle runs from day c of the previous month to day c - 1 of the target month, both inclusive. |
| FinanceFilter.CycleExample | hooks/useFinance.ts:122-123 | With cycle day 25 the cycle of February 2026 runs from 25 January to 24 February inclusive. |
| FinanceFilter.TotalPages | hooks/useFinance.ts:141 | The page count is the ceiling of the count over 8: the pages hold every item and the last page is not empty. |
| FinanceFilter.Page | hooks/useFinance.ts:142-145 | A page holds at most 8 items. |
| FinanceFilter.PageContents | hooks/useFinance.ts:142-145 | Page `p` is the items from position 8(p-1) on, up to 8 of them; it is empty exactly past the last page. |
| FinanceFilter.PagesPrefix | hooks/useFinance.ts:142-145 | The first `k` pages together are the first 8k items. |
| FinanceFilter.PagesCover | hooks/useFinance.ts:141-145 | All pages together are the whole filtered list, in order. |
| FinanceChart.AddTo | hooks/useFinance.ts:151 | Adding to a category raises its total by the amount, changes no other total, and appends a new key last. |
| FinanceChart.CategoryTotals | hooks/useFinance.ts:150-151 | The keys listed are exactly the categories present, each once. |
| FinanceChart.CategoryTotalsCorrect | hooks/useFinance.ts:150-151 | Each category's total is the sum of the amounts of that category's filtered expenses. |
| FinanceChart.CategoryTotalsKeys | hooks/useFinance.ts:150-152 | A category gets a key exactly when some filtered expense belongs to it. |
| FinanceChart.TotalsSum | hooks/useFinance.ts:147-151 | The totals over all keys add up to the filtered spending total. |
| FinanceChart.Entries | hooks/useFinance.ts:152-154 | Each key becomes an entry named by its label, or by itself when the label is missing or empty, valued at its total. |
| FinanceChart.ChartDataCorrect | hooks/useFinance.ts:149-156 | The chart has one entry per category present, is a sorted permutation of the entries, adds up to `totalSpentFiltered`, and keeps first-appearance order among equal values. |
| FinanceChart.ChartEntryOfCategory | hooks/useFinance.ts:149-156 | Every category present appears in the chart with the total of its expenses. |
| FinanceBudget.UnallocatedAfterAdd | hooks/useFinance.ts:50-51 | Each added budget lowers the unallocated amount by its amount; allocations plus the remainder are the monthly total. |
| FinanceBudget.BudgetFor | hooks/useFinance.ts:173 | The budget of a category is the amount of the first budget for it, and 0 when there is none. |
| FinanceBudget.Percent | hooks/useFinance.ts:174 | The share is 0 without a positive budget, otherwise spent*100/budget, reaching 100 exactly when spent reaches the budget and exceeding it exactly when spent exceeds it. |
| FinanceBudget.Rows | hooks/useFinance.ts:160-174 | Each category gets the row with its spending in the window, its budget and its share, in category order. |
| FinanceBudget.AnalysisCorrect | hooks/useFinance.ts:158-176 | The analysis has one correct row per category of the translation table, sorted by share, largest first, ties in category order. |
| FinanceBudget.CycleSpentIsMonthlyView | hooks/useFinance.ts:161-172 | A category's spending in the cycle is the total of that category within the monthly view of the list. |
| FinanceLists.EditActions | hooks/useFinance.ts:236-241 | Editing rewrites label, amount and category of the entries with that id, keeps every id and leaves the others unchanged. |
| FinanceLists.SaveQuickAction | hooks/useFinance.ts:233-253 | Nothing happens with an empty label or amount; editing rewrites the edited entry and ends the edit; otherwise one entry is appended; the form resets to the Transport default. |
| FinanceLists.DeleteQuickAction | hooks/useFinance.ts:255-257 | Without confirmation nothing changes, and a confirmed delete only keeps existing entries. |
| FinanceLists.DeleteQuickActionExact | hooks/useFinance.ts:255-257 | A confirmed delete removes exactly the entries with that id, and an unknown id changes nothing. |
| FinanceLists.EditThenDelete | hooks/useFinance.ts:236-257 | Editing an entry and then deleting it leaves the same list as deleting it directly. |
| FinanceLists.AddSubscription | hooks/useFinance.ts:259-270 | A subscription is appended and the form resets to the Bills default exactly when label, amount and day are all filled. |
| FinanceLists.DeleteSubscription | hooks/useFinance.ts:272-274 | Without confirmation nothing changes; a confirmed delete leaves no subscription with that id. |
| FinanceLists.DeleteSubscriptionExact | hooks/useFinance.ts:272-274 | A confirmed delete keeps exactly the subscriptions with another id, and an unknown id leaves the list as it was. |
| FinanceLists.AddThenDeleteSubscription | hooks/useFinance.ts:259-274 | Adding a subscription and deleting it by its fresh id restores the list. |
| FinanceLists.FindSaving | hooks/useFinance.ts:292 | `find` returns a goal with that id from the list, and none exactly when no goal has it. |
| FinanceLists.UpdateSavingAmount | hooks/useFinance.ts:291-300 | An unknown goal changes nothing; the celebration fires exactly when the new amount reaches the target the old one had not; a saved update puts the new amount on the goals with that id and keeps the others. |
| FinanceLists.CelebratesOnce | hooks/useFinance.ts:291-299 | After a saved update that celebrated, the next update of that goal does not celebrate, whatever amount it adds. |
| FinanceLists.ReachedStays | hooks/useFinance.ts:291-299 | A goal at or past its target stays there under a non-negative deposit, which does not celebrate. |
| FinanceLists.CelebrationReaches | hooks/useFinance.ts:291-299 | A saved update that celebrated leaves the goal at or past its target. |
| FinanceLists.ReachedNeverCelebrates | hooks/useFinance.ts:291-299 | Once a goal has reached its target, every run of non-negative deposits finds it and none celebrates. |
| FinanceLists.CelebratesOnceForDeposits | hooks/useFinance.ts:291-299 | After a saved update that celebrated, no run of non-negative deposits (the two buttons, a non-negative prompt amount) celebrates that goal again. |
| FinanceLists.WithdrawalCelebratesAgain | pages/Finance.tsx:573 | A negative prompt amount can take a goal back below its target, and the next deposit then celebrates a second time. |
| FinancePage.PageWindow | pages/Finance.tsx:488-495 | The button window lies within the pages, has at most 5 buttons, exactly 5 when there are that many pages, and contains the current page. |
| FinancePage.PageButtons | pages/Finance.tsx:487-511 | The loop lists consecutive page numbers within range, at most 5, including the current page. |
| FinancePage.Navigate | pages/Finance.tsx:469-530 | Every button keeps a valid current page valid; first and last go to page 1 and the last page. |
| FinancePage.NavigationStaysInRange | pages/Finance.tsx:469-530 | Any sequence of button presses keeps the current page between 1 and the page count. |
| FinancePage.StepByOne | pages/Finance.tsx:479-517 | Previous and next move by exactly one page unless at the edge, where they stay. |
| FinancePage.QuoteField | pages/Finance.tsx:88 | The quoted description is enclosed in quotes and grows by one character per quote it contains. |
| FinancePage.DoubleQuotesLength | pages/Finance.tsx:88 | Doubling quotes adds one character per quote. |
| FinancePage.UndoubleDouble | pages/Finance.tsx:88 | Undoubling the doubled quotes gives the original text. |
| FinancePage.QuoteRoundTrip | pages/Finance.tsx:88 | A CSV reader unquoting the field gets the original description back. |
| FinancePage.RenderCalendar | pages/Finance.tsx:103-121 | The grid has one blank per weekday before the first of the month, then one cell per day carrying that day's total. |
| FinancePage.LeadingBlanks | pages/Finance.tsx:110-112 | The first loop produces exactly `firstDay` blanks. |
| FinancePage.AppendDays | pages/Finance.tsx:114-120 | The second loop appends one cell per day of the month, in order, after the blanks. |
| FinancePage.DayColumn | pages/Finance.tsx:107-114 | Each day lands in the column of its weekday. |
| FinancePage.DayTotalIsSameDate | pages/Finance.tsx:119-120 | A day's total is the sum over exactly the expenses dated on that day. |
| FinancePage.DayTotalIsFilterSum | pages/Finance.tsx:119-120 | The day's total equals filtering the expenses by `YYYY-MM-DD` key and summing their amounts. |
| FinancePage.DayCellsAt | pages/Finance.tsx:114-120 | The cell built for day `d` sits at position `d - 1` of the day cells. |
| FinancePage.CycleEndLabel | pages/Finance.tsx:647-648 | The cycle text names the day before the cycle day as the end. |
| FinancePage.CycleEndLabelMissesLastDay | pages/Finance.tsx:647-648 | For the default cycle the text names day 30 although 31 January 2026 lies in the cycle. |
| FinancePage.CycleEndDate | pages/Finance.tsx:647-648 | The corrected end is the month's last day for cycle day 1 and otherwise the day before the cycle day of the target month, rolled over into the next month when that day does not exist; for cycle days other than 1 it agrees with the text whenever the text's day exists. |
| FinancePage.CycleEndDateIsLast | pages/Finance.tsx:647-648 | For every cycle day the picker offers, the corrected end lies in the cycle and no day of the cycle comes after it. |
| FinancePage.CycleEndLabelPastMonthEnd | pages/Finance.tsx:647-648 | With cycle day 30 in February 2026 the text names day 29, which that month does not have; the cycle ends on 1 March. |
| FinancePage.Remaining | pages/Finance.tsx:740 | What remains is never negative, is 0 exactly when the budget is used up, and otherwise is the budget minus spending. |
| FinancePage.OverIffShareAbove100 | pages/Finance.tsx:698 | A card is red exactly when the analysis share is above 100 percent, and then nothing remains. |
| FinancePage.FindRow | pages/Finance.tsx:695 | `find` returns the analysis row of that category, and none exactly when there is none. |
| FinancePage.CardShowsCycleSpending | pages/Finance.tsx:693-698 | Every category's card shows its spending in the selected cycle and its budget. |
| Dashboard.TotalSpentAfterDelete | hooks/useDashboard.ts:35 | Removing the expenses with one id lowers the global total by exactly what they amounted to. |
| Dashboard.SavingsAfterDeposit | hooks/useDashboard.ts:36 | A saved deposit into a goal with a unique id raises the global savings total by the deposit. |
| Dashboard.MaxStreak | hooks/useDashboard.ts:37 | `Math.max(...streaks, 0)` is non-negative, bounds every streak, and is some habit's streak when positive. |
| Dashboard.BestStreak | hooks/useDashboard.ts:37 | The best streak is 0 without habits, bounds every habit's streak, and is attained when positive. |
| Dashboard.BestStreakAfterToggle | hooks/useDashboard.ts:37 | After a toggle the best streak bounds the toggled habit's new streak and every untouched habit's streak, and exceeds neither the old best nor the new streak, whichever is larger. |
| Dashboard.TrendPointsAt | hooks/useDashboard.ts:40-46 | The point at position `i` is day `lo + i` with the total of the expenses dated on it. |
| Dashboard.WeeklyTrend | hooks/useDashboard.ts:39-48 | The trend has seven consecutive days ending today, each with that day's spending. |
| Dashboard.TrendPrefixSum | hooks/useDashboard.ts:40-46 | The amounts of the first `k` days add up to the spending of that `k`-day window. |
| Dashboard.WeeklyTrendTotal | hooks/useDashboard.ts:39-48 | The seven amounts add up to the spending of the whole week, today included. |
| Dashboard.AnalysisExt | hooks/useDashboard.ts:50-60 | Two date windows that agree on every date give the same analysis. |
| Dashboard.DashboardIsDefaultCycle | hooks/useDashboard.ts:50-60 | The overview's analysis is the wallet's analysis for today with the default cycle. |
| Toasts.ShowToast | components/Toast.tsx:87-90 | At most five toasts remain, the new one last, after the last four already shown. |
| Toasts.PushIsLastFive | components/Toast.tsx:87-90 | Showing a toast leaves the last five of the list with the toast appended. |
| Toasts.ShowAllIsLastFive | components/Toast.tsx:87-90 | After any number of toasts the screen holds the last five of all of them, newest last. |
| Toasts.DismissToast | components/Toast.tsx:92-94 | No toast with the dismissed id remains, and the list does not grow. |
| Toasts.DismissExact | components/Toast.tsx:92-94 | Dismissing removes exactly the toasts with that id, and an id no longer shown changes nothing. |
| Toasts.ShowThenDismiss | components/Toast.tsx:87-94 | Showing a toast under a fresh id and dismissing it leaves the last four toasts from before. |

## Left out

- Backend calls (Supabase inserts, updates, deletes and their errors) are not modelled: the outcome of a queued call is an oracle parameter, and `saved` flags stand for "the backend returned a row".
- The row a backend returns after an update is assumed to be the row the client computed (`UpdateSavingAmount`, `ToggleHabit`); the source stores whatever comes back.
- Local storage and JSON (de)serialisation are left out: the queue and lists are values, and a missing or unreadable stored queue is `None`.
- The branch of `processQueue` where the item vanished from storage while the call was awaited (`hooks/useSync.ts:124-127`) is not modelled: the model is sequential, so the head item is always found at position 0.
- Failing items do not end in their original order: with fixed outcomes the final queue is the failing items rotated twice by the two buffered attempts, and the model proves that behaviour (`SyncProcess.FixedOutcomeDrain`) rather than an order-preserving one.
- Toasts, console logging and the auto-sync effect of `useSync` are left out; they do not change the queue.
- Time zones are taken as UTC offset 0, so local and ISO dates coincide; `toISOString` in `useHabits` and the local getters elsewhere then name the same day.
- Dates are (year, zero-based month, day) values; times of day are left out, so the weekly window compares day numbers.
- Amounts are integers (rupiah); `parseFloat`/`parseInt` of form text and `NaN` are left out, the parsed number being a parameter. Percentages are exact reals instead of floating point.
- Text.ToLower: lower-cases ASCII letters only, because full Unicode case mapping is not modelled; `IsJsSpace` lists JavaScript's white-space code points.
- `Object.keys` ordering is insertion order; category names that are integer-like strings (listed first by JavaScript) are not modelled.
- Locale formatting (`formatCurrency`, short currency, the CSV date and time columns, the weekday names of the trend chart) and the CSV row joining and download are left out.
- `navigateDate` (`hooks/useFinance.ts:77-85`) is left out: it steps the selected date by one day, seven days or one month through `Date` arithmetic, including `setMonth`'s overflow into the following month, and re-keys it through the time-zone offset.
- `handleAddExpense`, `deleteExpense`, `handleAddSaving`, `deleteSaving`, `saveBudget`, `handleAddHabit` and `handleQuickActionClick` are left out with the backend: each waits for the backend call and then prepends its row (a new expense, a quick-action expense), appends it (a saving, a habit), replaces the edited row by it (an edited expense), filters the deleted row out (an expense, a saving) or refetches everything (`saveBudget`).
- `new Date(y, m, d)` maps the years 0 to 99 to 1900 to 1999; `Calendar.DayNumber` takes every year literally and does not model that mapping.
- The effect that resets the current page to 1 when the filters change, and the toast exit/remove timers, are clock-driven UI effects and are left out.
- Generated ids (`Date.now()` plus random digits) are parameters.
- Dashboard.BestStreakAfterToggle: relates the best streak to one toggle only, not to a whole session of toggles.
- FinancePage.CycleEndDate: covers the cycle days 1 to 31 the picker offers (`pages/Finance.tsx:625-629`); a stored value outside that range (`hooks/useFinance.ts:42-45`) is not covered.
- FinanceFilter.CycleTarget: requires a cycle day from 1 to 31, the range the picker offers; for larger stored values a date can lie more than one month before its cycle's target.
- FinanceFilter.CyclesTile: states existence of the covering cycle for cycle days 1 to 31 only, for the same reason; uniqueness (FinanceFilter.CycleUnique) holds for every cycle day.
- FinanceLists.CelebratesOnceForDeposits: promises a single celebration only for runs of non-negative amounts, because a negative prompt amount can celebrate again (FinanceLists.WithdrawalCelebratesAgain).

## Findings

| source | as written | input that shows it | evidently intended | confidence | as-written member | corrected member |
|---|---|---|---|---|---|---|
| pages/Finance.tsx:647-648 | the cycle text ends on `cycleStartDate - 1`, falling back to 30 when that is 0 | cycle day 1 in January 2026: the text says day 30, but the monthly filter also counts 31 January | the last day of the cycle, which for cycle day 1 is the month's own last day | medium, not executed | FinancePage.CycleEndLabelMissesLastDay | FinancePage.CycleEndDateIsLast |
| pages/Finance.tsx:647-648 | the cycle text ends on `cycleStartDate - 1` of the next month whatever that month's length | cycle day 30 in February 2026: the text says day 29, which February 2026 does not have; the cycle ends on 1 March | the last day of the cycle, rolled over into the next month when the day does not exist | medium, not executed | FinancePage.CycleEndLabelPastMonthEnd | FinancePage.CycleEndDateIsLast |
