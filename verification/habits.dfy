/** Habit completion and streaks (`useHabits`). A date is a day number; the
    completion list of a habit is the list of days it was ticked, possibly
    with repetitions, and `includes` is membership in that list. */
module Habits {
  import opened Common

  datatype Habit = Habit(id: string, name: string, streak: int, completedDates: seq<int>)

  /** The completion list after toggling `today`: every occurrence of today
      is removed when it is present, otherwise today is appended. */
  function ToggleDates(dates: seq<int>, today: int): (r: seq<int>)
    ensures today in dates ==> today !in r && |r| < |dates|
    ensures today in dates ==> forall x :: x != today ==> (x in r <==> x in dates)
    ensures today !in dates ==> r == dates + [today]
  {
    if today in dates then
      FilterContents(dates, d => d != today);
      FilterShorter(dates, d => d != today, today);
      Filter(dates, d => d != today)
    else dates + [today]
  }

  /** Dropping an element the predicate rejects makes the filter shorter. */
  lemma {:induction false} FilterShorter(s: seq<int>, p: int -> bool, x: int)
    requires x in s && !p(x)
    ensures |Filter(s, p)| < |s|
  {
    if s[0] == x {
      assert |Filter(s[1..], p)| <= |s[1..]|;
    } else {
      FilterShorter(s[1..], p, x);
    }
  }

  /** Toggling twice puts today back: the membership of every day is what it
      was, and when today was absent the list itself is restored. */
  lemma {:induction false} ToggleTwice(dates: seq<int>, today: int)
    ensures forall x :: x in ToggleDates(ToggleDates(dates, today), today) <==> x in dates
    ensures today !in dates ==> ToggleDates(ToggleDates(dates, today), today) == dates
  {
    if today !in dates {
      var p := d => d != today;
      assert forall i :: 0 <= i < |dates| ==> p(dates[i]);
      FilterKeepsAll(dates, p);
      FilterAppend(dates, [today], p);
      assert Filter([today], p) == [];
    }
  }

  /** The distinct days of a completion list. */
  function DateSet(dates: seq<int>): set<int> {
    set d | d in dates
  }

  /** The completed days up to `d`: the measure of the backward scan. */
  function UpTo(days: set<int>, d: int): set<int> {
    set x | x in days && x <= d
  }

  lemma UpToShrinks(days: set<int>, d: int)
    requires d in days
    ensures |UpTo(days, d - 1)| < |UpTo(days, d)|
  {
    assert UpTo(days, d) == UpTo(days, d - 1) + {d};
    assert d !in UpTo(days, d - 1);
  }

  /** Length of the run of consecutive completed days ending at `d`. */
  function RunBack(days: set<int>, d: int): (n: nat)
    ensures n <= |UpTo(days, d)|
    decreases |UpTo(days, d)|
  {
    if d in days then
      UpToShrinks(days, d);
      1 + RunBack(days, d - 1)
    else 0
  }

  /** The run is maximal: the `n` days ending at `d` are all completed and the
      day before them is not. */
  lemma {:induction false} RunBackIsMaximalRun(days: set<int>, d: int)
    ensures var n := RunBack(days, d);
            (forall x :: d - n < x <= d ==> x in days) && d - n !in days
    decreases |UpTo(days, d)|
  {
    if d in days {
      UpToShrinks(days, d);
      RunBackIsMaximalRun(days, d - 1);
    }
  }

  /** A maximal run is the run: any `n` that satisfies the run property is
      the computed streak, so the scan stops at the first missing day. */
  lemma {:induction false} MaximalRunIsRunBack(days: set<int>, d: int, n: nat)
    requires forall x :: d - n < x <= d ==> x in days
    requires d - n !in days
    ensures RunBack(days, d) == n
    decreases n
  {
    if n > 0 {
      assert d in days;
      MaximalRunIsRunBack(days, d - 1, n - 1);
    }
  }

  lemma UpToBound(days: set<int>, d: int)
    ensures |UpTo(days, d)| <= |days|
  {
    SubsetCard(UpTo(days, d), days);
  }

  /** The streak stored with the toggled habit: the run ending today when
      today is completed, otherwise the run ending yesterday, otherwise 0. */
  function Streak(dates: seq<int>, today: int): (n: nat)
    ensures n <= |DateSet(dates)|
  {
    if |dates| == 0 then 0
    else
      var anchor := if today in dates then today else today - 1;
      UpToBound(DateSet(dates), anchor);
      if anchor in dates then RunBack(DateSet(dates), anchor) else 0
  }

  /** The three cases of the streak, each tied to the run definition. */
  lemma StreakCases(dates: seq<int>, today: int)
    ensures today !in dates && today - 1 !in dates ==> Streak(dates, today) == 0
    ensures today in dates ==> Streak(dates, today) >= 1 && Streak(dates, today) == RunBack(DateSet(dates), today)
    ensures today !in dates ==> Streak(dates, today) == RunBack(DateSet(dates), today - 1)
  {
    if today in dates {
      assert today in DateSet(dates);
    } else if today - 1 !in dates {
      assert today - 1 !in DateSet(dates);
    }
  }

  /** The streak loop of `toggleHabit` as written: start at today, fall back
      to yesterday, then count earlier days while they are completed. */
  method ComputeStreak(newDates: seq<int>, today: int) returns (streak: nat)
    ensures streak == Streak(newDates, today)
  {
    streak := 0;
    if |newDates| > 0 {
      var check := today;
      if check !in newDates {
        check := today - 1;
      }
      if check in newDates {
        var days := DateSet(newDates);
        streak := 1;
        var cursor := check;
        while true
          invariant cursor in newDates && 1 <= streak
          invariant RunBack(days, check) == streak - 1 + RunBack(days, cursor)
          decreases |UpTo(days, cursor)|
        {
          UpToShrinks(days, cursor);
          cursor := cursor - 1;
          if cursor in newDates {
            streak := streak + 1;
          } else {
            break;
          }
        }
        assert cursor !in days;
      }
    }
  }

  /** `habits.find(h => h.id === id)`. */
  function FindHabit(habits: seq<Habit>, id: string): (r: Option<Habit>)
    ensures r.None? <==> forall i :: 0 <= i < |habits| ==> habits[i].id != id
    ensures r.Some? ==> r.value.id == id && r.value in habits
  {
    Find(habits, (x: Habit) => x.id == id)
  }

  /** `toggleHabit(id)` once the backend has answered: `saved` says whether the
      update returned a row, which is assumed to be the habit with its new
      dates and streak. */
  function ToggleHabit(habits: seq<Habit>, id: string, today: int, saved: bool): (r: seq<Habit>)
    ensures |r| == |habits|
    ensures forall i :: 0 <= i < |habits| && habits[i].id != id ==> r[i] == habits[i]
    ensures (forall i :: 0 <= i < |habits| ==> habits[i].id != id) || !saved ==> r == habits
  {
    match FindHabit(habits, id)
    case None => habits
    case Some(h) =>
      if !saved then habits
      else
        var dates := ToggleDates(h.completedDates, today);
        var updated := Habit(h.id, h.name, Streak(dates, today), dates);
        seq(|habits|, i requires 0 <= i < |habits| => if habits[i].id == id then updated else habits[i])
  }

  /** The toggled habit carries the toggled dates and the streak over them. */
  lemma ToggleHabitUpdates(habits: seq<Habit>, id: string, today: int, i: nat)
    requires i < |habits| && habits[i].id == id
    ensures var h := FindHabit(habits, id).value;
            var dates := ToggleDates(h.completedDates, today);
            ToggleHabit(habits, id, today, true)[i] == Habit(id, h.name, Streak(dates, today), dates)
  {
  }

  /** `deleteHabit(id)` once confirmed and accepted by the backend. */
  function DeleteHabit(habits: seq<Habit>, id: string): (r: seq<Habit>)
    ensures forall i :: 0 <= i < |r| ==> r[i].id != id
  {
    Filter(habits, (h: Habit) => h.id != id)
  }

  /** Deleting removes exactly the habits with that id: every other habit
      stays, and an unknown id leaves the list as it was. */
  lemma DeleteHabitKeepsOthers(habits: seq<Habit>, id: string)
    ensures forall h :: h in DeleteHabit(habits, id) <==> h in habits && h.id != id
    ensures (forall i :: 0 <= i < |habits| ==> habits[i].id != id) ==> DeleteHabit(habits, id) == habits
  {
    FilterContents(habits, (h: Habit) => h.id != id);
    if forall i :: 0 <= i < |habits| ==> habits[i].id != id {
      FilterKeepsAll(habits, (h: Habit) => h.id != id);
    }
  }
}
