/** `get_weekly_nutrition_progress`: the progress entries of a window of days, the
    averages over the entries present and the percentage against today's goal. */
module WeeklyProgress {
  import opened Basics
  import opened Goals
  import opened NutritionRecords

  /** One day of the weekly report; the amounts of a stored row may be NULL. */
  datatype WeekEntry = WeekEntry(date: Day, consumed: Option<real>, remaining: Option<real>)

  /** The weekly report; `currentGoal` and `percent` are absent without a goal for today. */
  datatype Weekly = Weekly(daily: seq<WeekEntry>, avgCalories: real, avgRemaining: real,
                           currentGoal: Option<Goal>, percent: Option<real>)

  /** Of the user's rows for day `d`, the one stored last: keying the rows by date keeps
      the last one. */
  function LastRowFor(rows: seq<ProgressRow>, user: string, d: Day): (r: Option<ProgressRow>)
    ensures r.Some? ==> r.value in rows && IsKey(r.value, user, d)
    ensures r.None? <==> NoRowFor(rows, user, d)
  {
    if rows == [] then None
    else if IsKey(rows[|rows| - 1], user, d) then Some(rows[|rows| - 1])
    else
      var r := LastRowFor(rows[..|rows| - 1], user, d);
      assert forall k :: 0 <= k < |rows| - 1 ==> rows[..|rows| - 1][k] == rows[k];
      r
  }

  /** The entry of day `d`: the stored row if there is one, else, on a day with an active
      goal, the amounts the daily progress computes from the meals, else none. */
  function EntryOn(goals: seq<Goal>, meals: seq<Meal>, mealFoods: seq<MealFood>, rows: seq<ProgressRow>,
                   user: string, d: Day): (e: Option<WeekEntry>)
    ensures e.Some? ==> e.value.date == d
  {
    match LastRowFor(rows, user, d)
    case Some(row) => Some(WeekEntry(d, row.consumed, row.remaining))
    case None =>
      match ActiveGoal(goals, user, d)
      case None => None
      case Some(goal) =>
        var consumed := ConsumedOn(meals, mealFoods, user, d);
        Some(WeekEntry(d, Some(consumed), Some(Remaining(goal.calorieTarget, consumed))))
  }

  /** The entries of the days `lo..hi` that have one, in date order. */
  function WeekEntries(goals: seq<Goal>, meals: seq<Meal>, mealFoods: seq<MealFood>, rows: seq<ProgressRow>,
                       user: string, lo: Day, hi: Day): seq<WeekEntry>
    decreases hi - lo + 1
  {
    if hi < lo then []
    else
      WeekEntries(goals, meals, mealFoods, rows, user, lo, hi - 1) +
      match EntryOn(goals, meals, mealFoods, rows, user, hi)
      case None => []
      case Some(e) => [e]
  }

  /** The row the daily progress inserts for a day of the window with a goal and no row. */
  function FilledRow(goals: seq<Goal>, meals: seq<Meal>, mealFoods: seq<MealFood>, rows: seq<ProgressRow>,
                     user: string, d: Day, now: Seconds, newId: string): seq<ProgressRow>
  {
    if NoRowFor(rows, user, d) then
      match ActiveGoal(goals, user, d)
      case None => []
      case Some(goal) =>
        var consumed := ConsumedOn(meals, mealFoods, user, d);
        [ProgressRow(newId, goal.goalId, user, d, Some(consumed), Some(Remaining(goal.calorieTarget, consumed)), now)]
    else []
  }

  /** The rows the report inserts, one per day of `lo..hi` that has a goal and no row. */
  function FilledRows(goals: seq<Goal>, meals: seq<Meal>, mealFoods: seq<MealFood>, rows: seq<ProgressRow>,
                      user: string, lo: Day, hi: Day, now: Seconds, newId: string): seq<ProgressRow>
    decreases hi - lo + 1
  {
    if hi < lo then []
    else FilledRows(goals, meals, mealFoods, rows, user, lo, hi - 1, now, newId)
         + FilledRow(goals, meals, mealFoods, rows, user, hi, now, newId)
  }

  /** The entries of a map keyed by the days of `lo..hi`, in ascending date order: the
      list of the dictionary's values sorted by date. */
  function ByDate(m: map<Day, WeekEntry>, lo: Day, hi: Day): seq<WeekEntry>
    decreases hi - lo + 1
  {
    if hi < lo then [] else ByDate(m, lo, hi - 1) + (if hi in m then [m[hi]] else [])
  }

  /** A map holding exactly each day's entry, once every day of the window is filled,
      lists as the entries of the window. */
  lemma {:induction false} ByDateOfEntries(goals: seq<Goal>, meals: seq<Meal>, mealFoods: seq<MealFood>,
                                           rows: seq<ProgressRow>, user: string,
                                           m: map<Day, WeekEntry>, lo: Day, hi: Day, c: Day)
    requires hi < c
    requires forall d :: lo <= d <= hi ==> DayState(m, goals, meals, mealFoods, rows, user, c, d)
    ensures ByDate(m, lo, hi) == WeekEntries(goals, meals, mealFoods, rows, user, lo, hi)
    decreases hi - lo + 1
  {
    if lo <= hi {
      assert DayState(m, goals, meals, mealFoods, rows, user, c, hi);
      ByDateOfEntries(goals, meals, mealFoods, rows, user, m, lo, hi - 1, c);
    }
  }

  predicate AllPresent(es: seq<WeekEntry>)
  {
    forall k :: 0 <= k < |es| ==> es[k].consumed.Some? && es[k].remaining.Some?
  }

  function SumConsumed(es: seq<WeekEntry>): real
    requires AllPresent(es)
  {
    if es == [] then 0.0 else SumConsumed(es[..|es| - 1]) + es[|es| - 1].consumed.value
  }

  function SumRemaining(es: seq<WeekEntry>): real
    requires AllPresent(es)
  {
    if es == [] then 0.0 else SumRemaining(es[..|es| - 1]) + es[|es| - 1].remaining.value
  }

  /** The report over the sorted entries: none without entries or with a NULL amount
      (the sum fails); otherwise the averages over the entries present, and the average
      against the current goal, capped at 100. */
  function WeeklyView(es: seq<WeekEntry>, currentGoal: Option<Goal>): Option<Weekly>
  {
    if es == [] || !AllPresent(es) then None
    else
      var n := |es| as real;
      var avgCalories := SumConsumed(es) / n;
      var percent := if currentGoal.None? then None else Some(Percent(avgCalories, currentGoal.value.calorieTarget));
      Some(Weekly(es, avgCalories, SumRemaining(es) / n, currentGoal, percent))
  }

  // ---------------------------------------------------------------------------

  /** Dates inside `lo..hi`, strictly ascending. */
  predicate AscendingWithin(es: seq<WeekEntry>, lo: Day, hi: Day)
  {
    (forall k :: 0 <= k < |es| ==> lo <= es[k].date <= hi) &&
    (forall i, j :: 0 <= i < j < |es| ==> es[i].date < es[j].date)
  }

  /** The entries lie in the window, in strictly ascending date order. */
  lemma {:induction false} WeekEntriesAscending(goals: seq<Goal>, meals: seq<Meal>, mealFoods: seq<MealFood>,
                                                rows: seq<ProgressRow>, user: string, lo: Day, hi: Day)
    ensures AscendingWithin(WeekEntries(goals, meals, mealFoods, rows, user, lo, hi), lo, hi)
    decreases hi - lo + 1
  {
    if lo <= hi {
      WeekEntriesAscending(goals, meals, mealFoods, rows, user, lo, hi - 1);
      var front := WeekEntries(goals, meals, mealFoods, rows, user, lo, hi - 1);
      var e := EntryOn(goals, meals, mealFoods, rows, user, hi);
      if e.Some? {
        var es := WeekEntries(goals, meals, mealFoods, rows, user, lo, hi);
        assert es == front + [e.value];
        assert forall k :: 0 <= k < |front| ==> es[k] == front[k];
      } else {
        assert WeekEntries(goals, meals, mealFoods, rows, user, lo, hi) == front;
      }
    }
  }

  predicate HasEntryOn(es: seq<WeekEntry>, d: Day)
  {
    exists k :: 0 <= k < |es| && es[k].date == d
  }

  lemma HasEntryOnAppend(a: seq<WeekEntry>, b: seq<WeekEntry>, d: Day)
    ensures HasEntryOn(a + b, d) <==> HasEntryOn(a, d) || HasEntryOn(b, d)
  {
    if HasEntryOn(a + b, d) {
      var k :| 0 <= k < |a + b| && (a + b)[k].date == d;
      if k >= |a| {
        assert b[k - |a|].date == d;
      }
    }
    if HasEntryOn(a, d) {
      var k :| 0 <= k < |a| && a[k].date == d;
      assert (a + b)[k].date == d;
    }
    if HasEntryOn(b, d) {
      var k :| 0 <= k < |b| && b[k].date == d;
      assert (a + b)[|a| + k].date == d;
    }
  }

  /** A day of the window has an entry exactly when it has a stored row or an active goal. */
  lemma {:induction false} WeekEntriesCover(goals: seq<Goal>, meals: seq<Meal>, mealFoods: seq<MealFood>,
                                            rows: seq<ProgressRow>, user: string, lo: Day, hi: Day, d: Day)
    requires lo <= d <= hi
    ensures HasEntryOn(WeekEntries(goals, meals, mealFoods, rows, user, lo, hi), d)
            <==> !NoRowFor(rows, user, d) || ActiveGoal(goals, user, d).Some?
    decreases hi - lo + 1
  {
    var front := WeekEntries(goals, meals, mealFoods, rows, user, lo, hi - 1);
    var e := EntryOn(goals, meals, mealFoods, rows, user, hi);
    var tail := if e.Some? then [e.value] else [];
    assert WeekEntries(goals, meals, mealFoods, rows, user, lo, hi) == front + tail;
    HasEntryOnAppend(front, tail, d);
    assert EntryOn(goals, meals, mealFoods, rows, user, d).Some? <==>
           !NoRowFor(rows, user, d) || ActiveGoal(goals, user, d).Some?;
    if d < hi {
      WeekEntriesCover(goals, meals, mealFoods, rows, user, lo, hi - 1, d);
      assert !HasEntryOn(tail, d);
    } else {
      WeekEntriesAscending(goals, meals, mealFoods, rows, user, lo, hi - 1);
      assert !HasEntryOn(front, d);
      if e.Some? {
        assert tail[0].date == d;
      }
    }
  }

  /** A row the report may insert: the user's, for a day of the window that had no row. */
  predicate IsFilledRow(row: ProgressRow, rows: seq<ProgressRow>, user: string, lo: Day, hi: Day)
  {
    row.userId == user && lo <= row.date <= hi && NoRowFor(rows, user, row.date)
  }

  /** Every inserted row belongs to the user and to a day of the window that had no row. */
  lemma {:induction false} FilledRowsAreNew(goals: seq<Goal>, meals: seq<Meal>, mealFoods: seq<MealFood>,
                                            rows: seq<ProgressRow>, user: string, lo: Day, hi: Day,
                                            now: Seconds, newId: string)
    ensures forall r :: r in FilledRows(goals, meals, mealFoods, rows, user, lo, hi, now, newId) ==>
                          IsFilledRow(r, rows, user, lo, hi)
    decreases hi - lo + 1
  {
    if lo <= hi {
      FilledRowsAreNew(goals, meals, mealFoods, rows, user, lo, hi - 1, now, newId);
    }
  }

  /** After the rows for the days up to `hi` are filled in, a later day still has no row
      if it had none. */
  lemma FilledRowsLeaveLaterDays(goals: seq<Goal>, meals: seq<Meal>, mealFoods: seq<MealFood>,
                                 rows: seq<ProgressRow>, user: string, lo: Day, hi: Day,
                                 now: Seconds, newId: string, d: Day)
    requires NoRowFor(rows, user, d) && hi < d
    ensures NoRowFor(rows + FilledRows(goals, meals, mealFoods, rows, user, lo, hi, now, newId), user, d)
  {
    var added := FilledRows(goals, meals, mealFoods, rows, user, lo, hi, now, newId);
    FilledRowsAreNew(goals, meals, mealFoods, rows, user, lo, hi, now, newId);
    forall k | 0 <= k < |rows + added|
      ensures !IsKey((rows + added)[k], user, d)
    {
      if k >= |rows| {
        assert (rows + added)[k] == added[k - |rows|];
        assert added[k - |rows|] in added;
      }
    }
  }

  /** Filling in the missing days keeps at most one row per user and day. */
  lemma {:induction false} FilledRowsKeepOneRowPerDay(goals: seq<Goal>, meals: seq<Meal>, mealFoods: seq<MealFood>,
                                                      rows: seq<ProgressRow>, user: string, lo: Day, hi: Day,
                                                      now: Seconds, newId: string)
    requires OneRowPerDay(rows)
    ensures OneRowPerDay(rows + FilledRows(goals, meals, mealFoods, rows, user, lo, hi, now, newId))
    decreases hi - lo + 1
  {
    if lo <= hi {
      FilledRowsKeepOneRowPerDay(goals, meals, mealFoods, rows, user, lo, hi - 1, now, newId);
      var before := rows + FilledRows(goals, meals, mealFoods, rows, user, lo, hi - 1, now, newId);
      var row := FilledRow(goals, meals, mealFoods, rows, user, hi, now, newId);
      assert rows + FilledRows(goals, meals, mealFoods, rows, user, lo, hi, now, newId) == before + row;
      if row != [] {
        FilledRowsLeaveLaterDays(goals, meals, mealFoods, rows, user, lo, hi - 1, now, newId, hi);
        var after: seq<ProgressRow> := before + row;
        forall i, j | 0 <= i < j < |after|
          ensures !IsKey(after[j], after[i].userId, after[i].date)
        {
          if j == |before| {
            assert !IsKey(before[i], user, hi);
          }
        }
      } else {
        assert before + row == before;
      }
    }
  }

  /** One day of the fill loop: on a day with a goal and no row, the daily progress run
      on the table filled so far inserts that day's row and reports that day's entry; on
      any other day nothing is filled in. */
  lemma FillStep(goals: seq<Goal>, meals: seq<Meal>, mealFoods: seq<MealFood>, rows: seq<ProgressRow>,
                 user: string, lo: Day, d: Day, now: Seconds, newId: string)
    requires lo <= d
    ensures var before := rows + FilledRows(goals, meals, mealFoods, rows, user, lo, d - 1, now, newId);
      var after := rows + FilledRows(goals, meals, mealFoods, rows, user, lo, d, now, newId);
      NoRowFor(rows, user, d) && ActiveGoal(goals, user, d).Some? ==>
        DailyRows(goals, meals, mealFoods, before, user, d, now, newId) == after &&
        var p := DailyView(goals, meals, mealFoods, before, user, d, now);
        p.Some? &&
        EntryOn(goals, meals, mealFoods, rows, user, d) == Some(WeekEntry(d, Some(p.value.consumed), Some(p.value.remaining)))
    ensures !NoRowFor(rows, user, d) || ActiveGoal(goals, user, d).None? ==>
      FilledRows(goals, meals, mealFoods, rows, user, lo, d, now, newId)
        == FilledRows(goals, meals, mealFoods, rows, user, lo, d - 1, now, newId)
  {
    var before := rows + FilledRows(goals, meals, mealFoods, rows, user, lo, d - 1, now, newId);
    if NoRowFor(rows, user, d) && ActiveGoal(goals, user, d).Some? {
      FilledRowsLeaveLaterDays(goals, meals, mealFoods, rows, user, lo, d - 1, now, newId, d);
      assert NewestRowFor(before, user, d).None?;
    }
  }

  /** Day `d` of the map built so far: before day `c` it holds the day's entry, from day
      `c` on only the stored row's. */
  predicate DayState(m: map<Day, WeekEntry>, goals: seq<Goal>, meals: seq<Meal>, mealFoods: seq<MealFood>,
                     rows: seq<ProgressRow>, user: string, c: Day, d: Day)
  {
    (d in m <==> if d < c then EntryOn(goals, meals, mealFoods, rows, user, d).Some?
                 else LastRowFor(rows, user, d).Some?) &&
    (d in m ==> Some(m[d]) == EntryOn(goals, meals, mealFoods, rows, user, d))
  }

  /** The map of the weekly report while the days `lo..c-1` have been filled. */
  predicate FillState(m: map<Day, WeekEntry>, goals: seq<Goal>, meals: seq<Meal>, mealFoods: seq<MealFood>,
                      rows: seq<ProgressRow>, user: string, lo: Day, hi: Day, c: Day)
  {
    (forall d :: d in m ==> lo <= d <= hi) &&
    (forall d :: lo <= d <= hi ==> DayState(m, goals, meals, mealFoods, rows, user, c, d))
  }

  /** `m'` is `m` with day `c` holding that day's entry, if it has one. */
  ghost predicate DayFilled(m: map<Day, WeekEntry>, m': map<Day, WeekEntry>, goals: seq<Goal>, meals: seq<Meal>,
                            mealFoods: seq<MealFood>, rows: seq<ProgressRow>, user: string, c: Day)
  {
    (c in m' <==> EntryOn(goals, meals, mealFoods, rows, user, c).Some?) &&
    (c in m' ==> Some(m'[c]) == EntryOn(goals, meals, mealFoods, rows, user, c)) &&
    (forall d :: d != c ==> (d in m' <==> d in m)) &&
    (forall d :: d != c && d in m ==> m'[d] == m[d])
  }

  lemma FillStateStep(m: map<Day, WeekEntry>, m': map<Day, WeekEntry>, goals: seq<Goal>, meals: seq<Meal>,
                      mealFoods: seq<MealFood>, rows: seq<ProgressRow>, user: string, lo: Day, hi: Day, c: Day)
    requires FillState(m, goals, meals, mealFoods, rows, user, lo, hi, c) && lo <= c <= hi
    requires DayFilled(m, m', goals, meals, mealFoods, rows, user, c)
    ensures FillState(m', goals, meals, mealFoods, rows, user, lo, hi, c + 1)
  {
    var next := c + 1;
    forall d | lo <= d <= hi
      ensures DayState(m', goals, meals, mealFoods, rows, user, next, d)
    {
      if d != c {
        assert DayState(m, goals, meals, mealFoods, rows, user, c, d);
      }
    }
  }

  /** The averages lie between the smallest and the largest daily amounts. */
  lemma {:induction false} AverageWithinBounds(es: seq<WeekEntry>, low: real, high: real)
    requires AllPresent(es)
    requires forall k :: 0 <= k < |es| ==> low <= es[k].consumed.value <= high
    ensures |es| as real * low <= SumConsumed(es) <= |es| as real * high
  {
    if es != [] {
      AverageWithinBounds(es[..|es| - 1], low, high);
    }
  }

  /** Consumption 1800 and 1600 (200 and 400 remaining) against a 2000-calorie goal:
      averages 1700 and 300, 85 percent. */
  lemma WeeklyExample(d: Day, goal: Goal)
    requires goal.calorieTarget == 2000
    ensures var es := [WeekEntry(d - 1, Some(1800.0), Some(200.0)), WeekEntry(d, Some(1600.0), Some(400.0))];
      WeeklyView(es, Some(goal)) == Some(Weekly(es, 1700.0, 300.0, Some(goal), Some(85.0)))
  {
    var es := [WeekEntry(d - 1, Some(1800.0), Some(200.0)), WeekEntry(d, Some(1600.0), Some(400.0))];
    var first := [es[0]];
    assert es[..1] == first && first[..0] == [];
    assert SumConsumed(first) == 1800.0 && SumRemaining(first) == 200.0;
    assert SumConsumed(es) == 3400.0;
    assert SumRemaining(es) == 600.0;
  }

  /** No entry in the window, or a stored NULL amount, gives no report. */
  lemma NoReportWithoutData(es: seq<WeekEntry>, currentGoal: Option<Goal>)
    ensures WeeklyView(es, currentGoal).None? <==> es == [] || !AllPresent(es)
  {
  }
}
