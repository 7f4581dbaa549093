/** `calculate_streak`: the current and the longest run of consecutive workout days. */
module Streak {
  import opened Basics
  import opened WorkoutData

  predicate StrictlyIncreasing(ds: seq<Day>)
  {
    forall i, j :: 0 <= i < j < |ds| ==> ds[i] < ds[j]
  }

  /** Inserts `x` into an ascending list unless it is already there. */
  function InsertDistinct(x: Day, ds: seq<Day>): seq<Day>
  {
    if ds == [] then [x]
    else if x < ds[0] then [x] + ds
    else if x == ds[0] then ds
    else [ds[0]] + InsertDistinct(x, ds[1..])
  }

  /** `sorted(set(days))`: the distinct days in ascending order. */
  function SortedDistinct(days: seq<Day>): seq<Day>
  {
    if days == [] then [] else InsertDistinct(days[0], SortedDistinct(days[1..]))
  }

  lemma {:induction false} InsertDistinctFacts(x: Day, ds: seq<Day>)
    requires StrictlyIncreasing(ds)
    ensures var r := InsertDistinct(x, ds);
      StrictlyIncreasing(r) && (forall d :: d in r <==> d == x || d in ds) &&
      r != [] && r[0] == (if ds != [] && ds[0] < x then ds[0] else x)
  {
    if ds != [] && ds[0] < x {
      var rest := InsertDistinct(x, ds[1..]);
      InsertDistinctFacts(x, ds[1..]);
      assert forall d :: d in ds <==> d == ds[0] || d in ds[1..];
      var r := [ds[0]] + rest;
      forall j | 0 < j < |r| ensures ds[0] < r[j] {
        assert r[j] == rest[j - 1];
        assert rest[j - 1] in rest;
      }
    }
  }

  /** The distinct days come out strictly ascending, and they are exactly the days given. */
  lemma {:induction false} SortedDistinctFacts(days: seq<Day>)
    ensures StrictlyIncreasing(SortedDistinct(days))
    ensures forall d :: d in SortedDistinct(days) <==> d in days
  {
    if days != [] {
      SortedDistinctFacts(days[1..]);
      InsertDistinctFacts(days[0], SortedDistinct(days[1..]));
      assert forall d :: d in days <==> d == days[0] || d in days[1..];
    }
  }

  /** Length of the run of consecutive days that ends at `ds[i]`, as the loop counts it. */
  function RunEndingAt(ds: seq<Day>, i: nat): (r: nat)
    requires i < |ds|
    ensures 1 <= r <= i + 1
  {
    if i == 0 then 1
    else if ds[i] - ds[i - 1] == 1 then RunEndingAt(ds, i - 1) + 1
    else 1
  }

  /** The largest `RunEndingAt(ds, i)` for `i < n`. */
  function LongestRun(ds: seq<Day>, n: nat): (r: nat)
    requires 1 <= n <= |ds|
    ensures r >= 1
  {
    if n == 1 then RunEndingAt(ds, 0)
    else
      var before, here := LongestRun(ds, n - 1), RunEndingAt(ds, n - 1);
      if before >= here then before else here
  }

  /** The current streak over the sorted distinct days `ds`: the run ending at the last
      of them when that day is today or yesterday, and 0 otherwise. */
  function CurrentStreak(ds: seq<Day>, today: Day): nat
  {
    if ds == [] then 0
    else if today - ds[|ds| - 1] == 0 || today - ds[|ds| - 1] == 1 then RunEndingAt(ds, |ds| - 1)
    else 0
  }

  /** The longest streak over the sorted distinct days `ds`. */
  function LongestStreak(ds: seq<Day>): nat
  {
    if ds == [] then 0 else LongestRun(ds, |ds|)
  }

  /** The pair (current, longest) that `calculate_streak` returns for the given workout
      days when it is run on day `today`. */
  function StreakOf(days: seq<Day>, today: Day): (nat, nat)
  {
    var ds := SortedDistinct(days);
    (CurrentStreak(ds, today), LongestStreak(ds))
  }

  /** `calculate_streak(workouts)` on day `today`: `None` when a start timestamp does not
      parse, where the source raises the parse error to its caller. */
  method CalculateStreak(workouts: seq<Workout>, today: Day) returns (result: Option<(nat, nat)>)
    ensures result.None? <==> !AllStartsParsed(workouts)
    ensures result.Some? ==> result.value == StreakOf(StartDays(workouts), today)
  {
    if workouts == [] {
      return Some((0, 0));
    }
    if !AllStartsParsed(workouts) {
      return None;
    }
    var days := StartDays(workouts);
    var workoutDates := SortedDistinct(days);
    SortedDistinctFacts(days);
    assert days[0] in workoutDates;
    var current, longest := 1, 1;
    var streak := 1;
    for i := 1 to |workoutDates|
      invariant streak == RunEndingAt(workoutDates, i - 1)
      invariant longest == LongestRun(workoutDates, i)
    {
      if workoutDates[i] - workoutDates[i - 1] == 1 {
        streak := streak + 1;
      } else {
        streak := 1;
      }
      longest := if longest >= streak then longest else streak;
    }
    var lastWorkout := workoutDates[|workoutDates| - 1];
    if today - lastWorkout == 0 || today - lastWorkout == 1 {
      current := streak;
    } else {
      current := 0;
    }
    result := Some((current, longest));
  }

  // ---------------------------------------------------------------------------
  // What the two numbers mean, stated on the workout days themselves.

  /** Every day from `first` to `first + len - 1` has a workout. */
  ghost predicate IsRun(days: seq<Day>, first: Day, len: nat)
  {
    forall d :: first <= d < first + len ==> d in days
  }

  /** The run counted at `ds[i]` is a genuine run of workout days, and the day before
      it has no workout. */
  lemma {:induction false} RunEndingAtIsMaximalRun(ds: seq<Day>, i: nat)
    requires StrictlyIncreasing(ds) && i < |ds|
    ensures forall d :: ds[i] - RunEndingAt(ds, i) < d <= ds[i] ==> d in ds
    ensures ds[i] - RunEndingAt(ds, i) !in ds
  {
    if i > 0 && ds[i] - ds[i - 1] == 1 {
      RunEndingAtIsMaximalRun(ds, i - 1);
    } else {
      forall j | 0 <= j < |ds| ensures ds[j] != ds[i] - 1 {
        if 0 <= j < i - 1 {
          assert ds[j] < ds[i - 1];
        }
      }
    }
  }

  /** No run of workout days ending at `ds[i]` is longer than the counted one. */
  lemma RunEndingAtBoundsRuns(ds: seq<Day>, i: nat, first: Day)
    requires StrictlyIncreasing(ds) && i < |ds| && first <= ds[i]
    requires forall d :: first <= d <= ds[i] ==> d in ds
    ensures ds[i] - first + 1 <= RunEndingAt(ds, i)
  {
    RunEndingAtIsMaximalRun(ds, i);
  }

  lemma {:induction false} LongestRunIsMaximum(ds: seq<Day>, n: nat)
    requires 1 <= n <= |ds|
    ensures forall i :: 0 <= i < n ==> RunEndingAt(ds, i) <= LongestRun(ds, n)
    ensures exists j :: 0 <= j < n && RunEndingAt(ds, j) == LongestRun(ds, n)
  {
    if n == 1 {
      assert RunEndingAt(ds, 0) == LongestRun(ds, 1);
    } else {
      LongestRunIsMaximum(ds, n - 1);
      if LongestRun(ds, n - 1) < RunEndingAt(ds, n - 1) {
        assert RunEndingAt(ds, n - 1) == LongestRun(ds, n);
      }
    }
  }

  /** `longest` is the length of the longest run of consecutive workout days: some run
      has that length and no run is longer. */
  lemma LongestIsLongestRun(days: seq<Day>, today: Day)
    requires days != []
    ensures exists first :: IsRun(days, first, StreakOf(days, today).1)
    ensures forall first: Day, len: nat :: IsRun(days, first, len) ==> len <= StreakOf(days, today).1
  {
    var ds := SortedDistinct(days);
    SortedDistinctFacts(days);
    assert days[0] in ds;
    var longest := StreakOf(days, today).1;
    LongestRunIsMaximum(ds, |ds|);
    var j :| 0 <= j < |ds| && RunEndingAt(ds, j) == longest;
    RunEndingAtIsMaximalRun(ds, j);
    assert IsRun(days, ds[j] - longest + 1, longest);
    forall first: Day, len: nat | IsRun(days, first, len) ensures len <= longest {
      if len > 0 {
        var e := first + len - 1;
        assert e in days;
        var i :| 0 <= i < |ds| && ds[i] == e;
        RunEndingAtBoundsRuns(ds, i, first);
      }
    }
  }

  /** `last` is the latest of the workout days. */
  ghost predicate IsLatest(days: seq<Day>, last: Day)
  {
    last in days && forall d :: d in days ==> d <= last
  }

  /** The last of the sorted distinct days is the latest workout day. */
  lemma LatestIsLastDistinct(ds: seq<Day>, days: seq<Day>, last: Day)
    requires StrictlyIncreasing(ds) && forall d :: d in ds <==> d in days
    requires IsLatest(days, last)
    ensures ds != [] && ds[|ds| - 1] == last
  {
    assert last in ds;
    var k := |ds| - 1;
    assert ds[k] in days;
  }

  /** `current` is zero unless the latest workout was today or yesterday. */
  lemma CurrentZeroWhenStale(days: seq<Day>, today: Day, last: Day)
    requires IsLatest(days, last)
    requires today - last != 0 && today - last != 1
    ensures StreakOf(days, today).0 == 0
  {
    SortedDistinctFacts(days);
    LatestIsLastDistinct(SortedDistinct(days), days, last);
  }

  /** When the latest workout was today or yesterday, `current` is the length of the run
      of consecutive workout days that ends on the latest workout day: every day of it
      has a workout and the day before it has none. */
  lemma CurrentIsRunToLatest(days: seq<Day>, today: Day, last: Day)
    requires IsLatest(days, last)
    requires today - last == 0 || today - last == 1
    ensures var current := StreakOf(days, today).0;
      current >= 1 && IsRun(days, last - current + 1, current) && last - current !in days
  {
    var ds := SortedDistinct(days);
    SortedDistinctFacts(days);
    LatestIsLastDistinct(ds, days, last);
    LastRunIsMaximal(ds, days);
  }

  lemma LastRunIsMaximal(ds: seq<Day>, days: seq<Day>)
    requires StrictlyIncreasing(ds) && ds != []
    requires forall d :: d in ds <==> d in days
    ensures var k := |ds| - 1; var r := RunEndingAt(ds, k);
      IsRun(days, ds[k] - r + 1, r) && ds[k] - r !in days
  {
    var k := |ds| - 1;
    RunEndingAtIsMaximalRun(ds, k);
  }

  /** The current streak never exceeds the longest one. */
  lemma CurrentAtMostLongest(days: seq<Day>, today: Day)
    ensures StreakOf(days, today).0 <= StreakOf(days, today).1
  {
    var ds := SortedDistinct(days);
    if ds != [] {
      LongestRunIsMaximum(ds, |ds|);
    }
  }

  /** Workouts on every day of the `n` days that end today, and on no other day: both
      streaks are `n`. */
  lemma UnbrokenStretchEndingToday(days: seq<Day>, today: Day, n: nat)
    requires n >= 1
    requires forall d :: d in days <==> today - n < d <= today
    ensures StreakOf(days, today) == (n, n)
  {
    var ds := SortedDistinct(days);
    SortedDistinctFacts(days);
    FilledWindow(ds, today - n + 1, today);
    LongestRunIsMaximum(ds, |ds|);
  }

  /** A strictly ascending list holding exactly the days `lo..hi` is that window in order,
      and its last run covers all of it. */
  lemma FilledWindow(ds: seq<Day>, lo: Day, hi: Day)
    requires StrictlyIncreasing(ds) && lo <= hi
    requires forall d :: d in ds <==> lo <= d <= hi
    ensures |ds| == hi - lo + 1 && ds[|ds| - 1] == hi && RunEndingAt(ds, |ds| - 1) == |ds|
  {
    assert hi in ds;
    assert lo in ds;
    forall i | 0 < i < |ds| ensures ds[i] - ds[i - 1] == 1 {
      var d := ds[i - 1] + 1;
      assert ds[i - 1] < ds[i] && ds[i - 1] in ds && ds[i] in ds;
      assert d in ds;
      var j :| 0 <= j < |ds| && ds[j] == d;
    }
    RunsOfConsecutive(ds, |ds| - 1);
    var j0 :| 0 <= j0 < |ds| && ds[j0] == lo;
    var j1 :| 0 <= j1 < |ds| && ds[j1] == hi;
    assert ds[0] in ds && ds[|ds| - 1] in ds;
    assert ds[0] == lo;
    assert ds[|ds| - 1] == hi;
  }

  /** Over consecutive days, the run at `ds[i]` covers everything up to it. */
  lemma {:induction false} RunsOfConsecutive(ds: seq<Day>, i: nat)
    requires i < |ds|
    requires forall k :: 0 < k < |ds| ==> ds[k] - ds[k - 1] == 1
    ensures RunEndingAt(ds, i) == i + 1 && ds[i] == ds[0] + i
  {
    if i > 0 {
      RunsOfConsecutive(ds, i - 1);
    }
  }

  /** Adding a day later than every day already in the list appends it. */
  lemma {:induction false} InsertLatest(x: Day, ds: seq<Day>)
    requires forall k :: 0 <= k < |ds| ==> ds[k] < x
    ensures InsertDistinct(x, ds) == ds + [x]
  {
    if ds != [] {
      InsertLatest(x, ds[1..]);
      assert [ds[0]] + (ds[1..] + [x]) == ds + [x];
    }
  }

  /** Workouts listed newest first on distinct days (as the workouts query returns them)
      sort into the reverse of the list. */
  lemma {:induction false} SortedDistinctOfNewestFirst(days: seq<Day>)
    requires forall i, j :: 0 <= i < j < |days| ==> days[i] > days[j]
    ensures |SortedDistinct(days)| == |days|
    ensures forall k :: 0 <= k < |days| ==> SortedDistinct(days)[k] == days[|days| - 1 - k]
  {
    if days != [] {
      var rest := days[1..];
      SortedDistinctOfNewestFirst(rest);
      InsertLatest(days[0], SortedDistinct(rest));
    }
  }

  /** The days of the `test_streak_broken` case (workouts today, two and three days ago)
      give a current streak of 1 and a longest of 2. */
  lemma StreakBrokenExample()
    ensures StreakOf([20000, 19998, 19997], 20000) == (1, 2)
  {
    var days := [20000, 19998, 19997];
    SortedDistinctOfNewestFirst(days);
    var ds := SortedDistinct(days);
    assert ds[0] == 19997 && ds[1] == 19998 && ds[2] == 20000;
    assert RunEndingAt(ds, 0) == 1;
    assert RunEndingAt(ds, 1) == 2;
    assert RunEndingAt(ds, 2) == 1;
    assert LongestRun(ds, 2) == 2;
  }

  /** The days of the `test_old_longest_streak` case (today, 1, 2 and 10 to 13 days ago)
      give 3 and 4. */
  lemma OldLongestStreakExample()
    ensures StreakOf([20000, 19999, 19998, 19990, 19989, 19988, 19987], 20000) == (3, 4)
  {
    OldLongestStreakDays();
    var ds := [19987, 19988, 19989, 19990, 19998, 19999, 20000];
    assert RunEndingAt(ds, 3) == 4;
    assert RunEndingAt(ds, 6) == 3;
    assert LongestRun(ds, 4) == 4;
    assert LongestRun(ds, 7) == 4;
    assert CurrentStreak(ds, 20000) == 3 && LongestStreak(ds) == 4;
  }

  lemma OldLongestStreakDays()
    ensures SortedDistinct([20000, 19999, 19998, 19990, 19989, 19988, 19987])
      == [19987, 19988, 19989, 19990, 19998, 19999, 20000]
  {
    var days := [20000, 19999, 19998, 19990, 19989, 19988, 19987];
    SortedDistinctOfNewestFirst(days);
  }
}
