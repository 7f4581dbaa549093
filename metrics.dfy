/** `get_performance_metrics` (workouts inside a time window, each tagged with its date)
    and `get_nutrition_performance_correlation` (nutrition and workouts indexed by date). */
module Metrics {
  import opened Basics
  import opened WorkoutData

  /** A workout kept by the window filter, with the calendar date of its start added. */
  datatype DatedWorkout = DatedWorkout(workout: Workout, date: Day)

  predicate InWindow(w: Workout, from: Seconds, to: Seconds)
  {
    w.start.At? && from <= w.start.t <= to
  }

  function Dated(w: Workout): DatedWorkout
    requires w.start.At?
  {
    DatedWorkout(w, DayOf(w.start.t))
  }

  /** The workouts that start inside `[from, to]`, in list order, each with its date. */
  function WindowOf(ws: seq<Workout>, from: Seconds, to: Seconds): seq<DatedWorkout>
    requires AllStartsParsed(ws)
  {
    if ws == [] then []
    else
      var w := ws[|ws| - 1];
      WindowOf(ws[..|ws| - 1], from, to) + (if InWindow(w, from, to) then [Dated(w)] else [])
  }

  /** `datetime.fromisoformat` reads the start, and the result is compared with the naive
      `datetime.now()`: a missing or unreadable start raises, and so does an offset-aware
      one, since Python refuses to compare a naive time with an aware one. */
  predicate NaiveStart(w: Workout)
  {
    w.start.At? && w.start.text != WithOffset
  }

  predicate AllStartsNaive(ws: seq<Workout>)
  {
    forall k :: 0 <= k < |ws| ==> NaiveStart(ws[k])
  }

  /** `get_performance_metrics(user_id, days)` over the user's workouts at time `now`:
      the window is the `days` days up to `now`, both ends included. `None` stands for the
      exception the loop raises at the first start it cannot read or compare. */
  method GetPerformanceMetrics(workouts: seq<Workout>, now: Seconds, days: int)
    returns (filtered: Option<seq<DatedWorkout>>)
    ensures filtered.None? <==> !AllStartsNaive(workouts)
    ensures filtered.Some? ==> AllStartsParsed(workouts) &&
                               filtered.value == WindowOf(workouts, now - days * SecondsPerDay, now)
  {
    var endDate := now;
    var startDate := now - days * SecondsPerDay;
    var kept := [];
    for i := 0 to |workouts|
      invariant AllStartsNaive(workouts[..i])
      invariant kept == WindowOf(workouts[..i], startDate, endDate)
    {
      var workout := workouts[i];
      if !workout.start.At? || workout.start.text == WithOffset {
        assert !NaiveStart(workouts[i]);
        return None;
      }
      assert workouts[..i + 1][..i] == workouts[..i];
      if startDate <= workout.start.t <= endDate {
        kept := kept + [DatedWorkout(workout, DayOf(workout.start.t))];
      }
    }
    assert workouts[..|workouts|] == workouts;
    filtered := Some(kept);
  }

  /** The window keeps exactly the workouts that start inside it, each with the date of
      its start. */
  lemma {:induction false} WindowOfKeepsExactly(ws: seq<Workout>, from: Seconds, to: Seconds)
    requires AllStartsParsed(ws)
    ensures forall x :: x in WindowOf(ws, from, to) ==>
              x.workout in ws && InWindow(x.workout, from, to) && x == Dated(x.workout)
    ensures forall k :: 0 <= k < |ws| && InWindow(ws[k], from, to) ==> Dated(ws[k]) in WindowOf(ws, from, to)
    ensures |WindowOf(ws, from, to)| <= |ws|
  {
    if ws != [] {
      var front := ws[..|ws| - 1];
      WindowOfKeepsExactly(front, from, to);
      forall k | 0 <= k < |ws| - 1 ensures ws[k] == front[k] { }
    }
  }

  // ---------------------------------------------------------------------------

  /** One row of the daily nutrition summary. */
  datatype NutritionDay = NutritionDay(date: Day, totalCalories: Option<real>, totalProtein: Option<real>,
                                       totalCarbs: Option<real>, totalFat: Option<real>,
                                       totalWaterMl: Option<real>)

  /** What the correlation holds for one date; a side with no data is `None`. */
  datatype Correlated = Correlated(nutrition: Option<NutritionDay>, performance: Option<DatedWorkout>)

  function NutritionDate(n: NutritionDay): Day { n.date }

  function WorkoutDate(p: DatedWorkout): Day { p.date }

  /** The position of the last entry of day `d`, or -1 when there is none. Both indexing
      loops assign `correlated_data[date]` entry by entry, so the entry of a date that is
      left at the end is its last one. */
  function LastIndexOn<T>(xs: seq<T>, dateOf: T -> Day, d: Day): (i: int)
    ensures -1 <= i < |xs|
    ensures i >= 0 ==> dateOf(xs[i]) == d
    ensures forall j :: i < j < |xs| ==> dateOf(xs[j]) != d
  {
    if xs == [] then -1
    else if dateOf(xs[|xs| - 1]) == d then |xs| - 1
    else LastIndexOn(xs[..|xs| - 1], dateOf, d)
  }

  function LastOn<T>(xs: seq<T>, dateOf: T -> Day, d: Day): (r: Option<T>)
    ensures r.Some? ==> dateOf(r.value) == d
  {
    var i := LastIndexOn(xs, dateOf, d);
    if i < 0 then None else Some(xs[i])
  }

  /** The entry kept for a day is the last one of that day; there is none exactly when
      no entry has that day. */
  lemma LastOnIsLast<T>(xs: seq<T>, dateOf: T -> Day, d: Day)
    ensures LastOn(xs, dateOf, d).None? <==> forall k :: 0 <= k < |xs| ==> dateOf(xs[k]) != d
    ensures LastOn(xs, dateOf, d).Some? ==>
      exists k :: 0 <= k < |xs| && xs[k] == LastOn(xs, dateOf, d).value &&
                  forall j :: k < j < |xs| ==> dateOf(xs[j]) != d
  {
    var i := LastIndexOn(xs, dateOf, d);
    if i >= 0 {
      assert xs[i] == LastOn(xs, dateOf, d).value;
    }
  }

  function DatesOf<T>(xs: seq<T>, dateOf: T -> Day): set<Day>
  {
    set k | 0 <= k < |xs| :: dateOf(xs[k])
  }

  /** `m` indexes `nutrition` and `performance` by date: every date with data on either
      side is a key, and holds the last nutrition row and the last workout of that date,
      `None` on a side with nothing on that date. */
  predicate IsCorrelation(nutrition: seq<NutritionDay>, performance: seq<DatedWorkout>,
                          m: map<Day, Correlated>)
  {
    m.Keys == DatesOf(nutrition, NutritionDate) + DatesOf(performance, WorkoutDate) &&
    forall d :: d in m ==> m[d] == Correlated(LastOn(nutrition, NutritionDate, d), LastOn(performance, WorkoutDate, d))
  }

  lemma LastOnSnoc<T>(xs: seq<T>, dateOf: T -> Day, e: T, d: Day)
    ensures LastOn(xs + [e], dateOf, d) == if dateOf(e) == d then Some(e) else LastOn(xs, dateOf, d)
    ensures DatesOf(xs + [e], dateOf) == DatesOf(xs, dateOf) + {dateOf(e)}
  {
    assert (xs + [e])[..|xs|] == xs;
    assert forall k :: 0 <= k < |xs| ==> (xs + [e])[k] == xs[k];
  }

  /** The two indexing loops of `get_nutrition_performance_correlation`. */
  method Correlate(nutrition: seq<NutritionDay>, performance: seq<DatedWorkout>)
    returns (correlated: map<Day, Correlated>)
    ensures IsCorrelation(nutrition, performance, correlated)
  {
    correlated := map[];
    for i := 0 to |nutrition|
      invariant correlated.Keys == DatesOf(nutrition[..i], NutritionDate)
      invariant forall d :: d in correlated ==> correlated[d] == Correlated(LastOn(nutrition[..i], NutritionDate, d), None)
    {
      var entry := nutrition[i];
      assert nutrition[..i + 1] == nutrition[..i] + [entry];
      forall d ensures LastOn(nutrition[..i + 1], NutritionDate, d) ==
                       if entry.date == d then Some(entry) else LastOn(nutrition[..i], NutritionDate, d) {
        LastOnSnoc(nutrition[..i], NutritionDate, entry, d);
      }
      LastOnSnoc(nutrition[..i], NutritionDate, entry, entry.date);
      correlated := correlated[entry.date := Correlated(Some(entry), None)];
    }
    assert nutrition[..|nutrition|] == nutrition;
    correlated := AddWorkouts(nutrition, performance, correlated);
  }

  lemma AddWorkoutStep(nutrition: seq<NutritionDay>, ps: seq<DatedWorkout>, w: DatedWorkout, m: map<Day, Correlated>)
    requires IsCorrelation(nutrition, ps, m)
    ensures IsCorrelation(nutrition, ps + [w],
      m[w.date := if w.date in m then m[w.date].(performance := Some(w)) else Correlated(None, Some(w))])
  {
    forall d ensures LastOn(ps + [w], WorkoutDate, d) == if w.date == d then Some(w) else LastOn(ps, WorkoutDate, d) {
      LastOnSnoc(ps, WorkoutDate, w, d);
    }
    LastOnSnoc(ps, WorkoutDate, w, w.date);
    var m' := m[w.date := if w.date in m then m[w.date].(performance := Some(w)) else Correlated(None, Some(w))];
    assert m'.Keys == DatesOf(nutrition, NutritionDate) + DatesOf(ps + [w], WorkoutDate);
    forall d | d in m'
      ensures m'[d] == Correlated(LastOn(nutrition, NutritionDate, d), LastOn(ps + [w], WorkoutDate, d))
    {
      if d == w.date && w.date !in m {
        assert w.date !in DatesOf(nutrition, NutritionDate);
      }
    }
  }

  /** The second loop: each workout's date gets its workout, a later one replacing an
      earlier one, beside the nutrition already there. */
  method AddWorkouts(nutrition: seq<NutritionDay>, performance: seq<DatedWorkout>, byNutrition: map<Day, Correlated>)
    returns (correlated: map<Day, Correlated>)
    requires IsCorrelation(nutrition, [], byNutrition)
    ensures IsCorrelation(nutrition, performance, correlated)
  {
    correlated := byNutrition;
    assert DatesOf(performance[..0], WorkoutDate) == {};
    for j := 0 to |performance|
      invariant IsCorrelation(nutrition, performance[..j], correlated)
    {
      var workout := performance[j];
      assert performance[..j + 1] == performance[..j] + [workout];
      var entry := if workout.date in correlated then correlated[workout.date].(performance := Some(workout))
                   else Correlated(None, Some(workout));
      AddWorkoutStep(nutrition, performance[..j], workout, correlated);
      correlated := correlated[workout.date := entry];
    }
    assert performance[..|performance|] == performance;
  }

  /** `get_nutrition_performance_correlation(user_id, days)`: `nutrition` is the daily
      summary rows the nutrition query returns for the same `days`; the workouts go
      through the window filter of `get_performance_metrics` first, whose exception
      (`None`) is not caught here. */
  method GetNutritionPerformanceCorrelation(nutrition: seq<NutritionDay>, workouts: seq<Workout>,
                                            now: Seconds, days: int)
    returns (correlated: Option<map<Day, Correlated>>)
    ensures correlated.None? <==> !AllStartsNaive(workouts)
    ensures correlated.Some? ==>
              AllStartsParsed(workouts) &&
              IsCorrelation(nutrition, WindowOf(workouts, now - days * SecondsPerDay, now), correlated.value)
  {
    var performance := GetPerformanceMetrics(workouts, now, days);
    if performance.None? {
      return None;
    }
    var m := Correlate(nutrition, performance.value);
    correlated := Some(m);
  }

  /** A side of a correlated date is `None` exactly when that side has nothing on that
      date, so no date holds two empty sides. */
  lemma CorrelationSides(nutrition: seq<NutritionDay>, performance: seq<DatedWorkout>,
                         m: map<Day, Correlated>, d: Day)
    requires IsCorrelation(nutrition, performance, m)
    ensures d in m ==> m[d] != Correlated(None, None)
    ensures d in m ==> (m[d].nutrition.Some? <==> d in DatesOf(nutrition, NutritionDate))
    ensures d in m ==> (m[d].performance.Some? <==> d in DatesOf(performance, WorkoutDate))
  {
    if d in m {
      var n := LastOn(nutrition, NutritionDate, d);
      var p := LastOn(performance, WorkoutDate, d);
      if d in DatesOf(nutrition, NutritionDate) {
        var k :| 0 <= k < |nutrition| && nutrition[k].date == d;
      }
      if d in DatesOf(performance, WorkoutDate) {
        var k :| 0 <= k < |performance| && performance[k].date == d;
      }
      assert n.Some? || p.Some?;
    }
  }

  function NutritionOn(d: Day, calories: real): NutritionDay
  {
    NutritionDay(d, Some(calories), None, None, None, None)
  }

  function WorkoutOn(d: Day, calories: int): DatedWorkout
  {
    DatedWorkout(Workout(None, Missing, Missing, None, None, Absent, Absent, Value(calories as real)), d)
  }

  /** Nutrition on days 19919 and 19920 and workouts on days 19919 and 19921 correlate
      into three dates. */
  lemma CorrelationExampleDates(m: map<Day, Correlated>)
    requires IsCorrelation([NutritionOn(19919, 2100.5), NutritionOn(19920, 1950.8)],
                           [WorkoutOn(19919, 450), WorkoutOn(19921, 320)], m)
    ensures m.Keys == {19919, 19920, 19921}
  {
    var n0, n1 := NutritionOn(19919, 2100.5), NutritionOn(19920, 1950.8);
    var p0, p1 := WorkoutOn(19919, 450), WorkoutOn(19921, 320);
    assert [n0] == [] + [n0] && [n0, n1] == [n0] + [n1];
    assert [p0] == [] + [p0] && [p0, p1] == [p0] + [p1];
    assert DatesOf([], NutritionDate) == {} && DatesOf([], WorkoutDate) == {};
    LastOnSnoc([n0], NutritionDate, n1, 19919);
    LastOnSnoc([], NutritionDate, n0, 19919);
    LastOnSnoc([p0], WorkoutDate, p1, 19919);
    LastOnSnoc([], WorkoutDate, p0, 19919);
  }

  /** Of the three dates, one has both sides, one nutrition only, one the workout only. */
  lemma CorrelationExample(m: map<Day, Correlated>)
    requires IsCorrelation([NutritionOn(19919, 2100.5), NutritionOn(19920, 1950.8)],
                           [WorkoutOn(19919, 450), WorkoutOn(19921, 320)], m)
    ensures m[19919] == Correlated(Some(NutritionOn(19919, 2100.5)), Some(WorkoutOn(19919, 450)))
    ensures m[19920] == Correlated(Some(NutritionOn(19920, 1950.8)), None)
    ensures m[19921] == Correlated(None, Some(WorkoutOn(19921, 320)))
  {
    CorrelationExampleDates(m);
    var n0, n1 := NutritionOn(19919, 2100.5), NutritionOn(19920, 1950.8);
    var p0, p1 := WorkoutOn(19919, 450), WorkoutOn(19921, 320);
    assert [n0] == [] + [n0] && [n0, n1] == [n0] + [n1];
    assert [p0] == [] + [p0] && [p0, p1] == [p0] + [p1];
    LastOnSnoc([n0], NutritionDate, n1, 19919);
    LastOnSnoc([n0], NutritionDate, n1, 19920);
    LastOnSnoc([n0], NutritionDate, n1, 19921);
    LastOnSnoc([], NutritionDate, n0, 19919);
    LastOnSnoc([], NutritionDate, n0, 19921);
    LastOnSnoc([p0], WorkoutDate, p1, 19919);
    LastOnSnoc([p0], WorkoutDate, p1, 19920);
    LastOnSnoc([p0], WorkoutDate, p1, 19921);
    LastOnSnoc([], WorkoutDate, p0, 19919);
    LastOnSnoc([], WorkoutDate, p0, 19920);
  }
}
