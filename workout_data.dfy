/** Workout records as `get_user_workouts` builds them from the Workouts table, and the
    per-field totals the activity page and the badge engine take over them. */
module WorkoutData {
  import opened Basics

  /** How `str()` printed a timestamp value: date and time to the second, with a fraction
      of a second, or with a UTC offset (a time-zone-aware value). `datetime.fromisoformat`
      reads all three; the pattern `'%Y-%m-%d %H:%M:%S'` only the first. */
  datatype StampText = WholeSeconds | Fractional | WithOffset

  /** A timestamp field as the pages read it: absent or empty, present but not
      parseable, or a parsed time (its wall-clock reading) with the form it was written in. */
  datatype Stamp = Missing | Malformed | At(t: Seconds, text: StampText)

  /** A non-NULL value of a TIMESTAMP column: the time and the form `str()` gives it. */
  datatype Timestamp = Timestamp(t: Seconds, text: StampText)

  /** A numeric key of a workout record: absent, holding `None` (a NULL column), or
      holding a number. */
  datatype Field<T> = Absent | Null | Value(v: T)

  /** A workout record. `workoutId` is `None` when the key is absent. */
  datatype Workout = Workout(
    workoutId: Option<string>,
    start: Stamp,
    end: Stamp,
    startLatLng: Option<(real, real)>,
    endLatLng: Option<(real, real)>,
    distance: Field<real>,
    steps: Field<int>,
    caloriesBurned: Field<real>)

  /** A row of the Workouts table; every column but the id may be NULL. */
  datatype WorkoutRow = WorkoutRow(
    workoutId: string,
    startTimestamp: Option<Timestamp>,
    endTimestamp: Option<Timestamp>,
    startLat: Option<real>,
    startLong: Option<real>,
    endLat: Option<real>,
    endLong: Option<real>,
    totalDistance: Option<real>,
    totalSteps: Option<int>,
    caloriesBurned: Option<real>)

  /** `str()` of a NULL timestamp is the text "None", which no timestamp parser accepts. */
  function StampOf(ts: Option<Timestamp>): (s: Stamp)
    ensures s.At? <==> ts.Some?
    ensures ts.Some? ==> s.t == ts.value.t && s.text == ts.value.text
    ensures ts.None? ==> s == Malformed
  {
    match ts
    case Some(v) => At(v.t, v.text)
    case None => Malformed
  }

  /** A column copied into a record: the key is always there, `None` for NULL. */
  function FieldOf<T>(column: Option<T>): (f: Field<T>)
    ensures !f.Absent?
    ensures f.Null? <==> column.None?
    ensures column.Some? ==> f.v == column.value
  {
    match column
    case Some(x) => Value(x)
    case None => Null
  }

  /** One record of `get_user_workouts`: all keys present, a NULL coordinate replaced by 0,
      a NULL amount kept as `None`. */
  function FromRow(row: WorkoutRow): (w: Workout)
    ensures w.workoutId == Some(row.workoutId)
    ensures w.start.At? <==> row.startTimestamp.Some?
    ensures w.end.At? <==> row.endTimestamp.Some?
    ensures w.startLatLng.Some? && w.endLatLng.Some?
    ensures row.startLat.Some? ==> w.startLatLng.value.0 == row.startLat.value
    ensures row.startLat.None? ==> w.startLatLng.value.0 == 0.0
    ensures row.startLong.Some? ==> w.startLatLng.value.1 == row.startLong.value
    ensures row.startLong.None? ==> w.startLatLng.value.1 == 0.0
    ensures row.endLat.Some? ==> w.endLatLng.value.0 == row.endLat.value
    ensures row.endLat.None? ==> w.endLatLng.value.0 == 0.0
    ensures row.endLong.Some? ==> w.endLatLng.value.1 == row.endLong.value
    ensures row.endLong.None? ==> w.endLatLng.value.1 == 0.0
    ensures !w.distance.Absent? && !w.steps.Absent? && !w.caloriesBurned.Absent?
    ensures (w.distance.Null? <==> row.totalDistance.None?) &&
            (row.totalDistance.Some? ==> w.distance.v == row.totalDistance.value)
    ensures (w.steps.Null? <==> row.totalSteps.None?) &&
            (row.totalSteps.Some? ==> w.steps.v == row.totalSteps.value)
    ensures (w.caloriesBurned.Null? <==> row.caloriesBurned.None?) &&
            (row.caloriesBurned.Some? ==> w.caloriesBurned.v == row.caloriesBurned.value)
  {
    Workout(
      Some(row.workoutId),
      StampOf(row.startTimestamp),
      StampOf(row.endTimestamp),
      Some((row.startLat.GetOr(0.0), row.startLong.GetOr(0.0))),
      Some((row.endLat.GetOr(0.0), row.endLong.GetOr(0.0))),
      FieldOf(row.totalDistance),
      FieldOf(row.totalSteps),
      FieldOf(row.caloriesBurned))
  }

  /** The loop of `get_user_workouts`: one record per row, in row order. */
  method GetUserWorkouts(rows: seq<WorkoutRow>) returns (workouts: seq<Workout>)
    ensures |workouts| == |rows|
    ensures forall i :: 0 <= i < |rows| ==> workouts[i] == FromRow(rows[i])
  {
    workouts := [];
    var i := 0;
    while i < |rows|
      invariant 0 <= i <= |rows|
      invariant |workouts| == i
      invariant forall k :: 0 <= k < i ==> workouts[k] == FromRow(rows[k])
    {
      workouts := workouts + [FromRow(rows[i])];
      i := i + 1;
    }
  }

  /** `w.get('steps', 0)` when it is a number (an absent key reads as 0). */
  function StepsOf(w: Workout): int
    requires !w.steps.Null?
  {
    if w.steps.Value? then w.steps.v else 0
  }

  function DistanceOf(w: Workout): real
    requires !w.distance.Null?
  {
    if w.distance.Value? then w.distance.v else 0.0
  }

  function CaloriesOf(w: Workout): real
    requires !w.caloriesBurned.Null?
  {
    if w.caloriesBurned.Value? then w.caloriesBurned.v else 0.0
  }

  /** No step count is `None`, so summing the steps does not raise. */
  predicate StepsNumeric(ws: seq<Workout>)
  {
    forall k :: 0 <= k < |ws| ==> !ws[k].steps.Null?
  }

  /** No step count, distance or calorie figure is `None`. */
  predicate AmountsNumeric(ws: seq<Workout>)
  {
    forall k :: 0 <= k < |ws| ==> !ws[k].steps.Null? && !ws[k].distance.Null? && !ws[k].caloriesBurned.Null?
  }

  /** `sum(w.get('steps', 0) for w in workouts)`. */
  function TotalSteps(ws: seq<Workout>): int
    requires StepsNumeric(ws)
  {
    if ws == [] then 0 else TotalSteps(ws[..|ws| - 1]) + StepsOf(ws[|ws| - 1])
  }

  function TotalDistance(ws: seq<Workout>): real
    requires AmountsNumeric(ws)
  {
    if ws == [] then 0.0 else TotalDistance(ws[..|ws| - 1]) + DistanceOf(ws[|ws| - 1])
  }

  function TotalCalories(ws: seq<Workout>): real
    requires AmountsNumeric(ws)
  {
    if ws == [] then 0.0 else TotalCalories(ws[..|ws| - 1]) + CaloriesOf(ws[|ws| - 1])
  }

  /** The step total of two lists of workouts together is the sum of their totals. */
  lemma {:induction false} TotalStepsAppend(a: seq<Workout>, b: seq<Workout>)
    requires StepsNumeric(a) && StepsNumeric(b)
    ensures StepsNumeric(a + b)
    ensures TotalSteps(a + b) == TotalSteps(a) + TotalSteps(b)
    decreases |b|
  {
    if b != [] {
      assert (a + b)[..|a + b| - 1] == a + b[..|b| - 1];
      TotalStepsAppend(a, b[..|b| - 1]);
    } else {
      assert a + b == a;
    }
  }

  /** With no negative step counts, the total is at least each workout's count. */
  lemma {:induction false} TotalStepsBoundsEach(ws: seq<Workout>, i: nat)
    requires StepsNumeric(ws) && forall k :: 0 <= k < |ws| ==> StepsOf(ws[k]) >= 0
    requires i < |ws|
    ensures TotalSteps(ws) >= StepsOf(ws[i]) >= 0
  {
    TotalStepsNonNegative(ws[..|ws| - 1]);
    if i < |ws| - 1 {
      TotalStepsBoundsEach(ws[..|ws| - 1], i);
    }
  }

  lemma {:induction false} TotalStepsNonNegative(ws: seq<Workout>)
    requires StepsNumeric(ws) && forall k :: 0 <= k < |ws| ==> StepsOf(ws[k]) >= 0
    ensures TotalSteps(ws) >= 0
  {
    if ws != [] {
      TotalStepsNonNegative(ws[..|ws| - 1]);
    }
  }

  predicate AllStartsParsed(ws: seq<Workout>)
  {
    forall k :: 0 <= k < |ws| ==> ws[k].start.At?
  }

  /** The calendar date of each workout's start. */
  function StartDays(ws: seq<Workout>): (days: seq<Day>)
    requires AllStartsParsed(ws)
    ensures |days| == |ws|
    ensures forall k :: 0 <= k < |ws| ==> days[k] == DayOf(ws[k].start.t)
  {
    if ws == [] then [] else StartDays(ws[..|ws| - 1]) + [DayOf(ws[|ws| - 1].start.t)]
  }
}
