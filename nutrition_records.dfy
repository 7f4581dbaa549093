/** The rows of the meal, food and goal-progress tables, and the rules the progress
    functions apply to them: per-serving scaling, the consumed-calorie join, the
    progress upsert and the daily snapshot. */
module NutritionRecords {
  import opened Basics
  import opened Goals

  /** A row of the Meals table. */
  datatype Meal = Meal(mealId: string, userId: string, mealType: string, mealName: Option<string>,
                       mealTime: Seconds)

  /** The per-serving values of a row of the FoodItems table. */
  datatype FoodItem = FoodItem(foodId: string, foodName: string, calories: real, proteinGrams: real,
                               carbsGrams: real, fatGrams: real)

  /** A row of the MealFoods table: a food in a meal, with totals for its quantity. */
  datatype MealFood = MealFood(mealId: string, foodId: string, quantity: real, totalCalories: real,
                               totalProtein: real, totalCarbs: real, totalFat: real)

  /** A row of the GoalProgress table; the two amounts may be NULL. */
  datatype ProgressRow = ProgressRow(progressId: string, goalId: string, userId: string, date: Day,
                                     consumed: Option<real>, remaining: Option<real>,
                                     updatedAt: Seconds)

  /** `get_food_item(food_id)`: the first catalogue row with that id. */
  function FoodById(foods: seq<FoodItem>, foodId: string): (r: Option<FoodItem>)
    ensures r.Some? ==> r.value in foods && r.value.foodId == foodId
    ensures r.None? <==> forall k :: 0 <= k < |foods| ==> foods[k].foodId != foodId
  {
    if foods == [] then None
    else if foods[0].foodId == foodId then Some(foods[0])
    else
      var r := FoodById(foods[1..], foodId);
      assert forall k :: 1 <= k < |foods| ==> foods[k] == foods[1..][k - 1];
      r
  }

  /** The MealFoods row `add_food_to_meal` stores: every per-serving value times the quantity. */
  function Scaled(food: FoodItem, mealId: string, quantity: real): MealFood
  {
    MealFood(mealId, food.foodId, quantity, food.calories * quantity, food.proteinGrams * quantity,
             food.carbsGrams * quantity, food.fatGrams * quantity)
  }

  /** Scaling is linear: the totals for two quantities add up to the totals for their sum,
      and one serving has the per-serving values. */
  lemma ScalingIsLinear(food: FoodItem, mealId: string, q1: real, q2: real)
    ensures var a, b, c := Scaled(food, mealId, q1), Scaled(food, mealId, q2), Scaled(food, mealId, q1 + q2);
      a.totalCalories + b.totalCalories == c.totalCalories &&
      a.totalProtein + b.totalProtein == c.totalProtein &&
      a.totalCarbs + b.totalCarbs == c.totalCarbs &&
      a.totalFat + b.totalFat == c.totalFat
    ensures var one := Scaled(food, mealId, 1.0);
      one.totalCalories == food.calories && one.totalProtein == food.proteinGrams &&
      one.totalCarbs == food.carbsGrams && one.totalFat == food.fatGrams
  {
  }

  /** The meal lookup of `update_daily_nutrition_summary`: its loop keeps the last row
      with that id. */
  function MealById(meals: seq<Meal>, mealId: string): (r: Option<Meal>)
    ensures r.Some? ==> r.value in meals && r.value.mealId == mealId
    ensures r.None? <==> forall k :: 0 <= k < |meals| ==> meals[k].mealId != mealId
  {
    if meals == [] then None
    else if meals[|meals| - 1].mealId == mealId then Some(meals[|meals| - 1])
    else
      var r := MealById(meals[..|meals| - 1], mealId);
      assert forall k :: 0 <= k < |meals| - 1 ==> meals[k] == meals[..|meals| - 1][k];
      r
  }

  // ---------------------------------------------------------------------------
  // The consumed-calorie query: SUM(total_calories) over meal foods JOIN meals, for
  // the user's meals whose time falls on the day.

  predicate MealOn(m: Meal, user: string, d: Day)
  {
    m.userId == user && DayOf(m.mealTime) == d
  }

  /** How many of the user's meals on day `d` carry the id `mealId` (the join multiplicity). */
  function JoinCount(meals: seq<Meal>, mealId: string, user: string, d: Day): nat
  {
    if meals == [] then 0
    else
      var m := meals[|meals| - 1];
      JoinCount(meals[..|meals| - 1], mealId, user, d) + (if m.mealId == mealId && MealOn(m, user, d) then 1 else 0)
  }

  /** The consumption of `user` on day `d` over the Meals and MealFoods tables, the ones
      `add_meal` and `add_food_to_meal` write. The query as written names other tables;
      see `ConsumedAsWritten`. */
  function ConsumedOn(meals: seq<Meal>, mealFoods: seq<MealFood>, user: string, d: Day): (c: real)
    ensures meals == [] || mealFoods == [] ==> c == 0.0
  {
    if mealFoods == [] then 0.0
    else
      var mf := mealFoods[|mealFoods| - 1];
      ConsumedOn(meals, mealFoods[..|mealFoods| - 1], user, d)
        + mf.totalCalories * JoinCount(meals, mf.mealId, user, d) as real
  }

  lemma {:induction false} JoinCountOfUniqueMeal(meals: seq<Meal>, k: nat)
    requires k < |meals|
    requires forall j :: 0 <= j < |meals| && j != k ==> meals[j].mealId != meals[k].mealId
    ensures JoinCount(meals, meals[k].mealId, meals[k].userId, DayOf(meals[k].mealTime)) == 1
  {
    var m := meals[k];
    var front := meals[..|meals| - 1];
    if k < |meals| - 1 {
      JoinCountOfUniqueMeal(front, k);
    } else {
      JoinCountAbsent(front, m.mealId, m.userId, DayOf(m.mealTime));
    }
  }

  lemma {:induction false} JoinCountAbsent(meals: seq<Meal>, mealId: string, user: string, d: Day)
    requires forall j :: 0 <= j < |meals| ==> meals[j].mealId != mealId
    ensures JoinCount(meals, mealId, user, d) == 0
  {
    if meals != [] {
      JoinCountAbsent(meals[..|meals| - 1], mealId, user, d);
    }
  }

  /** A food added to a meal whose id is unique counts its calories, once, towards the
      meal owner's consumption on the meal's day. */
  lemma AddedFoodCounts(meals: seq<Meal>, mealFoods: seq<MealFood>, k: nat, food: FoodItem, quantity: real)
    requires k < |meals|
    requires forall j :: 0 <= j < |meals| && j != k ==> meals[j].mealId != meals[k].mealId
    ensures var m := meals[k];
      ConsumedOn(meals, mealFoods + [Scaled(food, m.mealId, quantity)], m.userId, DayOf(m.mealTime))
        == ConsumedOn(meals, mealFoods, m.userId, DayOf(m.mealTime)) + food.calories * quantity
  {
    var m := meals[k];
    var all := mealFoods + [Scaled(food, m.mealId, quantity)];
    assert all[..|all| - 1] == mealFoods;
    JoinCountOfUniqueMeal(meals, k);
  }

  /** The two tables the consumption query of `get_daily_nutrition_progress` and
      `update_goal_progress` joins, named in lower case (`meals`, `meal_foods`), where every
      writer uses `Meals` and `MealFoods`. Table names are case-sensitive, so these are
      other tables, and no operation here writes them. */
  datatype QueriedTables = QueriedTables(meals: seq<Meal>, mealFoods: seq<MealFood>)

  /** The consumption the query computes as written: the join over the lower-case tables.
      While nothing has been written to them, it is 0 whatever the written tables hold. */
  function ConsumedAsWritten(queried: QueriedTables, user: string, d: Day): (c: real)
    ensures queried.meals == [] || queried.mealFoods == [] ==> c == 0.0
  {
    ConsumedOn(queried.meals, queried.mealFoods, user, d)
  }

  /** A 95-calorie apple added to a user's only meal counts 95 in the written tables, and
      the query as written, over the lower-case tables nothing writes, reports 0. */
  lemma AsWrittenMissesAddedFood()
    ensures var m := Meal("meal1", "user1", "lunch", None, 43200);
      var apple := FoodItem("food1", "Apple", 95.0, 0.5, 25.0, 0.3);
      var written := [Scaled(apple, m.mealId, 1.0)];
      ConsumedOn([m], written, "user1", DayOf(43200)) == 95.0 &&
      ConsumedAsWritten(QueriedTables([], []), "user1", DayOf(43200)) == 0.0
  {
    var m := Meal("meal1", "user1", "lunch", None, 43200);
    JoinCountOfUniqueMeal([m], 0);
  }

  // ---------------------------------------------------------------------------
  // The GoalProgress table.

  predicate IsKey(row: ProgressRow, user: string, d: Day)
  {
    row.userId == user && row.date == d
  }

  /** At most one progress row per user and day. */
  predicate OneRowPerDay(rows: seq<ProgressRow>)
  {
    forall i, j :: 0 <= i < j < |rows| ==> !IsKey(rows[j], rows[i].userId, rows[i].date)
  }

  predicate NoRowFor(rows: seq<ProgressRow>, user: string, d: Day)
  {
    forall k :: 0 <= k < |rows| ==> !IsKey(rows[k], user, d)
  }

  /** The row the existence check of `update_goal_progress` finds first. */
  function FirstRowFor(rows: seq<ProgressRow>, user: string, d: Day): (r: Option<nat>)
    ensures r.Some? ==> r.value < |rows| && IsKey(rows[r.value], user, d) &&
                        forall k :: 0 <= k < r.value ==> !IsKey(rows[k], user, d)
    ensures r.None? <==> NoRowFor(rows, user, d)
  {
    if rows == [] then None
    else if IsKey(rows[0], user, d) then Some(0)
    else
      match FirstRowFor(rows[1..], user, d)
      case None => assert forall k :: 1 <= k < |rows| ==> rows[k] == rows[1..][k - 1]; None
      case Some(i) => assert forall k :: 1 <= k < |rows| ==> rows[k] == rows[1..][k - 1]; Some(i + 1)
  }

  /** The table after the upsert of `update_goal_progress`: the first row for the user
      and day gets the new amounts and time, or, with no such row, one row is appended.
      The SQL update selects rows by the found row's `progress_id`; updating the found row
      alone is the same thing exactly when no other row carries that id. */
  function Upserted(rows: seq<ProgressRow>, user: string, d: Day, goalId: string, consumed: real,
                    remaining: real, now: Seconds, newId: string): seq<ProgressRow>
  {
    match FirstRowFor(rows, user, d)
    case Some(i) => rows[i := rows[i].(consumed := Some(consumed), remaining := Some(remaining), updatedAt := now)]
    case None => rows + [ProgressRow(newId, goalId, user, d, Some(consumed), Some(remaining), now)]
  }

  /** The upsert writes one row for the user and day and leaves every other row as it was;
      it appends exactly when no row for that day existed. */
  lemma UpsertTouchesOnlyItsDay(rows: seq<ProgressRow>, user: string, d: Day, goalId: string,
                                consumed: real, remaining: real, now: Seconds, newId: string)
    ensures var r := Upserted(rows, user, d, goalId, consumed, remaining, now, newId);
      (|r| == |rows| + 1 <==> NoRowFor(rows, user, d)) &&
      (|r| == |rows| || |r| == |rows| + 1) &&
      (forall k :: 0 <= k < |rows| && !IsKey(rows[k], user, d) ==> r[k] == rows[k]) &&
      exists k :: 0 <= k < |r| && r[k].userId == user && r[k].date == d &&
                  r[k].consumed == Some(consumed) && r[k].remaining == Some(remaining) && r[k].updatedAt == now
  {
    var r := Upserted(rows, user, d, goalId, consumed, remaining, now, newId);
    match FirstRowFor(rows, user, d)
    case Some(i) =>
      assert r[i].userId == user && r[i].date == d;
    case None =>
      assert r[|rows|].userId == user && r[|rows|].date == d;
  }

  /** The upsert keeps the table at one row per user and day. */
  lemma UpsertKeepsOneRowPerDay(rows: seq<ProgressRow>, user: string, d: Day, goalId: string,
                                consumed: real, remaining: real, now: Seconds, newId: string)
    requires OneRowPerDay(rows)
    ensures OneRowPerDay(Upserted(rows, user, d, goalId, consumed, remaining, now, newId))
  {
  }

  /** Repeating an upsert with the same amounts stores the same values: the second one
      only moves the update time. */
  lemma UpsertIsIdempotent(rows: seq<ProgressRow>, user: string, d: Day, goalId: string,
                           consumed: real, remaining: real, now1: Seconds, now2: Seconds, newId: string)
    ensures Upserted(Upserted(rows, user, d, goalId, consumed, remaining, now1, newId),
                     user, d, goalId, consumed, remaining, now2, newId)
         == Upserted(rows, user, d, goalId, consumed, remaining, now2, newId)
  {
    var once := Upserted(rows, user, d, goalId, consumed, remaining, now1, newId);
    match FirstRowFor(rows, user, d)
    case Some(i) =>
      FirstRowIs(once, user, d, i);
    case None =>
      FirstRowIs(once, user, d, |rows|);
  }

  lemma FirstRowIs(rows: seq<ProgressRow>, user: string, d: Day, i: nat)
    requires i < |rows| && IsKey(rows[i], user, d)
    requires forall k :: 0 <= k < i ==> !IsKey(rows[k], user, d)
    ensures FirstRowFor(rows, user, d) == Some(i)
  {
    assert !NoRowFor(rows, user, d);
    var j := FirstRowFor(rows, user, d).value;
    assert j == i;
  }

  // ---------------------------------------------------------------------------
  // The daily snapshot.

  /** The progress query of `get_daily_nutrition_progress`: the user's row for the day
      updated last; of rows updated at the same time, the one stored later. */
  function NewestRowFor(rows: seq<ProgressRow>, user: string, d: Day): (r: Option<ProgressRow>)
    ensures r.Some? ==> r.value in rows && IsKey(r.value, user, d)
    ensures r.Some? ==> forall k :: 0 <= k < |rows| && IsKey(rows[k], user, d) ==> rows[k].updatedAt <= r.value.updatedAt
    ensures r.None? <==> NoRowFor(rows, user, d)
  {
    if rows == [] then None
    else
      var front := rows[..|rows| - 1];
      var row := rows[|rows| - 1];
      var rest := NewestRowFor(front, user, d);
      assert forall k :: 0 <= k < |front| ==> front[k] == rows[k];
      if IsKey(row, user, d) && (rest.None? || rest.value.updatedAt <= row.updatedAt) then Some(row) else rest
  }

  /** What `get_daily_nutrition_progress` reports. */
  datatype DailyProgress = DailyProgress(goal: Goal, date: Day, consumed: real, remaining: real,
                                         percent: real, updatedAt: Seconds)

  /** The report of a day, as `get_daily_nutrition_progress(user, d)` returns it at time
      `now`: nothing without an active goal; a stored row's amounts (NULL read as 0) when
      there is one; otherwise the amounts computed from the meals. */
  function DailyView(goals: seq<Goal>, meals: seq<Meal>, mealFoods: seq<MealFood>, rows: seq<ProgressRow>,
                     user: string, d: Day, now: Seconds): Option<DailyProgress>
  {
    match ActiveGoal(goals, user, d)
    case None => None
    case Some(goal) =>
      match NewestRowFor(rows, user, d)
      case Some(row) =>
        var consumed := row.consumed.GetOr(0.0);
        Some(DailyProgress(goal, d, consumed, row.remaining.GetOr(0.0),
                           Percent(consumed, goal.calorieTarget), row.updatedAt))
      case None =>
        var consumed := ConsumedOn(meals, mealFoods, user, d);
        Some(DailyProgress(goal, d, consumed, Remaining(goal.calorieTarget, consumed),
                           Percent(consumed, goal.calorieTarget), now))
  }

  /** The report as written: a day with an active goal and no stored row is computed from
      the lower-case tables, so it shows nothing eaten and the whole target left, whatever
      meals and foods the writers have stored. */
  lemma ReportAsWrittenShowsNothingEaten(goals: seq<Goal>, rows: seq<ProgressRow>, user: string,
                                         d: Day, now: Seconds)
    requires ActiveGoal(goals, user, d).Some? && NoRowFor(rows, user, d)
    ensures var queried := QueriedTables([], []);
      var report := DailyView(goals, queried.meals, queried.mealFoods, rows, user, d, now);
      var target := ActiveGoal(goals, user, d).value.calorieTarget;
      report.Some? && report.value.consumed == ConsumedAsWritten(queried, user, d) == 0.0 &&
      report.value.remaining == Remaining(target, 0.0) && report.value.percent == Percent(0.0, target)
  {
  }

  /** The table after `get_daily_nutrition_progress(user, d)`: a row is inserted only
      when there is an active goal and no row for the day. */
  function DailyRows(goals: seq<Goal>, meals: seq<Meal>, mealFoods: seq<MealFood>, rows: seq<ProgressRow>,
                     user: string, d: Day, now: Seconds, newId: string): seq<ProgressRow>
  {
    match ActiveGoal(goals, user, d)
    case None => rows
    case Some(goal) =>
      if NewestRowFor(rows, user, d).Some? then rows
      else
        var consumed := ConsumedOn(meals, mealFoods, user, d);
        rows + [ProgressRow(newId, goal.goalId, user, d, Some(consumed),
                            Some(Remaining(goal.calorieTarget, consumed)), now)]
  }

  /** A stored row is reported as it is: the meals are not consulted. */
  lemma {:induction false} SnapshotIgnoresMeals(goals: seq<Goal>, meals1: seq<Meal>, mealFoods1: seq<MealFood>,
                                                meals2: seq<Meal>, mealFoods2: seq<MealFood>,
                                                rows: seq<ProgressRow>, user: string, d: Day, now: Seconds)
    requires !NoRowFor(rows, user, d)
    ensures DailyView(goals, meals1, mealFoods1, rows, user, d, now)
         == DailyView(goals, meals2, mealFoods2, rows, user, d, now)
  {
  }

  /** The day's report is the same when asked again later: the first call stores what it
      reports. */
  lemma DailyIsStable(goals: seq<Goal>, meals: seq<Meal>, mealFoods: seq<MealFood>, rows: seq<ProgressRow>,
                      user: string, d: Day, now: Seconds, later: Seconds, newId: string)
    ensures DailyView(goals, meals, mealFoods, DailyRows(goals, meals, mealFoods, rows, user, d, now, newId), user, d, later)
         == DailyView(goals, meals, mealFoods, rows, user, d, now)
  {
    var rows' := DailyRows(goals, meals, mealFoods, rows, user, d, now, newId);
    if ActiveGoal(goals, user, d).Some? && NewestRowFor(rows, user, d).None? {
      assert rows'[..|rows|] == rows;
      assert NewestRowFor(rows', user, d) == Some(rows'[|rows|]);
    }
  }

  /** Without an active goal the report is absent and the table is not written. */
  lemma DailyNeedsGoal(goals: seq<Goal>, meals: seq<Meal>, mealFoods: seq<MealFood>, rows: seq<ProgressRow>,
                       user: string, d: Day, now: Seconds, newId: string)
    requires forall k :: 0 <= k < |goals| ==> !Active(goals[k], user, d)
    ensures DailyView(goals, meals, mealFoods, rows, user, d, now).None?
    ensures DailyRows(goals, meals, mealFoods, rows, user, d, now, newId) == rows
  {
  }

  /** After `update_goal_progress` stores an amount for a day, the daily report reads it
      back with its remaining calories and percentage. */
  lemma {:induction false} DailyAfterUpsert(goals: seq<Goal>, meals: seq<Meal>, mealFoods: seq<MealFood>,
                                            rows: seq<ProgressRow>, user: string, d: Day, goal: Goal,
                                            consumed: real, now: Seconds, later: Seconds, newId: string)
    requires OneRowPerDay(rows)
    requires ActiveGoal(goals, user, d) == Some(goal)
    ensures var r := Remaining(goal.calorieTarget, consumed);
      DailyView(goals, meals, mealFoods, Upserted(rows, user, d, goal.goalId, consumed, r, now, newId), user, d, later)
        == Some(DailyProgress(goal, d, consumed, r, Percent(consumed, goal.calorieTarget), now))
  {
    var r := Remaining(goal.calorieTarget, consumed);
    var rows' := Upserted(rows, user, d, goal.goalId, consumed, r, now, newId);
    UpsertKeepsOneRowPerDay(rows, user, d, goal.goalId, consumed, r, now, newId);
    match FirstRowFor(rows, user, d)
    case Some(i) =>
      OnlyRowIsNewest(rows', user, d, i);
    case None =>
      OnlyRowIsNewest(rows', user, d, |rows|);
  }

  lemma OnlyRowIsNewest(rows: seq<ProgressRow>, user: string, d: Day, i: nat)
    requires OneRowPerDay(rows)
    requires i < |rows| && IsKey(rows[i], user, d)
    ensures NewestRowFor(rows, user, d) == Some(rows[i])
  {
    var r := NewestRowFor(rows, user, d);
    var k :| 0 <= k < |rows| && rows[k] == r.value;
    assert k == i;
  }

  // ---------------------------------------------------------------------------
  // update_goal_progress and update_daily_nutrition_summary as table transitions.

  /** The table after `update_goal_progress(user, d, calories_consumed)`: unchanged
      without an active goal; otherwise the upsert of the given amount, or of the amount
      computed from the meals when none is given, with its remaining calories. */
  function ProgressAfterUpdate(goals: seq<Goal>, meals: seq<Meal>, mealFoods: seq<MealFood>,
                               rows: seq<ProgressRow>, user: string, d: Day,
                               caloriesConsumed: Option<real>, now: Seconds, newId: string): seq<ProgressRow>
  {
    match ActiveGoal(goals, user, d)
    case None => rows
    case Some(goal) =>
      var consumed := caloriesConsumed.GetOr(ConsumedOn(meals, mealFoods, user, d));
      Upserted(rows, user, d, goal.goalId, consumed, Remaining(goal.calorieTarget, consumed), now, newId)
  }

  /** Running `update_goal_progress` twice with the same arguments stores what running it
      once does (only the update time is the second run's). */
  lemma UpdateIsIdempotent(goals: seq<Goal>, meals: seq<Meal>, mealFoods: seq<MealFood>,
                           rows: seq<ProgressRow>, user: string, d: Day,
                           caloriesConsumed: Option<real>, now1: Seconds, now2: Seconds, newId: string)
    ensures ProgressAfterUpdate(goals, meals, mealFoods,
                                ProgressAfterUpdate(goals, meals, mealFoods, rows, user, d, caloriesConsumed, now1, newId),
                                user, d, caloriesConsumed, now2, newId)
         == ProgressAfterUpdate(goals, meals, mealFoods, rows, user, d, caloriesConsumed, now2, newId)
  {
    match ActiveGoal(goals, user, d)
    case None =>
    case Some(goal) =>
      var consumed := caloriesConsumed.GetOr(ConsumedOn(meals, mealFoods, user, d));
      UpsertIsIdempotent(rows, user, d, goal.goalId, consumed, Remaining(goal.calorieTarget, consumed), now1, now2, newId);
  }

  /** The meal `update_daily_nutrition_summary` acts for: the meal with that id, when it
      has a non-empty user. */
  function SummaryMeal(meals: seq<Meal>, mealId: string): Option<Meal>
  {
    match MealById(meals, mealId)
    case None => None
    case Some(m) => if m.userId == "" then None else Some(m)
  }

  /** The table after `update_daily_nutrition_summary(meal_id)`: the progress update for
      the meal's user and the date of its time, with the amount computed from the meals. */
  function ProgressAfterSummary(goals: seq<Goal>, meals: seq<Meal>, mealFoods: seq<MealFood>,
                                rows: seq<ProgressRow>, mealId: string, now: Seconds, newId: string): seq<ProgressRow>
  {
    match SummaryMeal(meals, mealId)
    case None => rows
    case Some(m) => ProgressAfterUpdate(goals, meals, mealFoods, rows, m.userId, DayOf(m.mealTime), None, now, newId)
  }

  /** After a food is added to a meal whose id is unique and whose owner has a goal that
      day, that day's report counts the food's calories. */
  lemma {:induction false} AddedFoodIsReported(goals: seq<Goal>, meals: seq<Meal>, mealFoods: seq<MealFood>,
                                               rows: seq<ProgressRow>, k: nat, food: FoodItem,
                                               quantity: real, now: Seconds, later: Seconds, newId: string)
    requires OneRowPerDay(rows)
    requires k < |meals| && meals[k].userId != ""
    requires forall j :: 0 <= j < |meals| && j != k ==> meals[j].mealId != meals[k].mealId
    requires ActiveGoal(goals, meals[k].userId, DayOf(meals[k].mealTime)).Some?
    ensures var m := meals[k];
      var mealFoods' := mealFoods + [Scaled(food, m.mealId, quantity)];
      var report := DailyView(goals, meals, mealFoods',
                              ProgressAfterSummary(goals, meals, mealFoods', rows, m.mealId, now, newId),
                              m.userId, DayOf(m.mealTime), later);
      report.Some? && report.value.consumed == ConsumedOn(meals, mealFoods, m.userId, DayOf(m.mealTime)) + food.calories * quantity
  {
    var m := meals[k];
    var d := DayOf(m.mealTime);
    var mealFoods' := mealFoods + [Scaled(food, m.mealId, quantity)];
    assert MealById(meals, m.mealId) == Some(m) by {
      var r := MealById(meals, m.mealId);
      var j :| 0 <= j < |meals| && meals[j] == r.value;
      assert j == k;
    }
    AddedFoodCounts(meals, mealFoods, k, food, quantity);
    var goal := ActiveGoal(goals, m.userId, d).value;
    DailyAfterUpsert(goals, meals, mealFoods', rows, m.userId, d, goal,
                     ConsumedOn(meals, mealFoods', m.userId, d), now, later, newId);
  }
}
