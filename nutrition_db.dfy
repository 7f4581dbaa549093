/** The goal, meal and progress tables as one in-memory store, with the operations of
    `data_fetcher.py` that write them. Points in time, the current date and new row ids
    are passed in. */
module NutritionStore {
  import opened Basics
  import opened Goals
  import opened NutritionRecords
  import opened WeeklyProgress

  class NutritionDb {
    var goals: seq<Goal>
    var foods: seq<FoodItem>
    var meals: seq<Meal>
    var mealFoods: seq<MealFood>
    var progress: seq<ProgressRow>

    constructor(goals0: seq<Goal>, foods0: seq<FoodItem>, meals0: seq<Meal>, mealFoods0: seq<MealFood>,
                progress0: seq<ProgressRow>)
      ensures goals == goals0 && foods == foods0 && meals == meals0
      ensures mealFoods == mealFoods0 && progress == progress0
    {
      goals := goals0;
      foods := foods0;
      meals := meals0;
      mealFoods := mealFoods0;
      progress := progress0;
    }

    /** `set_user_nutrition_goals`: stores a new goal starting on `startDate`, or today. */
    method SetUserNutritionGoals(user: string, calorieGoal: int, goalType: string, startDate: Option<Day>,
                                 endDate: Option<Day>, today: Day, now: Seconds, newGoalId: string)
      returns (ok: bool)
      modifies this`goals
      ensures ok
      ensures goals == old(goals) + [Goal(newGoalId, user, goalType, calorieGoal, startDate.GetOr(today), endDate, now)]
      ensures foods == old(foods) && meals == old(meals) && mealFoods == old(mealFoods) && progress == old(progress)
    {
      var start := if startDate.None? then today else startDate.value;
      goals := goals + [Goal(newGoalId, user, goalType, calorieGoal, start, endDate, now)];
      ok := true;
    }

    /** `add_meal`: stores a meal at `mealTime`, or now, and returns its id. */
    method AddMeal(user: string, mealType: string, mealName: Option<string>, mealTime: Option<Seconds>,
                   now: Seconds, newMealId: string)
      returns (mealId: Option<string>)
      modifies this`meals
      ensures mealId == Some(newMealId)
      ensures meals == old(meals) + [Meal(newMealId, user, mealType, mealName, mealTime.GetOr(now))]
      ensures goals == old(goals) && foods == old(foods) && mealFoods == old(mealFoods) && progress == old(progress)
    {
      var time := if mealTime.None? then now else mealTime.value;
      meals := meals + [Meal(newMealId, user, mealType, mealName, time)];
      mealId := Some(newMealId);
    }

    /** `update_goal_progress(user, d, calories_consumed)`: fails without an active goal;
        otherwise upserts the day's row. */
    method UpdateGoalProgress(user: string, d: Day, caloriesConsumed: Option<real>, now: Seconds,
                              newProgressId: string)
      returns (ok: bool)
      modifies this`progress
      ensures ok <==> ActiveGoal(goals, user, d).Some?
      ensures progress == ProgressAfterUpdate(goals, meals, mealFoods, old(progress), user, d,
                                              caloriesConsumed, now, newProgressId)
      ensures OneRowPerDay(old(progress)) ==> OneRowPerDay(progress)
    {
      var goal := ActiveGoal(goals, user, d);
      if goal.None? {
        return false;
      }
      var consumed := if caloriesConsumed.None? then ConsumedOn(meals, mealFoods, user, d) else caloriesConsumed.value;
      var remaining := Remaining(goal.value.calorieTarget, consumed);
      var existing := FirstRowFor(progress, user, d);
      if existing.Some? {
        var i := existing.value;
        progress := progress[i := progress[i].(consumed := Some(consumed), remaining := Some(remaining), updatedAt := now)];
      } else {
        progress := progress + [ProgressRow(newProgressId, goal.value.goalId, user, d, Some(consumed), Some(remaining), now)];
      }
      if OneRowPerDay(old(progress)) {
        UpsertKeepsOneRowPerDay(old(progress), user, d, goal.value.goalId, consumed, remaining, now, newProgressId);
      }
      ok := true;
    }

    /** `update_daily_nutrition_summary(meal_id)`: the progress update for the meal's user
        on the date of the meal; fails when the meal is unknown or has no user. */
    method UpdateDailyNutritionSummary(mealId: string, now: Seconds, newProgressId: string)
      returns (ok: bool)
      modifies this`progress
      ensures ok <==> SummaryMeal(meals, mealId).Some? &&
                      ActiveGoal(goals, SummaryMeal(meals, mealId).value.userId,
                                 DayOf(SummaryMeal(meals, mealId).value.mealTime)).Some?
      ensures progress == ProgressAfterSummary(goals, meals, mealFoods, old(progress), mealId, now, newProgressId)
      ensures OneRowPerDay(old(progress)) ==> OneRowPerDay(progress)
    {
      var meal := MealById(meals, mealId);
      if meal.None? || meal.value.userId == "" {
        return false;
      }
      ok := UpdateGoalProgress(meal.value.userId, DayOf(meal.value.mealTime), None, now, newProgressId);
    }

    /** `add_food_to_meal(meal_id, food_id, quantity)`: fails for an unknown food;
        otherwise stores the food scaled by the quantity and updates the meal's day,
        succeeding whatever that update reports. */
    method AddFoodToMeal(mealId: string, foodId: string, quantity: real, now: Seconds, newProgressId: string)
      returns (ok: bool)
      modifies this`mealFoods, this`progress
      ensures ok <==> FoodById(foods, foodId).Some?
      ensures !ok ==> mealFoods == old(mealFoods) && progress == old(progress)
      ensures ok ==> mealFoods == old(mealFoods) + [Scaled(FoodById(foods, foodId).value, mealId, quantity)]
      ensures ok ==> progress == ProgressAfterSummary(goals, meals, mealFoods, old(progress), mealId, now, newProgressId)
      ensures OneRowPerDay(old(progress)) ==> OneRowPerDay(progress)
      ensures goals == old(goals) && foods == old(foods) && meals == old(meals)
    {
      var foodItem := FoodById(foods, foodId);
      if foodItem.None? {
        return false;
      }
      mealFoods := mealFoods + [Scaled(foodItem.value, mealId, quantity)];
      var _ := UpdateDailyNutritionSummary(mealId, now, newProgressId);
      ok := true;
    }

    /** `get_daily_nutrition_progress(user, d)`: nothing without an active goal; the
        stored row as it is when the day has one; otherwise the amounts computed from the
        meals, which are stored as the day's row. */
    method GetDailyNutritionProgress(user: string, d: Day, now: Seconds, newProgressId: string)
      returns (result: Option<DailyProgress>)
      modifies this`progress
      ensures result == DailyView(goals, meals, mealFoods, old(progress), user, d, now)
      ensures progress == DailyRows(goals, meals, mealFoods, old(progress), user, d, now, newProgressId)
      ensures OneRowPerDay(old(progress)) ==> OneRowPerDay(progress)
    {
      var goal := ActiveGoal(goals, user, d);
      if goal.None? {
        return None;
      }
      var target := goal.value.calorieTarget;
      var existing := NewestRowFor(progress, user, d);
      if existing.Some? {
        var consumption := existing.value.consumed.GetOr(0.0);
        var remaining := existing.value.remaining.GetOr(0.0);
        return Some(DailyProgress(goal.value, d, consumption, remaining, Percent(consumption, target),
                                  existing.value.updatedAt));
      }
      var consumed := ConsumedOn(meals, mealFoods, user, d);
      var remaining := Remaining(target, consumed);
      progress := progress + [ProgressRow(newProgressId, goal.value.goalId, user, d, Some(consumed), Some(remaining), now)];
      result := Some(DailyProgress(goal.value, d, consumed, remaining, Percent(consumed, target), now));
    }

    /** `get_weekly_nutrition_progress(user, days)` on `today`: the stored rows of the
        window keyed by date, the days without a row but with a goal filled in through the
        daily progress (which stores them), then the report over the entries by date. */
    method GetWeeklyNutritionProgress(user: string, today: Day, days: int, now: Seconds, newProgressId: string)
      returns (result: Option<Weekly>)
      modifies this`progress
      ensures result == WeeklyView(WeekEntries(goals, meals, mealFoods, old(progress), user, today - (days - 1), today),
                                   ActiveGoal(goals, user, today))
      ensures progress == old(progress) + FilledRows(goals, meals, mealFoods, old(progress), user,
                                                     today - (days - 1), today, now, newProgressId)
      ensures OneRowPerDay(old(progress)) ==> OneRowPerDay(progress)
    {
      var endDate := today;
      var startDate := today - (days - 1);
      ghost var rows0 := progress;

      var dailyProgress := RowsByDate(progress, user, startDate, endDate);
      forall d | startDate <= d <= endDate
        ensures DayState(dailyProgress, goals, meals, mealFoods, rows0, user, startDate, d)
      {
      }

      dailyProgress := FillMissingDays(user, startDate, endDate, dailyProgress, now, newProgressId);

      if OneRowPerDay(rows0) {
        FilledRowsKeepOneRowPerDay(goals, meals, mealFoods, rows0, user, startDate, endDate, now, newProgressId);
      }
      ByDateOfEntries(goals, meals, mealFoods, rows0, user, dailyProgress, startDate, endDate, Max(startDate, endDate + 1));
      var dailyProgressList := ByDate(dailyProgress, startDate, endDate);
      var currentGoal := ActiveGoal(goals, user, today);
      result := WeeklyView(dailyProgressList, currentGoal);
    }

    /** The fill loop of `get_weekly_nutrition_progress`: each day of the window without
        an entry but with an active goal gets the entry the daily progress reports (and
        stores). */
    method FillMissingDays(user: string, startDate: Day, endDate: Day, stored: map<Day, WeekEntry>,
                           now: Seconds, newProgressId: string)
      returns (dailyProgress: map<Day, WeekEntry>)
      requires FillState(stored, goals, meals, mealFoods, progress, user, startDate, endDate, startDate)
      modifies this`progress
      ensures FillState(dailyProgress, goals, meals, mealFoods, old(progress), user, startDate, endDate,
                        Max(startDate, endDate + 1))
      ensures progress == old(progress) + FilledRows(goals, meals, mealFoods, old(progress), user,
                                                     startDate, endDate, now, newProgressId)
    {
      ghost var rows0 := progress;
      dailyProgress := stored;
      var currentDate := startDate;
      while currentDate <= endDate
        invariant startDate <= currentDate && (currentDate <= endDate + 1 || currentDate == startDate)
        invariant progress == rows0 + FilledRows(goals, meals, mealFoods, rows0, user, startDate, currentDate - 1,
                                                 now, newProgressId)
        invariant FillState(dailyProgress, goals, meals, mealFoods, rows0, user, startDate, endDate, currentDate)
        decreases endDate - currentDate
      {
        var before := dailyProgress;
        dailyProgress := FillDay(user, startDate, currentDate, rows0, dailyProgress, now, newProgressId);
        FillStateStep(before, dailyProgress, goals, meals, mealFoods, rows0, user, startDate, endDate, currentDate);
        currentDate := currentDate + 1;
      }

      if startDate > endDate {
        assert FilledRows(goals, meals, mealFoods, rows0, user, startDate, endDate, now, newProgressId) == [];
      }
    }

    /** One day of the fill loop of `get_weekly_nutrition_progress`. */
    method FillDay(user: string, startDate: Day, currentDate: Day, ghost rows0: seq<ProgressRow>,
                   stored: map<Day, WeekEntry>, now: Seconds, newProgressId: string)
      returns (dailyProgress: map<Day, WeekEntry>)
      requires startDate <= currentDate
      requires progress == rows0 + FilledRows(goals, meals, mealFoods, rows0, user, startDate, currentDate - 1,
                                              now, newProgressId)
      requires DayState(stored, goals, meals, mealFoods, rows0, user, currentDate, currentDate)
      modifies this`progress
      ensures progress == rows0 + FilledRows(goals, meals, mealFoods, rows0, user, startDate, currentDate,
                                             now, newProgressId)
      ensures DayFilled(stored, dailyProgress, goals, meals, mealFoods, rows0, user, currentDate)
    {
      dailyProgress := stored;
      FillStep(goals, meals, mealFoods, rows0, user, startDate, currentDate, now, newProgressId);
      if currentDate !in dailyProgress {
        var goal := ActiveGoal(goals, user, currentDate);
        if goal.Some? {
          var p := GetDailyNutritionProgress(user, currentDate, now, newProgressId);
          dailyProgress := dailyProgress[currentDate := WeekEntry(currentDate, Some(p.value.consumed),
                                                                  Some(p.value.remaining))];
        }
      }
    }

    /** The first loop of `get_weekly_nutrition_progress`: the user's rows of the window
        keyed by date, a later row replacing an earlier one. */
    static method RowsByDate(rows: seq<ProgressRow>, user: string, startDate: Day, endDate: Day)
      returns (byDate: map<Day, WeekEntry>)
      ensures forall d :: d in byDate <==> startDate <= d <= endDate && LastRowFor(rows, user, d).Some?
      ensures forall d :: d in byDate ==>
        byDate[d] == WeekEntry(d, LastRowFor(rows, user, d).value.consumed, LastRowFor(rows, user, d).value.remaining)
    {
      byDate := map[];
      for i := 0 to |rows|
        invariant forall d :: d in byDate <==> startDate <= d <= endDate && LastRowFor(rows[..i], user, d).Some?
        invariant forall d :: d in byDate ==>
          byDate[d] == WeekEntry(d, LastRowFor(rows[..i], user, d).value.consumed,
                                 LastRowFor(rows[..i], user, d).value.remaining)
      {
        var row := rows[i];
        assert rows[..i + 1][..i] == rows[..i];
        if row.userId == user && startDate <= row.date <= endDate {
          byDate := byDate[row.date := WeekEntry(row.date, row.consumed, row.remaining)];
        }
      }
      assert rows[..|rows|] == rows;
    }
  }
}
