/** The nutrition goals tracker page (`nutrition_goals_tracker.py`): the status tier and
    progress bar of a day, the weekly averages and the per-day percentages, and the early
    returns when there is no goal or no data. */
module GoalsTracker {
  import opened Basics
  import opened Goals
  import opened NutritionRecords
  import opened WeeklyProgress

  /** The status tiers of a day, from the percentage of the goal reached. */
  datatype Status = OverGoal | OnTarget | GoodProgress | InProgress

  /** The if/elif chain of `display_daily_progress`: above 100 over the goal, above 90 on
      target, above 70 good progress, otherwise in progress. */
  function StatusOf(percent: real): Status
  {
    if percent > 100.0 then OverGoal
    else if percent > 90.0 then OnTarget
    else if percent > 70.0 then GoodProgress
    else InProgress
  }

  /** The tiers in increasing order. */
  function Rank(s: Status): nat
  {
    match s
    case InProgress => 0
    case GoodProgress => 1
    case OnTarget => 2
    case OverGoal => 3
  }

  /** A higher percentage never shows a lower tier. */
  lemma StatusIsMonotone(p1: real, p2: real)
    requires p1 <= p2
    ensures Rank(StatusOf(p1)) <= Rank(StatusOf(p2))
  {
  }

  /** The tier is "Over Goal" exactly above 100 percent. */
  lemma OverGoalExactlyAbove100(percent: real)
    ensures StatusOf(percent) == OverGoal <==> percent > 100.0
  {
  }

  /** The argument of `st.progress`: the percentage as a fraction, or 1 above 100. */
  function BarValue(percent: real): (v: real)
    ensures percent >= 0.0 ==> 0.0 <= v <= 1.0
    ensures percent <= 100.0 ==> v * 100.0 == percent
    ensures percent > 100.0 ==> v == 1.0
  {
    if percent <= 100.0 then percent / 100.0 else 1.0
  }

  // ---------------------------------------------------------------------------
  // Daily tab

  /** What the daily tab shows: a notice without data, otherwise the whole calories consumed,
      the percent label, the whole calories remaining, the status and the bar. */
  datatype DailyPanel =
    | NoDailyData
    | DailyPanel(consumedKcal: int, percentLabel: int, remainingKcal: int, status: Status, bar: real)

  /** `display_daily_progress` over what `get_daily_nutrition_progress` returned. */
  function DailyPanelOf(progress: Option<DailyProgress>): (p: DailyPanel)
    ensures progress.None? <==> p == NoDailyData
    ensures p.DailyPanel? ==>
      var pr := progress.value;
      p.status == StatusOf(pr.percent) && p.bar == BarValue(pr.percent) &&
      p.consumedKcal == Trunc(pr.consumed) && p.remainingKcal == Trunc(pr.remaining) &&
      (pr.percent > 0.0 ==> p.percentLabel == Trunc(pr.percent)) &&
      (pr.percent <= 0.0 ==> p.percentLabel == 0)
  {
    match progress
    case None => NoDailyData
    case Some(pr) =>
      DailyPanel(Trunc(pr.consumed), if pr.percent > 0.0 then Trunc(pr.percent) else 0,
                 Trunc(pr.remaining), StatusOf(pr.percent), BarValue(pr.percent))
  }

  /** The percentage a day's report carries is capped at 100, so the tracker never shows
      "Over Goal", and its bar always lies in [0, 1] when nothing negative was eaten. */
  lemma OverGoalNeverShown(goals: seq<Goal>, meals: seq<Meal>, mealFoods: seq<MealFood>,
                           rows: seq<ProgressRow>, user: string, d: Day, now: Seconds)
    ensures var p := DailyPanelOf(DailyView(goals, meals, mealFoods, rows, user, d, now));
      p.DailyPanel? ==> p.status != OverGoal && p.bar <= 1.0
  {
  }

  /** 1500 of 2000 calories: 75 percent, "Good Progress", the bar at three quarters. */
  lemma DailyTrackerExample(goal: Goal, d: Day, now: Seconds)
    requires goal.calorieTarget == 2000
    ensures DailyPanelOf(Some(DailyProgress(goal, d, 1500.0, 500.0, Percent(1500.0, 2000), now)))
         == DailyPanel(1500, 75, 500, GoodProgress, 0.75)
  {
    DailyExample();
  }

  // ---------------------------------------------------------------------------
  // Weekly tab

  /** `(df['calories'] / df['target'] * 100).clip(upper=100)` for one day. A missing amount
      and the quotients that are not finite numbers (0/0, a negative amount over 0) give no
      value; a positive amount over a zero target is infinite and clipped to 100. */
  function DayPercent(calories: Option<real>, target: int): (p: Option<real>)
    ensures p.Some? ==> p.value <= 100.0
    ensures calories.Some? && calories.value >= 0.0 && target > 0 ==> p.Some? && p.value >= 0.0
  {
    match calories
    case None => None
    case Some(c) =>
      if target != 0 then Some(MinReal(100.0, c / target as real * 100.0))
      else if c > 0.0 then Some(100.0)
      else None
  }

  /** With a positive target, the chart's clipped percentage is the percentage the data
      layer reports for the same amount. */
  lemma DayPercentIsPercent(c: real, target: int)
    requires target > 0
    ensures DayPercent(Some(c), target) == Some(Percent(c, target))
  {
  }

  function DayPercents(es: seq<WeekEntry>, target: int): (ps: seq<Option<real>>)
    ensures |ps| == |es|
    ensures forall i :: 0 <= i < |es| ==> ps[i] == DayPercent(es[i].consumed, target)
  {
    if es == [] then [] else DayPercents(es[..|es| - 1], target) + [DayPercent(es[|es| - 1].consumed, target)]
  }

  /** What the weekly tab shows: a notice without data, otherwise the whole average
      calories, their percentage of the goal (absent without a positive target), the whole
      average remaining and each day's clipped percentage. */
  datatype WeeklyPanel =
    | NoWeeklyData
    | WeeklyPanel(avgKcal: int, goalPercent: Option<int>, avgRemainingKcal: int, dayPercents: seq<Option<real>>)

  /** `display_weekly_trends` over what `get_weekly_nutrition_progress` returned, against
      the target of the goal the page was given. */
  function WeeklyPanelOf(weekly: Option<Weekly>, goal: Goal): (p: WeeklyPanel)
    ensures weekly.None? || weekly.value.daily == [] <==> p == NoWeeklyData
    ensures p.WeeklyPanel? ==>
      var w := weekly.value;
      p.avgKcal == Trunc(w.avgCalories) && p.avgRemainingKcal == Trunc(w.avgRemaining) &&
      (p.goalPercent.Some? <==> goal.calorieTarget > 0) &&
      (p.goalPercent.Some? ==> p.goalPercent.value == Trunc(w.avgCalories / goal.calorieTarget as real * 100.0)) &&
      |p.dayPercents| == |w.daily| &&
      forall i :: 0 <= i < |w.daily| ==> p.dayPercents[i] == DayPercent(w.daily[i].consumed, goal.calorieTarget)
  {
    if weekly.None? || weekly.value.daily == [] then NoWeeklyData
    else
      var w := weekly.value;
      var target := goal.calorieTarget;
      WeeklyPanel(Trunc(w.avgCalories),
                  if target > 0 then Some(Trunc(w.avgCalories / target as real * 100.0)) else None,
                  Trunc(w.avgRemaining), DayPercents(w.daily, target))
  }

  // ---------------------------------------------------------------------------
  // The page

  /** The page: a warning and nothing else without a goal, otherwise both tabs. */
  datatype TrackerView = NoGoals | Tabs(daily: DailyPanel, weekly: WeeklyPanel)

  /** `show`: `goal` is what `get_user_nutrition_goals` returned, `daily` and `weekly` what
      the two tabs fetch. */
  function TrackerPage(goal: Option<Goal>, daily: Option<DailyProgress>, weekly: Option<Weekly>): (v: TrackerView)
    ensures goal.None? <==> v == NoGoals
    ensures v.Tabs? ==> v.daily == DailyPanelOf(daily) && v.weekly == WeeklyPanelOf(weekly, goal.value)
  {
    match goal
    case None => NoGoals
    case Some(g) => Tabs(DailyPanelOf(daily), WeeklyPanelOf(weekly, g))
  }
}
