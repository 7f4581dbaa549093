/** The water intake page (`water_page.py`): today's total and its percentage of the
    recommended 2000 ml, and the weekly statistics and hydration tip. */
module WaterPage {
  import opened Basics
  import opened WaterSummary

  /** `RECOMMENDED_DAILY_INTAKE`, in ml. */
  const RecommendedMl: int := 2000

  // ---------------------------------------------------------------------------
  // Today's intake

  /** `sum(record['amount_ml'] for record in today_intake)`. */
  function TodayTotal(amounts: seq<int>): int
  {
    if amounts == [] then 0 else TodayTotal(amounts[..|amounts| - 1]) + amounts[|amounts| - 1]
  }

  /** `min(100, int(total_ml / 2000 * 100))`, computed on exact reals. Python computes the
      quotient and the product in binary floating point, where the product can fall just
      below a whole number (580 ml gives 28.999999999999996, so 28 where this gives 29). */
  function TodayPercent(totalMl: int): int
  {
    Min(100, Trunc(totalMl as real / RecommendedMl as real * 100.0))
  }

  /** For a non-negative total the percentage is the whole number of 20 ml steps, capped at
      100: it lies in [0, 100] and reaches 100 exactly at the recommended amount. This holds
      over exact reals; in floating point a few totals land one step lower. */
  lemma TodayPercentInSteps(totalMl: int)
    requires totalMl >= 0
    ensures TodayPercent(totalMl) == Min(100, totalMl / 20)
    ensures 0 <= TodayPercent(totalMl) <= 100
    ensures TodayPercent(totalMl) == 100 <==> totalMl >= RecommendedMl
  {
    var x := totalMl as real / RecommendedMl as real * 100.0;
    assert x == totalMl as real / 20.0;
    var q := totalMl / 20;
    assert totalMl == q * 20 + totalMl % 20;
    assert q as real <= x < q as real + 1.0;
    assert x.Floor == q;
  }

  /** What today's tab shows: the total, the percentage, the bar and whether there is a log
      to list (otherwise a notice). */
  datatype TodayView = TodayView(totalMl: int, percent: int, bar: real, hasLog: bool)

  /** `display_todays_intake` over the amounts of today's records. */
  function TodaysIntake(amounts: seq<int>): (v: TodayView)
    ensures v.totalMl == TodayTotal(amounts) && v.percent == TodayPercent(v.totalMl)
    ensures v.bar * 100.0 == v.percent as real
    ensures v.hasLog <==> amounts != []
  {
    var total := TodayTotal(amounts);
    var percent := TodayPercent(total);
    TodayView(total, percent, percent as real / 100.0, amounts != [])
  }

  /** With no negative amounts, the bar of today's tab lies in [0, 1]. */
  lemma {:induction false} TodayBarInRange(amounts: seq<int>)
    requires forall k :: 0 <= k < |amounts| ==> amounts[k] >= 0
    ensures TodayTotal(amounts) >= 0
    ensures 0.0 <= TodaysIntake(amounts).bar <= 1.0
  {
    if amounts != [] {
      TodayBarInRange(amounts[..|amounts| - 1]);
    }
    TodayPercentInSteps(TodayTotal(amounts));
  }

  // ---------------------------------------------------------------------------
  // Weekly summary

  /** `sum(1 for item in summary_data if item['total_ml'] >= 2000)`. */
  function DaysMet(s: seq<DayTotal>): (n: nat)
    ensures n <= |s|
  {
    if s == [] then 0 else (if s[0].totalMl >= RecommendedMl then 1 else 0) + DaysMet(s[1..])
  }

  /** Every day meeting the target means at least the target on each of them. */
  lemma {:induction false} AllDaysMetBoundsTotal(s: seq<DayTotal>)
    requires DaysMet(s) == |s|
    ensures SumTotals(s) >= RecommendedMl * |s|
  {
    if s != [] {
      AllDaysMetBoundsTotal(s[1..]);
    }
  }

  /** The hydration tips tier. */
  datatype Tip = DrinkMore | DoingOkay | GreatJob

  /** Below 60 percent of the recommendation a warning, below it an encouragement,
      otherwise praise. */
  function TipFor(avgMl: real): Tip
  {
    if avgMl < RecommendedMl as real * 0.6 then DrinkMore
    else if avgMl < RecommendedMl as real then DoingOkay
    else GreatJob
  }

  /** What the weekly tab shows: a notice without data, otherwise the week total, the daily
      average (over seven days whatever the number of entries) and its whole part, the days
      that met the target and the tip. */
  datatype WeeklyView =
    | NoWaterData
    | WeeklyStats(totalMl: int, avgMl: real, avgShown: int, daysMet: nat, tip: Tip)

  /** `display_weekly_summary` over what `get_daily_water_summary(user_id, days=7)` returned. */
  function WeeklySummary(summary: seq<DayTotal>): (v: WeeklyView)
    ensures summary == [] <==> v == NoWaterData
    ensures v.WeeklyStats? ==>
      v.totalMl == SumTotals(summary) && v.avgMl * 7.0 == v.totalMl as real &&
      v.avgShown == Trunc(v.avgMl) && v.daysMet == DaysMet(summary) && v.daysMet <= |summary| &&
      v.tip == TipFor(v.avgMl)
  {
    if summary == [] then NoWaterData
    else
      var total := SumTotals(summary);
      var avg := total as real / 7.0;
      WeeklyStats(total, avg, Trunc(avg), DaysMet(summary), TipFor(avg))
  }

  /** A week in which every one of seven days met the target earns the praise. */
  lemma FullWeekIsGreat(summary: seq<DayTotal>)
    requires |summary| == 7 && DaysMet(summary) == 7
    ensures WeeklySummary(summary).tip == GreatJob
  {
    AllDaysMetBoundsTotal(summary);
  }

  /** The summary of seven days always has seven entries, so the weekly tab always shows its
      statistics: the notice for a missing summary is never reached. */
  lemma WeekAlwaysHasStats(intake: seq<Intake>, today: Day, summary: seq<DayTotal>)
    requires IsWaterSummary(intake, today, 7, summary)
    ensures WeeklySummary(summary).WeeklyStats?
    ensures WeeklySummary(summary).daysMet <= 7
  {
  }

  /** The tip tiers split at 1200 ml and 2000 ml of daily average, that is at 8400 ml and
      14000 ml over the week. */
  lemma TipThresholds(summary: seq<DayTotal>)
    requires summary != []
    ensures WeeklySummary(summary).tip == DrinkMore <==> SumTotals(summary) < 8400
    ensures WeeklySummary(summary).tip == GreatJob <==> SumTotals(summary) >= 14000
  {
  }
}
