/** `get_daily_water_summary`: one entry per day of a window of `days` days ending
    today, with that day's total intake and 0 on days without any. */
module WaterSummary {
  import opened Basics

  /** A row of the WaterIntake table: the date of `intake_time` and the amount. */
  datatype Intake = Intake(day: Day, amountMl: int)

  /** One entry of the summary. */
  datatype DayTotal = DayTotal(date: Day, totalMl: int)

  predicate HasIntakeOn(intake: seq<Intake>, d: Day)
  {
    exists k :: 0 <= k < |intake| && intake[k].day == d
  }

  /** The amount taken on day `d`, over all records of that day. */
  function IntakeOn(intake: seq<Intake>, d: Day): (total: int)
    ensures !HasIntakeOn(intake, d) ==> total == 0
  {
    if intake == [] then 0
    else
      var last := intake[|intake| - 1];
      var front := intake[..|intake| - 1];
      assert forall k :: 0 <= k < |front| ==> front[k] == intake[k];
      IntakeOn(front, d) + (if last.day == d then last.amountMl else 0)
  }

  /** The grouped query: for each day of `[lo, hi]` that has records, in ascending
      order, the day and the sum of its amounts. */
  function QueryRows(intake: seq<Intake>, lo: Day, hi: Day): seq<DayTotal>
    decreases hi - lo + 1
  {
    if lo > hi then []
    else
      (if HasIntakeOn(intake, lo) then [DayTotal(lo, IntakeOn(intake, lo))] else [])
      + QueryRows(intake, lo + 1, hi)
  }

  lemma {:induction false} QueryRowsFacts(intake: seq<Intake>, lo: Day, hi: Day)
    ensures forall r :: r in QueryRows(intake, lo, hi) ==> lo <= r.date <= hi && r.totalMl == IntakeOn(intake, r.date)
    ensures forall d :: lo <= d <= hi && HasIntakeOn(intake, d) ==> DayTotal(d, IntakeOn(intake, d)) in QueryRows(intake, lo, hi)
    decreases hi - lo + 1
  {
    if lo <= hi {
      QueryRowsFacts(intake, lo + 1, hi);
    }
  }

  /** `summary` lists the `days` days ending on `today`, oldest first, each with its
      total intake (0 on a day without records). */
  predicate IsWaterSummary(intake: seq<Intake>, today: Day, days: int, summary: seq<DayTotal>)
  {
    |summary| == Max(days, 0) &&
    forall i :: 0 <= i < |summary| ==>
      summary[i] == DayTotal(today - days + 1 + i, IntakeOn(intake, today - days + 1 + i))
  }

  /** `get_daily_water_summary(user_id, days)` on `today`, over the user's intake records. */
  method GetDailyWaterSummary(intake: seq<Intake>, today: Day, days: int) returns (summary: seq<DayTotal>)
    ensures IsWaterSummary(intake, today, days, summary)
  {
    var endDate := today;
    var startDate := today - (days - 1);
    var dailySummary := QueryRows(intake, startDate, endDate);
    QueryRowsFacts(intake, startDate, endDate);

    // the dictionary `all_dates`: its values, and its keys in insertion order
    var allDates: map<Day, int> := map[];
    var order: seq<Day> := [];
    var currentDate := startDate;
    while currentDate <= endDate
      invariant currentDate == startDate + |order|
      invariant order == [] || currentDate <= endDate + 1
      invariant forall k :: 0 <= k < |order| ==> order[k] == startDate + k
      invariant forall d :: d in allDates <==> startDate <= d < currentDate
      invariant forall d :: d in allDates ==> allDates[d] == 0
      decreases endDate - currentDate
    {
      allDates := allDates[currentDate := 0];
      order := order + [currentDate];
      currentDate := currentDate + 1;
    }
    assert |order| == Max(days, 0);

    for j := 0 to |dailySummary|
      invariant forall d :: d in allDates <==> startDate <= d <= endDate
      invariant forall d :: d in allDates ==> allDates[d] == 0 || allDates[d] == IntakeOn(intake, d)
      invariant forall k :: 0 <= k < j ==> allDates[dailySummary[k].date] == IntakeOn(intake, dailySummary[k].date)
    {
      var entry := dailySummary[j];
      assert entry in dailySummary;
      allDates := allDates[entry.date := entry.totalMl];
    }
    forall d | startDate <= d <= endDate
      ensures allDates[d] == IntakeOn(intake, d)
    {
      if HasIntakeOn(intake, d) {
        var k :| 0 <= k < |dailySummary| && dailySummary[k] == DayTotal(d, IntakeOn(intake, d));
      }
    }

    summary := [];
    for i := 0 to |order|
      invariant |summary| == i
      invariant forall k :: 0 <= k < i ==> summary[k] == DayTotal(order[k], allDates[order[k]])
    {
      summary := summary + [DayTotal(order[i], allDates[order[i]])];
    }
  }

  // ---------------------------------------------------------------------------
  // Nothing is lost: the summary's entries add up to every record in the window.

  function SumTotals(s: seq<DayTotal>): int
  {
    if s == [] then 0 else s[0].totalMl + SumTotals(s[1..])
  }

  /** The records whose day lies in `[lo, hi]`, summed. */
  function InWindowSum(intake: seq<Intake>, lo: Day, hi: Day): int
  {
    if intake == [] then 0
    else
      var last := intake[|intake| - 1];
      InWindowSum(intake[..|intake| - 1], lo, hi) + (if lo <= last.day <= hi then last.amountMl else 0)
  }

  /** The day-by-day totals of `[lo, hi]`, summed. */
  function DaysSum(intake: seq<Intake>, lo: Day, hi: Day): int
    decreases hi - lo + 1
  {
    if lo > hi then 0 else IntakeOn(intake, lo) + DaysSum(intake, lo + 1, hi)
  }

  lemma {:induction false} DaysSumNoRecords(lo: Day, hi: Day)
    ensures DaysSum([], lo, hi) == 0
    decreases hi - lo + 1
  {
    if lo <= hi {
      DaysSumNoRecords(lo + 1, hi);
    }
  }

  lemma {:induction false} DaysSumSnoc(intake: seq<Intake>, x: Intake, lo: Day, hi: Day)
    ensures DaysSum(intake + [x], lo, hi) == DaysSum(intake, lo, hi) + (if lo <= x.day <= hi then x.amountMl else 0)
    decreases hi - lo + 1
  {
    if lo <= hi {
      assert (intake + [x])[..|intake|] == intake;
      DaysSumSnoc(intake, x, lo + 1, hi);
    }
  }

  lemma {:induction false} DaysSumIsWindowSum(intake: seq<Intake>, lo: Day, hi: Day)
    ensures DaysSum(intake, lo, hi) == InWindowSum(intake, lo, hi)
  {
    if intake == [] {
      DaysSumNoRecords(lo, hi);
    } else {
      var front := intake[..|intake| - 1];
      DaysSumIsWindowSum(front, lo, hi);
      DaysSumSnoc(front, intake[|intake| - 1], lo, hi);
      assert front + [intake[|intake| - 1]] == intake;
    }
  }

  lemma {:induction false} SumTotalsOfDays(intake: seq<Intake>, lo: Day, s: seq<DayTotal>)
    requires forall i :: 0 <= i < |s| ==> s[i] == DayTotal(lo + i, IntakeOn(intake, lo + i))
    ensures SumTotals(s) == DaysSum(intake, lo, lo + |s| - 1)
    decreases |s|
  {
    if s != [] {
      SumTotalsOfDays(intake, lo + 1, s[1..]);
    }
  }

  /** The entries of a water summary add up to all intake recorded inside its window. */
  lemma SummaryKeepsEveryRecord(intake: seq<Intake>, today: Day, days: int, summary: seq<DayTotal>)
    requires IsWaterSummary(intake, today, days, summary)
    ensures SumTotals(summary) == InWindowSum(intake, today - days + 1, today)
  {
    SumTotalsOfDays(intake, today - days + 1, summary);
    DaysSumIsWindowSum(intake, today - days + 1, today);
  }
}
