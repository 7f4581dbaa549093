/** The nutrition overview page (`nutrition_overview.py`): the calories eaten against the
    goal, and the water cups counter kept in the session, bounded between 0 and 8. */
module NutritionOverview {
  import opened Basics
  import opened Goals

  const CupsGoal: int := 8
  const InitialCups: int := 4

  /** A click of one of the counter's buttons in a run of the page. */
  datatype Click = NoClick | Minus | Plus

  /** The counter after a click: "➖" takes a cup away unless there are none, "➕" adds one
      unless all eight are drunk. */
  function CupsAfter(cups: int, click: Click): int
  {
    match click
    case Minus => if cups > 0 then cups - 1 else cups
    case Plus => if cups < CupsGoal then cups + 1 else cups
    case NoClick => cups
  }

  /** The counter after a sequence of runs, starting from an absent key. */
  function CupsAfterAll(clicks: seq<Click>): int
  {
    if clicks == [] then InitialCups else CupsAfter(CupsAfterAll(clicks[..|clicks| - 1]), clicks[|clicks| - 1])
  }

  /** Whatever the clicks, the counter stays between 0 and 8, and a click moves it by at
      most one cup. */
  lemma {:induction false} CupsStayInRange(clicks: seq<Click>)
    ensures 0 <= CupsAfterAll(clicks) <= CupsGoal
    ensures clicks != [] ==> -1 <= CupsAfterAll(clicks) - CupsAfterAll(clicks[..|clicks| - 1]) <= 1
  {
    if clicks != [] {
      CupsStayInRange(clicks[..|clicks| - 1]);
    }
  }

  /** `int((cups / 8) * 100)`. */
  function CupsPercent(cups: int): int
  {
    Trunc(cups as real / CupsGoal as real * 100.0)
  }

  /** Each cup is 12.5 percent, rounded down: within range the percentage lies in
      [0, 100], and is 100 exactly when all eight cups are drunk. */
  lemma CupsPercentInRange(cups: int)
    requires 0 <= cups <= CupsGoal
    ensures CupsPercent(cups) == cups * 25 / 2
    ensures 0 <= CupsPercent(cups) <= 100
    ensures CupsPercent(cups) == 100 <==> cups == CupsGoal
  {
    var x := cups as real / CupsGoal as real * 100.0;
    assert x == (cups * 25) as real / 2.0;
    var q := cups * 25 / 2;
    assert cups * 25 == q * 2 + cups * 25 % 2;
    assert q as real <= x < q as real + 1.0;
  }

  /** The sum of the meals' `calories`. */
  function TotalCalories(calories: seq<real>): real
  {
    if calories == [] then 0.0 else TotalCalories(calories[..|calories| - 1]) + calories[|calories| - 1]
  }

  /** The calories of two lists of meals together are the sum of their calories. */
  lemma {:induction false} TotalCaloriesAppend(a: seq<real>, b: seq<real>)
    ensures TotalCalories(a + b) == TotalCalories(a) + TotalCalories(b)
    decreases |b|
  {
    if b == [] {
      assert a + b == a;
    } else {
      assert (a + b)[..|a + b| - 1] == a + b[..|b| - 1];
      TotalCaloriesAppend(a, b[..|b| - 1]);
    }
  }

  /** The loop adding up the meals' calories. */
  method SumCalories(calories: seq<real>) returns (total: real)
    ensures total == TotalCalories(calories)
  {
    total := 0.0;
    for i := 0 to |calories|
      invariant total == TotalCalories(calories[..i])
    {
      assert calories[..i + 1][..i] == calories[..i];
      total := total + calories[i];
    }
    assert calories[..|calories|] == calories;
  }

  /** Both wedges of the donut chart, the calories eaten and the calories left, are
      non-negative; `ax.pie` raises on a negative wedge. */
  predicate ChartDrawable(consumed: real, target: int)
  {
    consumed >= 0.0 && target as real - consumed >= 0.0
  }

  /** What a run of the page shows: a warning without a goal; the run stopped by the chart
      raising, before the counter; otherwise the calories eaten, the target and, unless a
      "➖" click restarted the run before it was drawn, the cups bar's percentage. */
  datatype OverviewView =
    | NoGoalSet
    | ChartFailed
    | Overview(consumed: real, target: int, cupsPercent: Option<int>)

  /** The page's key `cups` of `st.session_state`; an absent key is `None`. */
  class OverviewSession {
    var cups: Option<int>

    /** The counter, once set, stays between 0 and 8. */
    predicate Valid()
      reads this
    {
      cups.Some? ==> 0 <= cups.value <= CupsGoal
    }

    constructor()
      ensures cups == None && Valid()
    {
      cups := None;
    }

    /** One run of `show`: `goal` is the user's current goal, `calories` the calories of
        the user's meals and `click` the counter button pressed. When more calories were
        eaten than the target allows, the chart raises and the run ends with the counter
        untouched. */
    method Show(goal: Option<Goal>, calories: seq<real>, click: Click) returns (view: OverviewView)
      requires Valid()
      modifies this`cups
      ensures Valid()
      ensures goal.None? <==> view == NoGoalSet
      ensures view == ChartFailed <==>
                goal.Some? && !ChartDrawable(TotalCalories(calories), goal.value.calorieTarget)
      ensures !view.Overview? ==> cups == old(cups)
      ensures view.Overview? ==> cups == Some(CupsAfter(old(cups).GetOr(InitialCups), click))
      ensures view.Overview? ==> view.consumed == TotalCalories(calories) && view.target == goal.value.calorieTarget
      ensures view.Overview? ==>
        (view.cupsPercent.None? <==> click == Minus && old(cups).GetOr(InitialCups) > 0)
      ensures view.Overview? && view.cupsPercent.Some? ==>
        view.cupsPercent.value == CupsPercent(old(cups).GetOr(InitialCups))
    {
      if goal.None? {
        return NoGoalSet;
      }
      var consumed := SumCalories(calories);
      if consumed < 0.0 || goal.value.calorieTarget as real - consumed < 0.0 {
        return ChartFailed;
      }
      if cups.None? {
        cups := Some(InitialCups);
      }
      if click == Minus && cups.value > 0 {
        cups := Some(cups.value - 1);
        return Overview(consumed, goal.value.calorieTarget, None);
      }
      var percent := CupsPercent(cups.value);
      if click == Plus && cups.value < CupsGoal {
        cups := Some(cups.value + 1);
      }
      view := Overview(consumed, goal.value.calorieTarget, Some(percent));
    }
  }
}
