/** Calorie goals: which goal is active on a day, and the remaining-calories and
    percent-of-goal rules the progress functions apply. */
module Goals {
  import opened Basics

  /** A row of the CalorieGoals table; `endDate` is `None` for an open-ended goal and
      `createdAt` is the insertion time. */
  datatype Goal = Goal(goalId: string, userId: string, goalType: string, calorieTarget: int,
                       startDate: Day, endDate: Option<Day>, createdAt: Seconds)

  /** The filter of the goal query: the user's goal has started by `d` and not ended before it. */
  predicate Active(g: Goal, user: string, d: Day)
  {
    g.userId == user && g.startDate <= d && (g.endDate.None? || g.endDate.value >= d)
  }

  /** `get_user_nutrition_goals(user, d)`: of the goals active on `d`, the one created
      last; the query leaves the order of equal creation times open, and here the one
      stored later wins. */
  function ActiveGoal(goals: seq<Goal>, user: string, d: Day): (r: Option<Goal>)
    ensures r.Some? ==> r.value in goals && Active(r.value, user, d)
    ensures r.Some? ==> forall k :: 0 <= k < |goals| && Active(goals[k], user, d) ==>
                          goals[k].createdAt <= r.value.createdAt
    ensures r.None? <==> forall k :: 0 <= k < |goals| ==> !Active(goals[k], user, d)
  {
    if goals == [] then None
    else
      var front := goals[..|goals| - 1];
      var g := goals[|goals| - 1];
      var rest := ActiveGoal(front, user, d);
      assert forall k :: 0 <= k < |front| ==> front[k] == goals[k];
      if Active(g, user, d) && (rest.None? || rest.value.createdAt <= g.createdAt) then Some(g) else rest
  }

  /** A goal stored after every other one, created no earlier than any of them, is the
      active goal on every day it covers. */
  lemma NewestGoalWins(goals: seq<Goal>, g: Goal, d: Day)
    requires forall k :: 0 <= k < |goals| ==> goals[k].createdAt <= g.createdAt
    requires Active(g, g.userId, d)
    ensures ActiveGoal(goals + [g], g.userId, d) == Some(g)
  {
    assert (goals + [g])[..|goals|] == goals;
  }

  /** Adding a goal that does not cover `d`, or belongs to someone else, leaves the
      active goal on `d` as it was. */
  lemma OtherGoalsKeepActive(goals: seq<Goal>, g: Goal, user: string, d: Day)
    requires !Active(g, user, d)
    ensures ActiveGoal(goals + [g], user, d) == ActiveGoal(goals, user, d)
  {
    assert (goals + [g])[..|goals|] == goals;
  }

  /** `max(0, target - consumed)`. */
  function Remaining(target: int, consumed: real): (r: real)
    ensures r >= 0.0 && r + consumed >= target as real
    ensures r == 0.0 <==> consumed >= target as real
    ensures r > 0.0 ==> r + consumed == target as real
  {
    MaxReal(0.0, target as real - consumed)
  }

  /** `min(100, consumed / target * 100)` when the target is positive, else 0. */
  function Percent(consumed: real, target: int): (p: real)
    ensures p <= 100.0
    ensures target <= 0 ==> p == 0.0
    ensures consumed >= 0.0 ==> p >= 0.0
    ensures target > 0 ==> (p == 100.0 <==> consumed >= target as real)
    ensures target > 0 && p < 100.0 ==> p * target as real == consumed * 100.0
  {
    if target > 0 then MinReal(100.0, consumed / target as real * 100.0) else 0.0
  }

  /** With a positive target the goal is reached (100 percent) exactly when nothing remains. */
  lemma FullExactlyWhenNothingRemains(target: int, consumed: real)
    requires target > 0
    ensures Percent(consumed, target) == 100.0 <==> Remaining(target, consumed) == 0.0
  {
  }

  /** Eating more never lowers the percentage nor raises what remains. */
  lemma MoreConsumedIsMonotone(target: int, c1: real, c2: real)
    requires c1 <= c2
    ensures Percent(c1, target) <= Percent(c2, target)
    ensures Remaining(target, c2) <= Remaining(target, c1)
  {
    if target > 0 {
      var t := target as real;
      assert c1 / t <= c2 / t by {
        assert c2 / t - c1 / t == (c2 - c1) / t;
      }
      assert Percent(c1, target) == MinReal(100.0, c1 / t * 100.0);
      assert Percent(c2, target) == MinReal(100.0, c2 / t * 100.0);
    }
  }

  /** 1500 of 2000 calories is 75 percent with 500 left. */
  lemma DailyExample()
    ensures Percent(1500.0, 2000) == 75.0 && Remaining(2000, 1500.0) == 500.0
  {
  }
}
