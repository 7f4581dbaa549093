/** `get_badges` and `get_workout_stats`: achievement badges from streaks, the number of
    workouts and the step total. */
module Badges {
  import opened Basics
  import opened WorkoutData
  import opened Streak

  /** The quantity a badge threshold is compared with. */
  datatype Measure = Current | Longest | Count | Steps

  /** A badge: its name, the quantity it looks at and the least value that earns it. */
  datatype Rule = Rule(name: string, measure: Measure, threshold: int)

  /** How many badges there are. */
  const RuleCount: nat := 10

  /** The badges in the order they are checked. */
  function RuleAt(k: nat): Rule
    requires k < RuleCount
  {
    match k
    case 0 => Rule("3-Day Streak", Current, 3)
    case 1 => Rule("7-Day Streak", Current, 7)
    case 2 => Rule("14-Day Warrior", Longest, 14)
    case 3 => Rule("10 Workouts Complete", Count, 10)
    case 4 => Rule("50 Workouts Legend", Count, 50)
    case 5 => Rule("Walked a 5k", Steps, 7000)
    case 6 => Rule("Walked a 10k", Steps, 14000)
    case 7 => Rule("Walked a 15k", Steps, 21000)
    case 8 => Rule("Walked a Half-Marathon", Steps, 30000)
    case _ => Rule("Walked a Marathon", Steps, 60000)
  }

  /** The four quantities the badges look at. */
  datatype Progress = Progress(current: int, longest: int, count: int, steps: int)

  function ValueOf(m: Measure, p: Progress): int
  {
    match m
    case Current => p.current
    case Longest => p.longest
    case Count => p.count
    case Steps => p.steps
  }

  predicate Meets(r: Rule, p: Progress)
  {
    ValueOf(r.measure, p) >= r.threshold
  }

  /** The names of the first `n` badges whose thresholds `p` reaches, in badge order. */
  function EarnedUpTo(n: nat, p: Progress): seq<string>
    requires n <= RuleCount
  {
    if n == 0 then []
    else EarnedUpTo(n - 1, p) + (if Meets(RuleAt(n - 1), p) then [RuleAt(n - 1).name] else [])
  }

  /** Every badge `p` earns, in badge order. */
  function Earned(p: Progress): seq<string>
  {
    EarnedUpTo(RuleCount, p)
  }

  /** `get_badges(workouts, current_streak, longest_streak)`: the threshold checks in
      order, appending each badge whose check holds. `None` when a step count is `None`:
      the step sum then raises and the list is lost. */
  method GetBadges(workouts: seq<Workout>, currentStreak: int, longestStreak: int)
    returns (result: Option<seq<string>>)
    ensures result.None? <==> !StepsNumeric(workouts)
    ensures result.Some? ==>
      result.value == Earned(Progress(currentStreak, longestStreak, |workouts|, TotalSteps(workouts)))
  {
    ghost var p := Progress(currentStreak, longestStreak, |workouts|,
                            if StepsNumeric(workouts) then TotalSteps(workouts) else 0);
    var badges := [];
    if currentStreak >= 3 {
      badges := badges + ["3-Day Streak"];
    }
    assert badges == EarnedUpTo(1, p);
    if currentStreak >= 7 {
      badges := badges + ["7-Day Streak"];
    }
    assert badges == EarnedUpTo(2, p);
    if longestStreak >= 14 {
      badges := badges + ["14-Day Warrior"];
    }
    assert badges == EarnedUpTo(3, p);
    if |workouts| >= 10 {
      badges := badges + ["10 Workouts Complete"];
    }
    assert badges == EarnedUpTo(4, p);
    if |workouts| >= 50 {
      badges := badges + ["50 Workouts Legend"];
    }
    assert badges == EarnedUpTo(5, p);
    if !StepsNumeric(workouts) {
      return None;
    }
    var totalSteps := TotalSteps(workouts);
    if totalSteps >= 7000 {
      badges := badges + ["Walked a 5k"];
    }
    assert badges == EarnedUpTo(6, p);
    if totalSteps >= 14000 {
      badges := badges + ["Walked a 10k"];
    }
    assert badges == EarnedUpTo(7, p);
    if totalSteps >= 21000 {
      badges := badges + ["Walked a 15k"];
    }
    assert badges == EarnedUpTo(8, p);
    if totalSteps >= 30000 {
      badges := badges + ["Walked a Half-Marathon"];
    }
    assert badges == EarnedUpTo(9, p);
    if totalSteps >= 60000 {
      badges := badges + ["Walked a Marathon"];
    }
    assert badges == EarnedUpTo(10, p);
    result := Some(badges);
  }

  /** The dictionary `get_workout_stats` returns. */
  datatype WorkoutStats = WorkoutStats(currentStreak: nat, longestStreak: nat, badgeList: seq<string>,
                                       totalWorkouts: nat)

  /** `get_workout_stats(user_id)` over the user's workouts, on day `today`: `None` when
      `calculate_streak` or `get_badges` raises (an unparseable start, a `None` step count). */
  method GetWorkoutStats(workouts: seq<Workout>, today: Day) returns (stats: Option<WorkoutStats>)
    ensures stats.None? <==> !AllStartsParsed(workouts) || !StepsNumeric(workouts)
    ensures stats.Some? ==>
      var (current, longest) := StreakOf(StartDays(workouts), today);
      stats.value == WorkoutStats(current, longest,
                                  Earned(Progress(current, longest, |workouts|, TotalSteps(workouts))),
                                  |workouts|)
  {
    var streaks := CalculateStreak(workouts, today);
    if streaks.None? {
      return None;
    }
    var (current, longest) := streaks.value;
    var badges := GetBadges(workouts, current, longest);
    if badges.None? {
      return None;
    }
    stats := Some(WorkoutStats(current, longest, badges.value, |workouts|));
  }

  // ---------------------------------------------------------------------------

  /** No two badges share a name. */
  lemma NamesDistinct()
    ensures forall i, j :: 0 <= i < j < RuleCount ==> RuleAt(i).name != RuleAt(j).name
  {
  }

  /** A name none of the first `n` badges carries is never among them. */
  lemma {:induction false} UnknownNeverEarned(n: nat, p: Progress, b: string)
    requires n <= RuleCount
    requires forall k :: 0 <= k < n ==> RuleAt(k).name != b
    ensures b !in EarnedUpTo(n, p)
  {
    if n > 0 {
      UnknownNeverEarned(n - 1, p, b);
    }
  }

  lemma {:induction false} EarnedUpToIffMet(n: nat, p: Progress, i: nat)
    requires i < n <= RuleCount
    ensures RuleAt(i).name in EarnedUpTo(n, p) <==> Meets(RuleAt(i), p)
  {
    NamesDistinct();
    if i == n - 1 {
      UnknownNeverEarned(n - 1, p, RuleAt(i).name);
    } else {
      EarnedUpToIffMet(n - 1, p, i);
      assert RuleAt(n - 1).name != RuleAt(i).name;
    }
  }

  /** Each badge is awarded exactly when its quantity reaches its threshold. */
  lemma BadgeIffThreshold(p: Progress, i: nat)
    requires i < RuleCount
    ensures RuleAt(i).name in Earned(p) <==> ValueOf(RuleAt(i).measure, p) >= RuleAt(i).threshold
  {
    EarnedUpToIffMet(RuleCount, p, i);
  }

  /** Nothing but badge names is ever awarded. */
  lemma {:induction false} EarnedAreBadges(n: nat, p: Progress, b: string)
    requires n <= RuleCount && b in EarnedUpTo(n, p)
    ensures exists k :: 0 <= k < n && RuleAt(k).name == b
  {
    if b !in EarnedUpTo(n - 1, p) {
      assert RuleAt(n - 1).name == b;
    } else {
      EarnedAreBadges(n - 1, p, b);
    }
  }

  /** A 7-day streak badge always comes with the 3-day one. */
  lemma SevenDayImpliesThreeDay(p: Progress)
    ensures "7-Day Streak" in Earned(p) ==> "3-Day Streak" in Earned(p)
  {
    BadgeIffThreshold(p, 0);
    BadgeIffThreshold(p, 1);
  }

  /** `q` is at least `p` in every quantity. */
  predicate AtLeast(q: Progress, p: Progress)
  {
    q.current >= p.current && q.longest >= p.longest && q.count >= p.count && q.steps >= p.steps
  }

  /** Raising any of the quantities never takes a badge away. */
  lemma {:induction false} EarnedMonotone(n: nat, p: Progress, q: Progress)
    requires n <= RuleCount && AtLeast(q, p)
    ensures forall b :: b in EarnedUpTo(n, p) ==> b in EarnedUpTo(n, q)
  {
    if n > 0 {
      EarnedMonotone(n - 1, p, q);
      assert Meets(RuleAt(n - 1), p) ==> Meets(RuleAt(n - 1), q);
    }
  }

  /** Seven consecutive days up to today and no steps recorded (the `test_get_badges`
      case): exactly the two streak badges. */
  lemma SevenDayExample()
    ensures Earned(Progress(7, 7, 7, 0)) == ["3-Day Streak", "7-Day Streak"]
  {
  }

  /** Fifty workouts on fifty consecutive days (the `test_badge_for_50_workouts` case):
      the legend badge is among them. */
  lemma FiftyWorkoutsExample()
    ensures "50 Workouts Legend" in Earned(Progress(50, 50, 50, 0))
  {
    BadgeIffThreshold(Progress(50, 50, 50, 0), 4);
  }
}
