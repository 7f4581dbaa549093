/** The goal setting page (`set_goals.py`): the form's defaults from the current goal, the
    widgets that refuse a default outside their bounds, the end-date validation and the call
    that saves the goal. */
module SetGoals {
  import opened Basics
  import opened Goals

  const DefaultCalories: int := 2000
  const DefaultGoalType: string := "daily"
  const DefaultSpanDays: int := 30

  /** The bounds of the calorie input. */
  const MinCalories: int := 1000
  const MaxCalories: int := 5000

  /** How far back the start date input reaches. */
  const EarliestStartDays: int := 30

  /** The goal types the form offers, in order. */
  const GoalTypes: seq<string> := ["daily", "weekly", "monthly"]

  /** What the form starts from. */
  datatype Defaults = Defaults(calories: int, goalType: string, start: Day, end: Option<Day>)

  /** The defaults: the current goal's values (the goal record always carries all four
      keys, so the `.get` fallbacks do not apply), else 2000 kcal, "daily", today and no
      end date. */
  function DefaultsFor(current: Option<Goal>, today: Day): (d: Defaults)
    ensures current.None? ==> d == Defaults(DefaultCalories, DefaultGoalType, today, None)
    ensures current.Some? ==>
      d.calories == current.value.calorieTarget && d.goalType == current.value.goalType &&
      d.start == current.value.startDate && d.end == current.value.endDate
  {
    match current
    case None => Defaults(DefaultCalories, DefaultGoalType, today, None)
    case Some(g) => Defaults(g.calorieTarget, g.goalType, g.startDate, g.endDate)
  }

  /** `["daily", "weekly", "monthly"].index(t)`, which raises for any other type. */
  function GoalTypeIndex(t: string): (i: Option<nat>)
    ensures i.Some? <==> t in GoalTypes
    ensures i.Some? ==> i.value < |GoalTypes| && GoalTypes[i.value] == t
  {
    if t == GoalTypes[0] then Some(0)
    else if t == GoalTypes[1] then Some(1)
    else if t == GoalTypes[2] then Some(2)
    else None
  }

  /** The end date the end-date input starts at: the default end date, else 30 days after
      the chosen start. */
  function EndDateDefault(d: Defaults, start: Day): (e: Day)
    ensures d.end.Some? ==> e == d.end.value
    ensures d.end.None? ==> e == start + DefaultSpanDays
  {
    d.end.GetOr(start + DefaultSpanDays)
  }

  /** What the user submits: the values of the widgets, and whether "Save" was pressed. */
  datatype FormInput = FormInput(calories: int, goalType: string, start: Day, hasEndDate: bool,
                                 endDate: Day, savePressed: bool)

  /** The form as it first appears, with every widget at its default and "Save" pressed. */
  function UntouchedForm(d: Defaults): FormInput
  {
    FormInput(d.calories, d.goalType, d.start, d.end.Some?, EndDateDefault(d, d.start), true)
  }

  /** The arguments of `set_user_nutrition_goals`. */
  datatype SaveCall = SaveCall(userId: string, calories: int, goalType: string, start: Day, end: Option<Day>)

  /** Streamlit refuses a widget whose default value lies outside its bounds: the calorie
      input takes 1000 to 5000. */
  predicate CalorieDefaultFits(d: Defaults)
  {
    MinCalories <= d.calories <= MaxCalories
  }

  /** The start date input reaches back 30 days from today, and the end date input, drawn
      only when the box is ticked, starts no earlier than the chosen start. */
  predicate DateDefaultsFit(d: Defaults, today: Day, input: FormInput)
  {
    d.start >= today - EarliestStartDays &&
    (input.hasEndDate ==> EndDateDefault(d, input.start) >= input.start)
  }

  /** Every widget accepts its default, so the whole form is drawn. */
  predicate FormRenders(d: Defaults, today: Day, input: FormInput)
  {
    CalorieDefaultFits(d) && d.goalType in GoalTypes && DateDefaultsFit(d, today, input)
  }

  /** The outcomes of a run of the page: a widget's default lies outside its bounds (the
      page fails), the default type is not one the form offers (the page fails), the end
      date precedes the start (an error, nothing saved), "Save" not pressed, or the goal
      saved with the given call. */
  datatype Outcome = DefaultOutOfRange | UnknownGoalType | EndBeforeStart | NotSaved | Saved(call: SaveCall)

  /** `show`: `current` is the user's current goal and `today` the current date. The
      widgets are drawn in order: the calorie input, the type selector, the start date and,
      when the box is ticked, the end date; the first that fails stops the page. */
  function SetGoalsPage(userId: string, current: Option<Goal>, today: Day, input: FormInput): (r: Outcome)
    ensures r == DefaultOutOfRange <==>
      !CalorieDefaultFits(DefaultsFor(current, today)) ||
      (DefaultsFor(current, today).goalType in GoalTypes && !DateDefaultsFit(DefaultsFor(current, today), today, input))
    ensures r == UnknownGoalType <==>
      CalorieDefaultFits(DefaultsFor(current, today)) && DefaultsFor(current, today).goalType !in GoalTypes
    ensures r == EndBeforeStart <==>
      FormRenders(DefaultsFor(current, today), today, input) && input.hasEndDate && input.endDate < input.start
    ensures r.Saved? ==>
      input.savePressed &&
      r.call == SaveCall(userId, input.calories, input.goalType, input.start,
                         if input.hasEndDate then Some(input.endDate) else None)
    ensures r == NotSaved <==>
      FormRenders(DefaultsFor(current, today), today, input) &&
      !(input.hasEndDate && input.endDate < input.start) && !input.savePressed
  {
    var d := DefaultsFor(current, today);
    if !CalorieDefaultFits(d) then DefaultOutOfRange
    else if GoalTypeIndex(d.goalType).None? then UnknownGoalType
    else if !DateDefaultsFit(d, today, input) then DefaultOutOfRange
    else
      var end := if input.hasEndDate then Some(input.endDate) else None;
      if input.hasEndDate && input.endDate < input.start then EndBeforeStart
      else if input.savePressed then Saved(SaveCall(userId, input.calories, input.goalType, input.start, end))
      else NotSaved
  }

  /** A saved goal never ends before it starts, so the goal it creates is active on its own
      start date. */
  lemma SavedGoalIsActiveFromStart(userId: string, current: Option<Goal>, today: Day, input: FormInput,
                                   goalId: string, createdAt: Seconds)
    requires SetGoalsPage(userId, current, today, input).Saved?
    ensures var c := SetGoalsPage(userId, current, today, input).call;
      Active(Goal(goalId, c.userId, c.goalType, c.calories, c.start, c.end, createdAt), userId, c.start)
  {
  }

  /** Saving the untouched form of a user without a goal creates a 2000 kcal daily goal
      from today with no end date. */
  lemma FirstGoalDefaults(userId: string, today: Day)
    ensures SetGoalsPage(userId, None, today, UntouchedForm(DefaultsFor(None, today)))
         == Saved(SaveCall(userId, DefaultCalories, DefaultGoalType, today, None))
  {
  }

  /** Saving the untouched form over a current goal of a known type, with a target the
      calorie input accepts, a start at most 30 days back and an end that does not precede
      its start, saves that goal's own values again. */
  lemma UntouchedFormKeepsGoal(userId: string, g: Goal, today: Day)
    requires g.goalType in GoalTypes
    requires MinCalories <= g.calorieTarget <= MaxCalories
    requires g.startDate >= today - EarliestStartDays
    requires g.endDate.None? || g.endDate.value >= g.startDate
    ensures SetGoalsPage(userId, Some(g), today, UntouchedForm(DefaultsFor(Some(g), today)))
         == Saved(SaveCall(userId, g.calorieTarget, g.goalType, g.startDate, g.endDate))
  {
  }

  /** A returning user whose current goal started more than 30 days ago cannot open the
      page at all, whatever they would enter, as long as the target fits the calorie input. */
  lemma StaleGoalStopsPage(userId: string, g: Goal, today: Day, input: FormInput)
    requires MinCalories <= g.calorieTarget <= MaxCalories
    requires g.startDate < today - EarliestStartDays
    ensures SetGoalsPage(userId, Some(g), today, input) == DefaultOutOfRange ||
            SetGoalsPage(userId, Some(g), today, input) == UnknownGoalType
    ensures g.goalType in GoalTypes ==> SetGoalsPage(userId, Some(g), today, input) == DefaultOutOfRange
  {
  }
}
