# Fitness app rules, modelled in Dafny

This project models the decision logic of a Streamlit fitness application whose data sits
in BigQuery. The model leaves the pages' drawing and the SQL plumbing aside. It keeps the
rules they compute:

- **Workouts, streaks and badges** (`data_fetcher.py`). Workout records are built with
  coordinate defaults. The current and longest streaks of consecutive workout days are
  computed from them. Badges are awarded by fixed thresholds.
- **Calorie goals and progress** (`data_fetcher.py`):
  - the active goal of a day;
  - remaining calories clamped at zero, and the percentage capped at 100;
  - the per-day progress upsert, and the daily snapshot that stores what it reports;
  - the weekly report, which fills in missing days and averages over the days present.
- **Date-keyed merges** (`data_fetcher.py`):
  - the zero-filled daily water summary;
  - the windowed performance metrics;
  - the nutrition/performance correlation by date;
  - scaling a food by its quantity when it is added to a meal.
- **The pages' own rules**:
  - meal history grouping, ordering and pagination, the custom food check and the meal
    session flags (`meal_logger.py`);
  - the social feed's assembly and order (`community_page.py`);
  - workout cards, durations, totals, share texts and the post insert (`activity_page.py`);
  - the goal tracker's status tiers and charts' values (`nutrition_goals_tracker.py`);
  - water percentages, weekly statistics and tips (`water_page.py`);
  - the cups counter (`nutrition_overview.py`);
  - the goal form's defaults, the widget bounds they must meet, and validation (`set_goals.py`);
  - the add-meal form and its all-succeeded flag (`add_meal.py`).

Conventions:

- Dates are day numbers and points in time are seconds; "today" and "now" are parameters.
- New row ids (meal, goal, progress, post ids) are parameters.
- The tables the progress functions read and write are fields of one class,
  `NutritionStore.NutritionDb`. Its methods change them in place, as the SQL statements do.
- Streamlit session keys are `Option` fields of small classes (`None` is an absent key).
  A button click is a method that changes them.
- Calories and percentages are exact reals. Python's `int()` of a float is `Basics.Trunc`,
  which rounds toward zero.
- Python's in-place `sort(..., reverse=True)` is `Sorting.SortDesc`. It is specified as
  sorted newest first, a permutation of its input, and stable.
- A column that may be NULL is an `Option` (or a `WorkoutData.Field`, which also tells an
  absent key apart). Where Python then raises (a sum or `+=` meeting `None`, a format
  spec applied to `None`, a timestamp that does not parse), the model returns `None` or
  an error view, as the surrounding `try` or the caller sees it.

Modules, one per file: `Basics`, `Text`, `Sorting`, `WorkoutData`, `Streak`, `Badges`,
`Metrics`, `WaterSummary`, `Goals`, `NutritionRecords`, `WeeklyProgress`, `NutritionStore`
(the data layer, `data_fetcher.py`), then `MealLogger`, `Community`, `Activity`,
`GoalsTracker`, `WaterPage`, `NutritionOverview`, `SetGoals`, `AddMealPage` (one per page).

Two branches of the code are never taken:

- The tracker has an "Over Goal" status (nutrition_goals_tracker.py:104-105). The
  percentage it reads is already capped at 100, so that status is never shown
  (`GoalsTracker.OverGoalNeverShown`).
- The water page has a "no data for the past week" notice (water_page.py:195-197). When
  the summary query succeeds, the summary it reads always has seven entries, so the notice
  is not shown (`WaterPage.WeekAlwaysHasStats`); it appears only when the query fails and
  the summary comes back empty.

## Model

| member | source | states |
|---|---|---|
| Basics.DayOf | data_fetcher.py:294 | the calendar date of a time: the day whose 86400 seconds contain it |
| Basics.Trunc | nutrition_goals_tracker.py:89 | `int()` of a float: for x >= 0 the largest whole number not above x; for x < 0 the smallest not below |
| Text.Lower | add_meal.py:60 | `str.lower()` on ASCII text, which the four meal types are: same length, each upper-case ASCII letter mapped to lower case, every other character kept |
| Text.RemoveAllAbsent | activity_page.py:93 | `replace` of a word that does not occur returns the text unchanged |
| Text.ParseNatToString | activity_page.py:263 | a decimal numeral reads back as the number it was written from |
| Sorting.SortDesc | meal_logger.py:444 | `sort(key, reverse=True)`: the result is ordered by key, largest first, and is a permutation of the input |
| Sorting.InsertDescKeepsOrder | meal_logger.py:444 | inserting an element puts it first among the elements of its key and keeps the order of every key's elements |
| Sorting.SortDescIsStable | meal_logger.py:444 | the sort is stable: for every key, the elements with that key come out in their input order |
| WorkoutData.FromRow | data_fetcher.py:182-202 | each row becomes a record with every key present; a NULL coordinate becomes 0; a NULL distance, step count or calorie figure stays `None`; the other fields are copied from the row |
| WorkoutData.StampOf | data_fetcher.py:195-196 | `str()` of a NULL timestamp never parses; a present one parses to its own value, in the form it was written |
| WorkoutData.FieldOf | data_fetcher.py:199-201 | a copied column is always a present key: `None` exactly for NULL, otherwise the column's value |
| WorkoutData.GetUserWorkouts | data_fetcher.py:181-204 | one record per row, in row order, each `FromRow` of its row |
| WorkoutData.TotalStepsAppend | data_fetcher.py:334 | with no `None` step count in either list, the step total of both together is the sum of their totals |
| WorkoutData.TotalStepsBoundsEach | activity_page.py:269 | with no negative counts, the total is at least each workout's count, and non-negative |
| WorkoutData.StartDays | data_fetcher.py:294 | one day per workout, in order: the date of its start |
| Streak.CalculateStreak | data_fetcher.py:290-315 | raises (`None`) exactly when a start of a non-empty list does not parse; otherwise the loop returns exactly `StreakOf` of the start dates (the pair the lemmas below characterise) |
| Streak.SortedDistinctFacts | data_fetcher.py:294 | `sorted(set(dates))` is strictly ascending and holds exactly the given dates |
| Streak.RunEndingAtIsMaximalRun | data_fetcher.py:300-305 | the run the loop counts at a date is all workout days, and the day before it has none |
| Streak.RunEndingAtBoundsRuns | data_fetcher.py:300-305 | no run of workout days ending at that date is longer than the counted one |
| Streak.LongestRunIsMaximum | data_fetcher.py:305 | `max(longest, streak)` over the loop is the maximum of the counted runs and is one of them |
| Streak.LongestIsLongestRun | data_fetcher.py:296-305 | `longest` is the length of some run of consecutive workout days, and no run is longer |
| Streak.LatestIsLastDistinct | data_fetcher.py:308 | `workout_dates[-1]` is the latest workout day |
| Streak.CurrentZeroWhenStale | data_fetcher.py:310-313 | `current` is 0 unless the latest workout was today or yesterday |
| Streak.CurrentIsRunToLatest | data_fetcher.py:310-311 | otherwise `current` is the length of the unbroken run that ends at the latest workout day |
| Streak.CurrentAtMostLongest | data_fetcher.py:296-315 | `current <= longest` |
| Streak.UnbrokenStretchEndingToday | data_fetcher.py:296-315 | workouts on each of the n days ending today and on no other day give (n, n) |
| Streak.SortedDistinctOfNewestFirst | data_fetcher.py:294 | dates given newest first, all distinct, sort into the reverse list |
| Streak.StreakBrokenExample | data_fetcher_test.py:939-943 | workouts today, 2 and 3 days ago give (1, 2) |
| Streak.OldLongestStreakExample | data_fetcher_test.py:945-949 | workouts today, 1, 2 and 10 to 13 days ago give (3, 4) |
| Badges.GetBadges | data_fetcher.py:322-346 | raises (`None`) exactly when a step count is `None`; otherwise the appended list is exactly the badges whose thresholds are met, in the fixed order |
| Badges.GetWorkoutStats | data_fetcher.py:348-362 | raises exactly when a start does not parse or a step count is `None`; otherwise the streak pair, the badges for it and the workout count, as one record |
| Badges.NamesDistinct | data_fetcher.py:324-344 | no two badges share a label |
| Badges.BadgeIffThreshold | data_fetcher.py:324-344 | each badge is awarded if and only if its quantity reaches its threshold |
| Badges.EarnedUpToIffMet | data_fetcher.py:324-344 | the same, for any prefix of the checks |
| Badges.UnknownNeverEarned | data_fetcher.py:322-346 | a label none of the checks carries is never awarded |
| Badges.EarnedAreBadges | data_fetcher.py:322-346 | every awarded label is one of the badges' labels |
| Badges.SevenDayImpliesThreeDay | data_fetcher.py:324-327 | "7-Day Streak" is never awarded without "3-Day Streak" |
| Badges.EarnedMonotone | data_fetcher.py:322-346 | raising any streak, count or step total never removes a badge |
| Badges.SevenDayExample | data_fetcher_test.py:951-957 | seven consecutive days up to today and no steps earn exactly the 3-day and 7-day streak badges |
| Badges.FiftyWorkoutsExample | data_fetcher_test.py:959-964 | fifty workouts earn "50 Workouts Legend" |
| Metrics.GetPerformanceMetrics | data_fetcher.py:945-960 | raises (`None`) exactly when a start is missing, does not parse, or carries a UTC offset (an aware time compared with the naive `now`); otherwise the loop keeps exactly `WindowOf`: the workouts starting within the last `days` days up to now (both ends included), in order, each tagged with its date |
| Metrics.WindowOfKeepsExactly | data_fetcher.py:951-958 | a kept workout starts inside the window and carries its start date; every workout inside it is kept; nothing is added |
| Metrics.LastIndexOn | data_fetcher.py:986-1002 | the position of the last entry of a date, or -1 when there is none (for the nutrition rows and the workouts alike) |
| Metrics.LastOnIsLast | data_fetcher.py:986-1002 | a date's side is the last entry of that date (a later one overwrites), and is absent exactly when there is no entry for it |
| Metrics.LastOnSnoc | data_fetcher.py:986-1002 | one more entry becomes its date's side and adds its date; every other date keeps its side |
| Metrics.Correlate | data_fetcher.py:983-1004 | the two loops build a map whose keys are the union of both sides' dates, each holding the last entry of each side or `None` |
| Metrics.AddWorkouts | data_fetcher.py:994-1002 | the workout loop keeps that correlation invariant, one workout at a time |
| Metrics.GetNutritionPerformanceCorrelation | data_fetcher.py:962-1004 | raises exactly when the window filter does; otherwise the correlation of the nutrition rows and the windowed workouts |
| Metrics.CorrelationSides | data_fetcher.py:983-1004 | no date has two empty sides; each side is present exactly when it has data on that date |
| Metrics.CorrelationExampleDates | nutrition_fetcher_test.py:381-382 | nutrition on two dates and workouts on two dates, one shared, give three dates |
| Metrics.CorrelationExample | nutrition_fetcher_test.py:384-400 | of those, one date has both sides, one only nutrition, one only the workout |
| WaterSummary.IntakeOn | data_fetcher.py:727-732 | a day without records totals 0 |
| WaterSummary.QueryRowsFacts | data_fetcher.py:725-734 | the grouped query lists each day of the window that has records, with that day's total, and nothing else |
| WaterSummary.GetDailyWaterSummary | data_fetcher.py:717-776 | exactly `days` entries, on consecutive ascending dates ending today, each with that day's total and 0 where there are no records |
| WaterSummary.DaysSumIsWindowSum | data_fetcher.py:758-776 | summing day by day over a window equals summing the records inside it |
| WaterSummary.SummaryKeepsEveryRecord | data_fetcher.py:758-776 | the summary's totals add up to all intake recorded inside its window: zero-filling loses nothing |
| Goals.ActiveGoal | data_fetcher.py:1628-1671 | the chosen goal is the user's, has started and not ended on the date, and no goal active that day was created later; there is none exactly when no goal is active |
| Goals.NewestGoalWins | data_fetcher.py:1642-1644 | a goal created no earlier than every other one is the active goal on each day it covers |
| Goals.OtherGoalsKeepActive | data_fetcher.py:1638-1641 | a goal that does not cover the day, or belongs to someone else, does not change the day's active goal |
| Goals.Remaining | data_fetcher.py:1794 | `max(0, target - consumed)`: never negative, zero exactly when the target is reached, and otherwise the calories left |
| Goals.Percent | data_fetcher.py:1748-1750 | at most 100; 0 when the target is not positive; 100 exactly when the target is reached; otherwise consumed / target * 100 |
| Goals.FullExactlyWhenNothingRemains | data_fetcher.py:1750 | with a positive target, 100 percent exactly when nothing remains |
| Goals.MoreConsumedIsMonotone | data_fetcher.py:1750 | eating more never lowers the percentage nor raises the calories remaining |
| Goals.DailyExample | nutrition_goals_test.py:204-206 | 1500 of 2000 calories is 75 percent with 500 left |
| NutritionRecords.FoodById | data_fetcher.py:1209-1275 | the food found has the id asked for; there is none exactly when no food has that id |
| NutritionRecords.ScalingIsLinear | data_fetcher.py:1082-1085 | the stored totals are linear in the quantity, and one serving stores the per-serving values |
| NutritionRecords.MealById | data_fetcher.py:1539-1541 | the meal found has the id asked for; there is none exactly when no meal has it |
| NutritionRecords.ConsumedOn | data_fetcher.py:1764-1791 | the consumption over the tables the writers fill (see Findings); nothing is consumed without meals or meal foods |
| NutritionRecords.AddedFoodCounts | data_fetcher.py:1764-1791 | a food added to a meal with a unique id adds its calories, once, to its owner's consumption that day, over the tables the writers fill (see Findings) |
| NutritionRecords.ConsumedAsWritten | data_fetcher.py:1764-1775 | the query as written joins the lower-case tables; while nothing is written to them it reports 0 |
| NutritionRecords.AsWrittenMissesAddedFood | data_fetcher.py:1764-1775 | a 95-calorie food added to a user's only meal counts 95 over the written tables and 0 in the query as written |
| NutritionRecords.FirstRowFor | data_fetcher.py:2041-2059 | the row the existence check finds is the first for the user and date; there is none exactly when no such row exists |
| NutritionRecords.UpsertTouchesOnlyItsDay | data_fetcher.py:2057-2102 | the upsert writes one row for the user and day, leaves every other row as it was, and appends exactly when no row existed |
| NutritionRecords.UpsertKeepsOneRowPerDay | data_fetcher.py:2057-2102 | the upsert keeps at most one row per user and day |
| NutritionRecords.UpsertIsIdempotent | data_fetcher.py:2057-2102 | repeating an upsert with the same amounts stores the same values; only the update time changes |
| NutritionRecords.NewestRowFor | data_fetcher.py:1705-1736 | the snapshot row is the user's for that date and the most recently updated; there is none exactly when no row exists |
| NutritionRecords.OnlyRowIsNewest | data_fetcher.py:1717-1719 | with one row per day, the snapshot query finds that row |
| NutritionRecords.SnapshotIgnoresMeals | data_fetcher.py:1734-1761 | when a row exists, the report is that row's values, whatever the meals now hold |
| NutritionRecords.DailyIsStable | data_fetcher.py:1764-1840 | the report is the same when asked again later: the first call stores what it computed |
| NutritionRecords.DailyNeedsGoal | data_fetcher.py:1698-1700 | without an active goal there is no report and nothing is written |
| NutritionRecords.DailyAfterUpsert | data_fetcher.py:2057-2102 | after the upsert stores an amount, the daily report reads it back with its remaining calories and percentage |
| NutritionRecords.UpdateIsIdempotent | data_fetcher.py:1974-2104 | running the progress update twice with the same arguments stores what running it once does |
| NutritionRecords.ReportAsWrittenShowsNothingEaten | data_fetcher.py:1764-1794 | as written, a day with a goal and no stored row reports nothing eaten and the whole target left, whatever meals the writers stored |
| NutritionRecords.AddedFoodIsReported | data_fetcher.py:1059-1125 | after a food is added to a meal (unique id, owner with a goal that day), that day's report counts the food's calories, when the query reads the tables the writers fill (see Findings) |
| NutritionStore.NutritionDb.SetUserNutritionGoals | data_fetcher.py:1568-1602 | appends one goal starting on the given date or today; nothing else changes |
| NutritionStore.NutritionDb.AddMeal | data_fetcher.py:1022-1053 | appends one meal at the given time or now and returns its id; nothing else changes |
| NutritionStore.NutritionDb.UpdateGoalProgress | data_fetcher.py:1974-2104 | fails, writing nothing, exactly when no goal is active; otherwise upserts the day's row with the given or computed amount; keeps one row per day |
| NutritionStore.NutritionDb.UpdateDailyNutritionSummary | data_fetcher.py:1502-1552 | fails for an unknown meal or one without a user; otherwise it is the progress update for the meal's user on the meal's date |
| NutritionStore.NutritionDb.AddFoodToMeal | data_fetcher.py:1059-1129 | fails for an unknown food, writing nothing; otherwise stores the food scaled by the quantity, runs the summary update and succeeds |
| NutritionStore.NutritionDb.GetDailyNutritionProgress | data_fetcher.py:1678-1844 | no report without a goal; a stored row is reported as it is; otherwise the amounts computed over the tables the writers fill (see Findings) are stored as the day's row and reported |
| NutritionStore.NutritionDb.GetWeeklyNutritionProgress | data_fetcher.py:1847-1968 | the report over the window's entries by date; the rows inserted are exactly those for the days with a goal and no row; keeps one row per day |
| NutritionStore.NutritionDb.FillMissingDays | data_fetcher.py:1914-1927 | after the loop, every day of the window holds its entry, and the table gained exactly the filled rows |
| WeeklyProgress.LastRowFor | data_fetcher.py:1899-1911 | keying rows by date keeps one of the user's rows for that date; there is none exactly when no row exists |
| WeeklyProgress.EntryOn | data_fetcher.py:1914-1925 | a day's entry is for that day |
| WeeklyProgress.ByDateOfEntries | data_fetcher.py:1930-1931 | once every day is filled, the dictionary's values sorted by date are the window's entries |
| WeeklyProgress.WeekEntriesAscending | data_fetcher.py:1931 | the entries lie in the window, in strictly ascending date order |
| WeeklyProgress.WeekEntriesCover | data_fetcher.py:1914-1925 | a day of the window has an entry exactly when it has a stored row or an active goal |
| WeeklyProgress.FilledRowsAreNew | data_fetcher.py:1918-1925 | every inserted row is the user's and for a day of the window that had no row |
| WeeklyProgress.FilledRowsKeepOneRowPerDay | data_fetcher.py:1914-1927 | filling in the missing days keeps one row per user and day |
| WeeklyProgress.AverageWithinBounds | data_fetcher.py:1938-1940 | the average lies between the smallest and the largest daily amounts |
| WeeklyProgress.WeeklyExample | nutrition_goals_test.py:275-279 | 1800 and 1600 eaten (200 and 400 left) against 2000 average 1700 and 300, which is 85 percent |
| WeeklyProgress.NoReportWithoutData | data_fetcher.py:1934-1935 | no report exactly when there is no entry (or a stored amount is NULL) |
| MealLogger.FoodOf | data_fetcher.py:910-920 | a record with four numeric amounts, read as they are, with the meal's fields |
| MealLogger.Loaded | meal_logger.py:416-440 | the records as the loop adds them; `None` exactly when some record holds a NULL amount, which makes `+=` raise |
| MealLogger.IndexOfMeal | meal_logger.py:423 | the position of the meal with the id, the first such, or past the end when there is none |
| MealLogger.AddFoodSummarises | meal_logger.py:436-440 | adding a food to its meal keeps the entry a summary of that meal's rows |
| MealLogger.GroupStepKeepsIds | meal_logger.py:417-434 | each pass keeps one entry per meal id, exactly the ids seen so far |
| MealLogger.GroupStepKeepsSummaries | meal_logger.py:417-440 | each pass keeps every entry the summary of its meal's rows |
| MealLogger.GroupedIsMealHistory | meal_logger.py:416-443 | one entry per distinct meal id; each holds that meal's foods in input order and the four totals summed over them |
| MealLogger.GroupMeals | meal_logger.py:416-443 | the grouping loop raises (`None`) exactly when a record holds a NULL amount; otherwise it computes that meal history |
| MealLogger.NewestFirst | meal_logger.py:443-444 | the meals ordered by meal time, most recent first, none added or lost, meals of the same time in grouped order |
| MealLogger.NewestFirstKeepsMeals | meal_logger.py:416-444 | the newest-first list has an entry for exactly the meals that have rows |
| MealLogger.TotalPages | meal_logger.py:452 | the fewest pages of five that hold all meals (`ceil(n / 5)`) |
| MealLogger.PageOf | meal_logger.py:471-473 | at most five meals, the ones from position page*5 on, in order; five when enough remain; empty exactly past the end |
| MealLogger.EveryMealOnItsPage | meal_logger.py:452-473 | meal i is shown on page i / 5, which exists |
| MealLogger.SubmitCustomFood | meal_logger.py:361-382 | an empty name is refused; otherwise the food is inserted, with a warning exactly when calories > 0 and differ from 4p + 4c + 9f by more than 20 |
| MealLogger.MatchingMacrosPassQuietly | meal_logger.py:366-371 | calories within 20 of the macros' value are inserted without a warning |
| MealLogger.MealSession.CreateMeal | meal_logger.py:109-117 | a created meal sets both the current meal and the food search flag; a failed creation changes nothing |
| MealLogger.MealSession.FinishMeal | meal_logger.py:205-211 | with a meal in progress both keys are removed and success reported; otherwise nothing changes |
| MealLogger.MealSession.PreviousPage | meal_logger.py:458-459 | disabled on page 0; otherwise one page back |
| MealLogger.MealSession.NextPage | meal_logger.py:466-467 | disabled on the last page; otherwise one page forward, staying within the pages |
| MealLogger.MealSession.DisplayMealHistory | meal_logger.py:411-507 | without records, only a notice and the page is untouched; a NULL amount gives the "Unable to load meal history" notice, the page untouched; otherwise the page starts at 0 on the first visit and the grouped, newest-first meals of the current page are shown |
| Community.FirstFailure | community_page.py:64-69 | the friends before the first failed fetch all fetched; the one at that position failed |
| Community.GatherFeed | community_page.py:58-69 | the user's posts, then each friend's posts in friend order up to the first failure, which gives the warning |
| Community.FriendPostsMembers | community_page.py:64-67 | a post is gathered exactly when one of those friends posted it |
| Community.AssignSortKeys | community_page.py:74-82 | every post gets its parsed timestamp as key, or 1970-01-01 when it is missing or does not parse; nothing else changes |
| Community.WithSortKeys | community_page.py:74-82 | each post's key, read back, is its timestamp or the epoch |
| Community.UndatedAfterDated | community_page.py:80-85 | in the sorted feed, a post without a usable timestamp comes after every dated post |
| Community.DisplayPostsPage | community_page.py:28-93 | a failed profile lookup shows only the error; an empty feed the notice; otherwise the gathered posts, keyed, sorted newest first (posts of the same time in gathered order), with the friends' warning when a fetch failed |
| Community.ShownOnce | community_page.py:90-91 | every gathered post is shown, and as many posts are shown as were gathered |
| Activity.DigitsLackWord | activity_page.py:93 | a string of digits never contains "workout" |
| Activity.WorkoutIdNumber | activity_page.py:92-93 | an id "workout" followed by digits is numbered by those digits |
| Activity.MissingIdNumber | activity_page.py:92-93 | a workout without an id is numbered by its position counted from 1 |
| Activity.OtherIdNumber | activity_page.py:93 | an id without the word is numbered by its position too |
| Activity.DurationOf | activity_page.py:108-111 | hours below 24, minutes and seconds below 60, and h*3600 + m*60 + s equal to the difference modulo a day (the difference itself when it is below a day) |
| Activity.DurationTextReadsBack | activity_page.py:112 | the text is three two-digit fields that read back as the workout's length in seconds |
| Activity.CardOf | activity_page.py:89-165 | the error for that position exactly when both timestamps are present and one is not in whole-second form without offset, or the distance or steps are `None`; a missing timestamp gives "Unknown" and "00:00:00"; parsed ones give the clock texts and duration; a card carries the workout's number, distance, steps and calories (`None` shown as is) |
| Activity.ActivitySession.DisplayActivitySummary | activity_page.py:73-225 | no user: a warning; no workouts: a notice; otherwise one card per workout in order, and the maps are marked rendered |
| Activity.ActivityPage | activity_page.py:243-281 | no workouts: a notice; otherwise each workout's share text, then, when an amount is `None`, the failure of the sums; otherwise the step, distance and calorie totals (absent read as 0), with the overall share text |
| Activity.ShareTexts | activity_page.py:253-263 | one share text per workout, with its steps ("None" for a NULL count) |
| Activity.ShareTextReadsBack | activity_page.py:263 | the share text is the fixed prefix, the step count and the fixed suffix, and the count reads back |
| Activity.OverallShareCoversEach | activity_page.py:269-280 | when the totals are shown, the overall share never reports fewer steps than one workout's |
| Activity.PostsTable.CreatePost | activity_page.py:45-63 | stores one row with the author, the time, the image and the content exactly when the insert reports no errors, and reports success exactly then |
| GoalsTracker.StatusIsMonotone | nutrition_goals_tracker.py:103-115 | a higher percentage never shows a lower tier |
| GoalsTracker.OverGoalExactlyAbove100 | nutrition_goals_tracker.py:104-105 | "Over Goal" is chosen exactly above 100 percent |
| GoalsTracker.BarValue | nutrition_goals_tracker.py:120 | the bar lies in [0, 1] for a non-negative percent, is percent / 100 up to 100, and 1 above |
| GoalsTracker.DailyPanelOf | nutrition_goals_tracker.py:66-120 | no progress: the notice; otherwise whole calories eaten and left, the percent label (0 when not positive), the tier and the bar of the reported percent |
| GoalsTracker.OverGoalNeverShown | nutrition_goals_tracker.py:104 | over the data layer's report, "Over Goal" is never shown and the bar never exceeds 1 |
| GoalsTracker.DailyTrackerExample | nutrition_goals_tracker.py:86-120 | 1500 of 2000 shows 1500 kcal, 75 percent, 500 left, "Good Progress" and a bar at 0.75 |
| GoalsTracker.DayPercent | nutrition_goals_tracker.py:244 | the clipped percentage is at most 100, and in [0, 100] for a non-negative amount and positive target |
| GoalsTracker.DayPercentIsPercent | nutrition_goals_tracker.py:244 | with a positive target, it equals the data layer's percentage for the same amount |
| GoalsTracker.DayPercents | nutrition_goals_tracker.py:199-244 | one clipped percentage per day, in order |
| GoalsTracker.WeeklyPanelOf | nutrition_goals_tracker.py:160-244 | no data: the notice; otherwise whole averages, the goal percentage only for a positive target, and each day's clipped percentage |
| GoalsTracker.TrackerPage | nutrition_goals_tracker.py:25-39 | without a goal only the warning; otherwise both tabs |
| WaterPage.TodayPercentInSteps | water_page.py:60 | for a non-negative total, the whole number of 20 ml steps capped at 100: in [0, 100], and 100 exactly from 2000 ml |
| WaterPage.TodaysIntake | water_page.py:56-68 | the total of today's amounts, its percentage, the bar at percentage / 100, and the log exactly when there are records |
| WaterPage.TodayBarInRange | water_page.py:59-67 | with no negative amounts, the bar lies in [0, 1] |
| WaterPage.DaysMet | water_page.py:233 | never more days than entries |
| WaterPage.AllDaysMetBoundsTotal | water_page.py:231-233 | if every day met the target, the week total is at least 2000 per day |
| WaterPage.WeeklySummary | water_page.py:193-270 | no summary: the notice; otherwise the total, the total / 7 average, the days that met 2000 ml and the tip for the average |
| WaterPage.FullWeekIsGreat | water_page.py:264-270 | seven days all meeting the target earn the praise |
| WaterPage.WeekAlwaysHasStats | water_page.py:193-197 | a seven-day summary always has entries, so the statistics are always shown |
| WaterPage.TipThresholds | water_page.py:250-270 | the warning exactly below 8400 ml a week and the praise exactly from 14000 ml |
| NutritionOverview.CupsStayInRange | nutrition_overview.py:57-88 | from an absent key, any clicks keep the counter in [0, 8], each moving it by at most one |
| NutritionOverview.CupsPercentInRange | nutrition_overview.py:72 | 12.5 percent per cup rounded down: in [0, 100], and 100 exactly at 8 cups |
| NutritionOverview.TotalCaloriesAppend | nutrition_overview.py:23-25 | the calories of two lists of meals together are the sum of both |
| NutritionOverview.SumCalories | nutrition_overview.py:23-25 | the loop returns the calories of all the meals |
| NutritionOverview.OverviewSession.Show | nutrition_overview.py:14-88 | without a goal only the warning, the counter untouched; more calories eaten than the target (or a negative total) makes the chart raise, the counter untouched and not drawn; otherwise calories against the target, the counter after the click, and the bar unless a "➖" click reruns the page first |
| SetGoals.DefaultsFor | set_goals.py:19-29 | without a goal: 2000 kcal, daily, from today, no end; otherwise the goal's own values |
| SetGoals.GoalTypeIndex | set_goals.py:40 | found exactly for the three offered types, at that type's position |
| SetGoals.EndDateDefault | set_goals.py:60 | the default end date, else 30 days after the start |
| SetGoals.SetGoalsPage | set_goals.py:19-74 | the page stops exactly when a default lies outside its widget's bounds (a target outside 1000..5000, a start more than 30 days back, or, with the end box ticked, a default end before the chosen start) or the default type is not offered, in the order the widgets are drawn; an end before the start gives the error; otherwise "Save" forwards exactly user, target, type, start and the end when chosen |
| SetGoals.SavedGoalIsActiveFromStart | set_goals.py:65-73 | a saved goal is active on its own start date |
| SetGoals.FirstGoalDefaults | set_goals.py:26-29 | the untouched form of a user without a goal saves 2000 kcal, daily, from today, with no end |
| SetGoals.UntouchedFormKeepsGoal | set_goals.py:20-62 | the untouched form over a goal of an offered type, with a target in 1000..5000, a start at most 30 days back and an end not before its start, saves that goal's values again |
| SetGoals.StaleGoalStopsPage | set_goals.py:33-52 | a current goal that started more than 30 days ago stops the page for every input |
| AddMealPage.SumMacrosAppend | add_meal.py:18-24 | the macro totals of two lists together are the sum of both |
| AddMealPage.MacroTotals | add_meal.py:18-24 | the loop returns the fat, protein and carbohydrate totals of the day's meals |
| AddMealPage.AllFoundAddsEach | add_meal.py:64-68 | with every food in the catalogue, the meal gets one serving of each, in selection order |
| AddMealPage.AddSelectedFoods | add_meal.py:64-71 | the meal gets one serving of each catalogued food selected; success exactly when all were found |
| AddMealPage.Show | add_meal.py:9-79 | without a goal only the warning; the macro totals; no type or no food refuses the save and writes nothing; otherwise the meal is stored with the lower-cased type and its foods added, succeeding exactly when every food was found |

## Left out

- BigQuery access (clients, SQL text, job configuration, the client cache) is replaced by the in-memory tables of `NutritionStore.NutritionDb` and by parameters holding query results.
- Query exceptions and their error returns are not modelled: each query is taken to succeed. This covers `get_user_posts` for the user's own posts, the "Failed to create meal" branches and the partial-failure paths of inserts.
- `get_genai_advice` and the advice panel use Vertex AI and random choice, a foreign and nondeterministic call.
- `get_user_sensor_data`, `get_users`, `search_food_items`, `get_all_food_items`, `get_nutrition_data`, `get_meal_details`, `get_user_meals` and `get_user_water_intake` are plain queries. Their results are parameters of the model.
- `get_user_profile` is a query. The feed takes its result, with a failed lookup as `None`.
- `add_water_intake`, the quick-add and custom water forms, and the water log table's time formatting are left out: insert plumbing and rendering.
- `add_custom_food_item` is an insert. `MealLogger.SubmitCustomFood` models the form's decision only.
- Rendering is left out: Streamlit widgets, folium maps, plotly, altair and matplotlib charts, HTML. The bounds of the values a user enters (minimum and maximum of inputs and sliders) are not modelled; the model takes whatever the widgets return. On the goal page the bounds are checked against the defaults, where Streamlit raises (`SetGoals.DefaultOutOfRange`).
- Page navigation is left out: the page switch callbacks, query parameters and `st.rerun`, except where a rerun decides what is shown (`NutritionOverview.OverviewSession.Show`).
- The "Post" button of the social feed is left out: it is a demonstration that saves nothing.
- Timestamp parsing and clock reads are left out. A workout timestamp is missing, unparseable, or a parsed time tagged with the form of its text (whole seconds, with a fraction, with a UTC offset); which form `str()` gives depends on the column's type and is taken as given. "now" and "today" are parameters. Time zones are not modelled: a parsed time is its wall-clock reading, and an offset only decides which parsers and comparisons accept it.
- Activity.CardOf: when the body raises part-way, Streamlit has already drawn the card's header (and, for a NULL step count, its distance); the model shows only the error that follows.
- Floating point is not modelled. Amounts and percentages are exact reals, so rounding of sums and divisions is absent.
- WaterPage.TodayPercent, WaterPage.TodayPercentInSteps: computed on exact reals. In Python's floats, `580 / 2000 * 100` is 28.999999999999996, so a few totals show one percent less than the model's whole number of 20 ml steps.
- NutritionRecords.DailyIsStable, NutritionRecords.DailyAfterUpsert, NutritionStore.NutritionDb.UpdateGoalProgress: the stored amounts are exact reals. The source binds the consumed and remaining calories as INTEGER parameters (data_fetcher.py:1813-1814, 2072-2073, 2096-2097), and a fractional Python float is not stored as computed there (the client refuses or converts it). The contracts describe the source for whole amounts.
- Integer fields are unbounded. BigQuery's INT64 bounds are never reached by these counts and amounts.
- `nutrition_analytics.py`, `app.py`, `modules.py`, `data.py` and `display_current_meal_summary.py` are not part of this model. They are analytics over floats, the app shell, duplicates of the modelled pages, and a seeding script.
- Concurrency is not modelled: two sessions racing on the progress upsert could store two rows for a day. The model is single-threaded and proves that it keeps one row per day.
- NutritionStore.NutritionDb.UpdateGoalProgress, NutritionStore.NutritionDb.UpdateDailyNutritionSummary, NutritionStore.NutritionDb.AddFoodToMeal, NutritionStore.NutritionDb.GetDailyNutritionProgress, NutritionStore.NutritionDb.GetWeeklyNutritionProgress, NutritionStore.NutritionDb.FillMissingDays, NutritionRecords.DailyView, NutritionRecords.ProgressAfterUpdate, NutritionRecords.DailyIsStable, NutritionRecords.DailyAfterUpsert, NutritionRecords.UpdateIsIdempotent: compute the consumed calories over the tables the writers fill, the corrected query of the Findings row. As written, the source reports 0 for that amount (`NutritionRecords.ReportAsWrittenShowsNothingEaten`), or returns `None` / `False` when the lower-case tables do not exist.
- NutritionOverview.OverviewSession.Show: an all-zero chart (nothing eaten against a zero target) is drawn in the model; what the chart library does with it is not modelled.
- Row ids are parameters. The source derives them from the user and the clock, and they need not be unique.
- NutritionRecords.Upserted, NutritionStore.NutritionDb.UpdateGoalProgress: update only the row the existence check found. The SQL `UPDATE` selects by that row's `progress_id`, so it rewrites every row carrying the id. The contracts therefore describe the source only when the found row's id is unique. `update_goal_progress` builds ids to the whole second (data_fetcher.py:2081), so two inserts for one user within a second share one. `NutritionStore.NutritionDb.FillMissingDays` gives every filled row the same id parameter, where the source's ids (data_fetcher.py:1797) differ by the clock.
- MealLogger.NewestFirst and Community.DisplayPostsPage sort by value, not in place: the lists are not shared with other code, so aliasing does not matter.
- Dictionary key order is not modelled where it is not observable. `WaterSummary.GetDailyWaterSummary` builds its keys in date order and the model lists them so.
- GoalsTracker.DayPercent: a NULL amount, or a zero target with zero calories, gives pandas' NaN, and a negative amount over a zero target gives minus infinity, which the upper clip keeps. The model gives `None` for all of these days and says nothing about how the chart draws them.
- AddMealPage.AddSelectedFoods: does not state the progress table after the loop, only the foods added and the success flag. Each add's progress update is `NutritionStore.NutritionDb.AddFoodToMeal`'s contract.
- AddMealPage.Show: the model's meal insert never fails, so the "Failed to create meal" branch (add_meal.py:78-79) is not reached.
- The display name to food id map of the add-meal form is left out: the model receives the selected food ids.
- Activity.ClockText: the 12-hour clock text is computed but no property of it is stated.
- WeeklyProgress: the weekly report drops the stored `goal_id` and `updated_at` of each day, which the tracker page never reads.

## Findings

| source | as written | input that shows it | evidently intended | confidence | as-written member | corrected member |
|---|---|---|---|---|---|---|
| data_fetcher.py:1764-1775, 2004-2016 | the consumed-calorie query joins `ISE.meal_foods` and `ISE.meals`, while `add_meal` and `add_food_to_meal` write `ISE.Meals` and `ISE.MealFoods` (data_fetcher.py:1033, 1095), and table names are case-sensitive | a user with one meal and a 95-calorie food in it: the written tables give 95, the lower-case tables, which nothing writes, give 0 (and if they do not exist, the query raises and the functions return `None` or `False`) | the query reads the tables the writers fill, so an added food counts towards the day's progress | medium, not executed | NutritionRecords.AsWrittenMissesAddedFood | NutritionRecords.AddedFoodIsReported |
