/** The activity page (`activity_page.py`): one card per workout with its number, clock
    times and duration, the overall totals, the share-post text, and the insertion of a
    post into the Posts table. */
module Activity {
  import opened Basics
  import opened Text
  import opened WorkoutData

  // ---------------------------------------------------------------------------
  // Workout number

  const WorkoutWord: string := "workout"

  /** `workout.get('workout_id', f'workout{i+1}')`, then the id with every "workout"
      removed when it contains the word, else the position counted from 1. */
  function WorkoutNumber(w: Workout, i: nat): string
  {
    var id := w.workoutId.GetOr(WorkoutWord + NatToString(i + 1));
    if Contains(id, WorkoutWord) then RemoveAll(id, WorkoutWord) else NatToString(i + 1)
  }

  /** A string of digits never contains the word. */
  lemma DigitsLackWord(d: string)
    requires AllDigits(d)
    ensures !Contains(d, WorkoutWord)
  {
    if Contains(d, WorkoutWord) {
      var i :| 0 <= i <= |d| && OccursAt(d, WorkoutWord, i);
      OccurrenceStartsWithFirst(d, WorkoutWord, i);
      assert false;
    }
  }

  /** An id of the form "workout" followed by digits is numbered by those digits. */
  lemma WorkoutIdNumber(w: Workout, i: nat, d: string)
    requires AllDigits(d)
    requires w.workoutId == Some(WorkoutWord + d)
    ensures WorkoutNumber(w, i) == d
  {
    var id := WorkoutWord + d;
    assert OccursAt(id, WorkoutWord, 0);
    assert StartsWith(id, WorkoutWord) && id[|WorkoutWord|..] == d;
    DigitsLackWord(d);
    RemoveAllAbsent(d, WorkoutWord);
  }

  /** A workout without an id is numbered by its position, counted from 1. */
  lemma MissingIdNumber(w: Workout, i: nat)
    requires w.workoutId.None?
    ensures WorkoutNumber(w, i) == NatToString(i + 1)
  {
    WorkoutIdNumber(w.(workoutId := Some(WorkoutWord + NatToString(i + 1))), i, NatToString(i + 1));
  }

  /** An id without the word is numbered by its position too. */
  lemma OtherIdNumber(w: Workout, i: nat)
    requires w.workoutId.Some? && !Contains(w.workoutId.value, WorkoutWord)
    ensures WorkoutNumber(w, i) == NatToString(i + 1)
  {
  }

  // ---------------------------------------------------------------------------
  // Durations and clock times

  const SecondsPerHour: nat := 3600

  /** The hours, minutes and seconds `divmod` takes out of `timedelta.seconds`. */
  datatype Duration = Duration(hours: nat, minutes: nat, seconds: nat)

  /** `(end - start).seconds` split by `divmod`: `timedelta.seconds` is the part of the
      difference below one day (the whole days, negative ones included, sit in `days`). */
  function DurationOf(start: Seconds, end: Seconds): (d: Duration)
    ensures d.hours < 24 && d.minutes < 60 && d.seconds < 60
    ensures d.hours * SecondsPerHour + d.minutes * 60 + d.seconds == (end - start) % SecondsPerDay
    ensures start <= end < start + SecondsPerDay ==>
      d.hours * SecondsPerHour + d.minutes * 60 + d.seconds == end - start
  {
    var secs := (end - start) % SecondsPerDay;
    var rest := secs % SecondsPerHour;
    assert secs == secs / SecondsPerHour * SecondsPerHour + rest;
    assert rest == rest / 60 * 60 + rest % 60;
    assert rest % 60 == secs % 60 by {
      assert secs - rest == secs / SecondsPerHour * 60 * 60;
    }
    Duration(secs / SecondsPerHour, rest / 60, secs % 60)
  }

  /** `f"{hours:02d}:{minutes:02d}:{seconds:02d}"`. */
  function DurationText(d: Duration): string
    requires d.hours < 100 && d.minutes < 100 && d.seconds < 100
  {
    Pad2(d.hours) + ":" + Pad2(d.minutes) + ":" + Pad2(d.seconds)
  }

  /** The duration text reads back as the number of seconds of the workout (below a day). */
  lemma DurationTextReadsBack(start: Seconds, end: Seconds)
    requires start <= end < start + SecondsPerDay
    ensures var text := DurationText(DurationOf(start, end));
      |text| == 8 && text[2] == ':' && text[5] == ':' &&
      AllDigits(text[0..2]) && AllDigits(text[3..5]) && AllDigits(text[6..8]) &&
      ParseNat(text[0..2]) * SecondsPerHour + ParseNat(text[3..5]) * 60 + ParseNat(text[6..8]) == end - start
  {
    var d := DurationOf(start, end);
    var text := DurationText(d);
    assert text[0..2] == Pad2(d.hours);
    assert text[3..5] == Pad2(d.minutes);
    assert text[6..8] == Pad2(d.seconds);
  }

  /** `strftime('%-I:%M%p').lower()` of a parsed time: the hour on a 12-hour clock
      without padding, the minutes padded, then "am" or "pm". */
  function ClockText(t: Seconds): string
  {
    var ofDay := t % SecondsPerDay;
    var hour := ofDay / SecondsPerHour;
    var minute := ofDay % SecondsPerHour / 60;
    var hour12 := if hour % 12 == 0 then 12 else hour % 12;
    NatToString(hour12) + ":" + Pad2(minute) + (if hour < 12 then "am" else "pm")
  }

  // ---------------------------------------------------------------------------
  // Workout cards

  /** One workout of the detailed summary, or the error shown in its place when its body
      raises. `calories` is `None` when the record holds `None`, which the card prints as
      the text "None". */
  datatype Card =
    | Card(number: string, startText: string, endText: string, duration: string,
           distance: real, steps: int, calories: Option<real>)
    | CardError(position: nat)

  const UnknownTime: string := "Unknown"
  const ZeroDuration: string := "00:00:00"

  /** A timestamp `strptime(..., '%Y-%m-%d %H:%M:%S')` accepts: to the second, with no
      fraction and no offset. */
  predicate Strict(s: Stamp)
  {
    s.At? && s.text == WholeSeconds
  }

  /** The body of the `try` for the workout at position `i`. Both timestamps present
      (`Missing` is an absent key or an empty text) are parsed with the strict pattern;
      `{distance:.2f}` and `{steps:,}` raise on `None`; any of these lands in the `except`
      that shows the error for position `i + 1`. */
  function CardOf(w: Workout, i: nat): (c: Card)
    ensures c == CardError(i + 1) <==>
              (!w.start.Missing? && !w.end.Missing? && !(Strict(w.start) && Strict(w.end))) ||
              w.distance.Null? || w.steps.Null?
    ensures c.Card? && (w.start.Missing? || w.end.Missing?) ==>
              c.startText == UnknownTime && c.endText == UnknownTime && c.duration == ZeroDuration
    ensures c.Card? && w.start.At? && w.end.At? ==>
              c.startText == ClockText(w.start.t) && c.endText == ClockText(w.end.t) &&
              c.duration == DurationText(DurationOf(w.start.t, w.end.t))
    ensures c.Card? ==>
              c.number == WorkoutNumber(w, i) && c.steps == StepsOf(w) && c.distance == DistanceOf(w) &&
              (c.calories.None? <==> w.caloriesBurned.Null?) &&
              (c.calories.Some? ==> c.calories.value == CaloriesOf(w))
  {
    if w.distance.Null? || w.steps.Null? then CardError(i + 1)
    else
      var calories := if w.caloriesBurned.Null? then None else Some(CaloriesOf(w));
      if w.start.Missing? || w.end.Missing? then
        Card(WorkoutNumber(w, i), UnknownTime, UnknownTime, ZeroDuration, DistanceOf(w), StepsOf(w), calories)
      else if Strict(w.start) && Strict(w.end) then
        Card(WorkoutNumber(w, i), ClockText(w.start.t), ClockText(w.end.t),
             DurationText(DurationOf(w.start.t, w.end.t)), DistanceOf(w), StepsOf(w), calories)
      else CardError(i + 1)
  }

  /** What the detailed summary shows. */
  datatype SummaryView = NoUserData | NoWorkoutData | Cards(cards: seq<Card>)

  /** The page's key `map_rendered` of `st.session_state`; an absent key is `None`. */
  class ActivitySession {
    var mapRendered: Option<bool>

    constructor()
      ensures mapRendered == None
    {
      mapRendered := None;
    }

    /** `display_activity_summary`: `workouts` is what `get_user_workouts` returns for the
        user. An empty user id or no workouts stop early and change nothing; otherwise every
        workout gets its card, in order, and the maps are marked rendered. */
    method DisplayActivitySummary(userId: string, workouts: seq<Workout>) returns (view: SummaryView)
      modifies this
      ensures userId == "" <==> view == NoUserData
      ensures userId != "" && workouts == [] <==> view == NoWorkoutData
      ensures view.Cards? ==> |view.cards| == |workouts|
      ensures view.Cards? ==> forall i :: 0 <= i < |workouts| ==> view.cards[i] == CardOf(workouts[i], i)
      ensures view.Cards? ==> mapRendered == Some(true)
      ensures !view.Cards? ==> mapRendered == old(mapRendered)
    {
      if userId == "" {
        return NoUserData;
      }
      if workouts == [] {
        return NoWorkoutData;
      }
      if mapRendered.None? {
        mapRendered := Some(false);
      }
      var cards: seq<Card> := [];
      for i := 0 to |workouts|
        invariant |cards| == i
        invariant forall k :: 0 <= k < i ==> cards[k] == CardOf(workouts[k], k)
      {
        cards := cards + [CardOf(workouts[i], i)];
      }
      mapRendered := Some(true);
      view := Cards(cards);
    }
  }

  // ---------------------------------------------------------------------------
  // The basic summary and sharing

  const SharePrefix: string := "Look at this, I walked "
  const ShareSuffix: string := " steps today!"

  /** The text of a shared step count. */
  function ShareText(steps: int): string
  {
    SharePrefix + IntToString(steps) + ShareSuffix
  }

  /** The step count can be read back out of the share text. */
  lemma ShareTextReadsBack(steps: nat)
    ensures var text := ShareText(steps);
      StartsWith(text, SharePrefix) &&
      |text| >= |SharePrefix| + |ShareSuffix| &&
      text[|text| - |ShareSuffix|..] == ShareSuffix &&
      AllDigits(text[|SharePrefix|..|text| - |ShareSuffix|]) &&
      ParseNat(text[|SharePrefix|..|text| - |ShareSuffix|]) == steps
  {
    var text := ShareText(steps);
    assert text[|SharePrefix|..|text| - |ShareSuffix|] == NatToString(steps);
    assert text[..|SharePrefix|] == SharePrefix;
    assert text[|text| - |ShareSuffix|..] == ShareSuffix;
    ParseNatToString(steps);
  }

  /** The share text of one workout: `{workout.get('steps', 0)}` prints `None` as "None". */
  function WorkoutShare(w: Workout): string
  {
    if w.steps.Null? then SharePrefix + "None" + ShareSuffix else ShareText(StepsOf(w))
  }

  /** What the basic summary shows: no workouts; each workout's share text and then the
      failure of the totals, when a sum meets `None`; or each workout's share text and the
      overall totals with their share text. */
  datatype ActivityView =
    | NoWorkoutsFound
    | TotalsFailed(workoutShares: seq<string>)
    | Summary(workoutShares: seq<string>, totalSteps: int, totalDistance: real,
              totalCalories: real, overallShare: string)

  /** The first tab of `display_activity_page`. */
  function ActivityPage(workouts: seq<Workout>): (v: ActivityView)
    ensures workouts == [] <==> v == NoWorkoutsFound
    ensures v.TotalsFailed? <==> workouts != [] && !AmountsNumeric(workouts)
    ensures !v.NoWorkoutsFound? ==>
      |v.workoutShares| == |workouts| &&
      forall i :: 0 <= i < |workouts| ==> v.workoutShares[i] == WorkoutShare(workouts[i])
    ensures v.Summary? ==>
      AmountsNumeric(workouts) &&
      v.totalSteps == TotalSteps(workouts) && v.totalDistance == TotalDistance(workouts) &&
      v.totalCalories == TotalCalories(workouts) && v.overallShare == ShareText(v.totalSteps)
  {
    if workouts == [] then NoWorkoutsFound
    else if !AmountsNumeric(workouts) then TotalsFailed(ShareTexts(workouts))
    else Summary(ShareTexts(workouts), TotalSteps(workouts), TotalDistance(workouts),
                 TotalCalories(workouts), ShareText(TotalSteps(workouts)))
  }

  function ShareTexts(workouts: seq<Workout>): (texts: seq<string>)
    ensures |texts| == |workouts|
    ensures forall i :: 0 <= i < |workouts| ==> texts[i] == WorkoutShare(workouts[i])
  {
    if workouts == [] then []
    else ShareTexts(workouts[..|workouts| - 1]) + [WorkoutShare(workouts[|workouts| - 1])]
  }

  /** With no negative step counts, the overall share, when the totals are shown, never
      reports fewer steps than a single workout's share. */
  lemma OverallShareCoversEach(workouts: seq<Workout>, i: nat)
    requires StepsNumeric(workouts) && forall k :: 0 <= k < |workouts| ==> StepsOf(workouts[k]) >= 0
    requires i < |workouts|
    ensures ActivityPage(workouts).Summary? ==> ActivityPage(workouts).totalSteps >= StepsOf(workouts[i]) >= 0
  {
    TotalStepsBoundsEach(workouts, i);
  }

  // ---------------------------------------------------------------------------
  // Posting

  /** A row of the Posts table. */
  datatype PostRow = PostRow(postId: string, authorId: string, timestamp: Seconds,
                             imageUrl: Option<string>, content: string)

  /** The Posts table, as the rows inserted so far. */
  class PostsTable {
    var rows: seq<PostRow>

    constructor(initial: seq<PostRow>)
      ensures rows == initial
    {
      rows := initial;
    }

    /** `create_post`: one row with a fresh id, the author, the current time, the image
        and the content. `insertErrors` is what the insert reports; the row is stored and
        success reported exactly when it reports none. */
    method CreatePost(userId: string, content: string, imageUrl: Option<string>,
                      postId: string, now: Seconds, insertErrors: seq<string>)
      returns (inserted: bool)
      modifies this
      ensures inserted <==> insertErrors == []
      ensures inserted ==> rows == old(rows) + [PostRow(postId, userId, now, imageUrl, content)]
      ensures !inserted ==> rows == old(rows)
    {
      var row := PostRow(postId, userId, now, imageUrl, content);
      inserted := insertErrors == [];
      if inserted {
        rows := rows + [row];
      }
    }
  }
}
