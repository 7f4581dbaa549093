/** The rules inside the meal logging page (`meal_logger.py`): the meal history grouped by
    meal with running totals, newest first, five meals per page; the macro check of the
    custom food form; the session flags of a meal being logged. */
module MealLogger {
  import opened Basics
  import opened Sorting

  /** One record of `get_meal_details`: a food of a meal, with the meal's fields. Every
      key is set; an amount is `None` when its column is NULL. */
  datatype MealDetail = MealDetail(
    mealId: string,
    mealTime: Seconds,
    mealType: string,
    mealName: Option<string>,
    calories: Option<real>,
    protein: Option<real>,
    carbs: Option<real>,
    fat: Option<real>)

  /** A record whose four amounts are numbers, as the grouping loop adds them up. */
  datatype FoodRow = FoodRow(
    mealId: string,
    mealTime: Seconds,
    mealType: string,
    mealName: Option<string>,
    calories: real,
    protein: real,
    carbs: real,
    fat: real)

  predicate HasAmounts(d: MealDetail)
  {
    d.calories.Some? && d.protein.Some? && d.carbs.Some? && d.fat.Some?
  }

  function FoodOf(d: MealDetail): (food: FoodRow)
    requires HasAmounts(d)
    ensures food.mealId == d.mealId && food.mealTime == d.mealTime &&
            food.mealType == d.mealType && food.mealName == d.mealName
    ensures Some(food.calories) == d.calories && Some(food.protein) == d.protein &&
            Some(food.carbs) == d.carbs && Some(food.fat) == d.fat
  {
    FoodRow(d.mealId, d.mealTime, d.mealType, d.mealName,
            d.calories.value, d.protein.value, d.carbs.value, d.fat.value)
  }

  /** The records as the grouping loop adds them, or `None` when one of them holds a NULL
      amount: `+=` with `None` raises, whichever record it is in. */
  function Loaded(ds: seq<MealDetail>): (rows: Option<seq<FoodRow>>)
    ensures rows.None? <==> exists k :: 0 <= k < |ds| && !HasAmounts(ds[k])
    ensures rows.Some? ==> |rows.value| == |ds| &&
                           forall k :: 0 <= k < |ds| ==> rows.value[k] == FoodOf(ds[k])
  {
    if ds == [] then Some([])
    else
      var front := Loaded(ds[..|ds| - 1]);
      assert forall k :: 0 <= k < |ds| - 1 ==> ds[..|ds| - 1][k] == ds[k];
      if front.None? || !HasAmounts(ds[|ds| - 1]) then None
      else Some(front.value + [FoodOf(ds[|ds| - 1])])
  }

  datatype Nutrient = Calories | Protein | Carbs | Fat

  /** `food.get('total_calories', 0)` and its three siblings; every key is there. */
  function Amount(food: FoodRow, n: Nutrient): real
  {
    match n
    case Calories => food.calories
    case Protein => food.protein
    case Carbs => food.carbs
    case Fat => food.fat
  }

  /** The sum of one nutrient over a list of foods. */
  function Total(foods: seq<FoodRow>, n: Nutrient): real
  {
    if foods == [] then 0.0 else Total(foods[..|foods| - 1], n) + Amount(foods[|foods| - 1], n)
  }

  /** A meal of the history: the fields of its first food row, its foods and the totals. */
  datatype MealGroup = MealGroup(
    mealId: string,
    mealTime: Seconds,
    mealType: string,
    mealName: Option<string>,
    foods: seq<FoodRow>,
    totalCalories: real,
    totalProtein: real,
    totalCarbs: real,
    totalFat: real)

  // ---------------------------------------------------------------------------
  // Grouping by meal id

  /** Where the meal `id` sits in `meals`, or `|meals|` when it is not there. */
  function IndexOfMeal(meals: seq<MealGroup>, id: string): (k: nat)
    ensures k <= |meals|
    ensures k < |meals| ==> meals[k].mealId == id
    ensures forall j :: 0 <= j < k ==> meals[j].mealId != id
  {
    if meals == [] then 0
    else if meals[0].mealId == id then 0
    else 1 + IndexOfMeal(meals[1..], id)
  }

  /** The entry a meal gets when its first food is seen: no foods, zero totals. */
  function OpenMeal(food: FoodRow): MealGroup
  {
    MealGroup(food.mealId, food.mealTime, food.mealType, food.mealName, [], 0.0, 0.0, 0.0, 0.0)
  }

  /** A food appended to its meal, its amounts added to the totals. */
  function AddFood(g: MealGroup, food: FoodRow): MealGroup
  {
    g.(foods := g.foods + [food],
       totalCalories := g.totalCalories + Amount(food, Calories),
       totalProtein := g.totalProtein + Amount(food, Protein),
       totalCarbs := g.totalCarbs + Amount(food, Carbs),
       totalFat := g.totalFat + Amount(food, Fat))
  }

  /** One pass of the grouping loop: open the meal if it is new, then add the food. */
  function GroupStep(meals: seq<MealGroup>, food: FoodRow): seq<MealGroup>
  {
    var k := IndexOfMeal(meals, food.mealId);
    var withMeal := if k == |meals| then meals + [OpenMeal(food)] else meals;
    withMeal[k := AddFood(withMeal[k], food)]
  }

  /** The dictionary `meals_by_id` after the loop, as the list of its values. */
  function Grouped(rows: seq<FoodRow>): seq<MealGroup>
  {
    if rows == [] then [] else GroupStep(Grouped(rows[..|rows| - 1]), rows[|rows| - 1])
  }

  /** The rows of meal `id`, in input order. */
  function FoodsOf(rows: seq<FoodRow>, id: string): seq<FoodRow>
  {
    if rows == [] then []
    else FoodsOf(rows[..|rows| - 1], id) + (if rows[|rows| - 1].mealId == id then [rows[|rows| - 1]] else [])
  }

  function MealIdsOf(rows: seq<FoodRow>): set<string>
  {
    set k | 0 <= k < |rows| :: rows[k].mealId
  }

  function GroupIds(meals: seq<MealGroup>): set<string>
  {
    set i | 0 <= i < |meals| :: meals[i].mealId
  }

  predicate DistinctIds(meals: seq<MealGroup>)
  {
    forall i, j :: 0 <= i < j < |meals| ==> meals[i].mealId != meals[j].mealId
  }

  /** `g` is the summary of its meal's rows: their list, their totals, the meal fields of
      the first of them. */
  predicate Summarises(g: MealGroup, rows: seq<FoodRow>)
  {
    var fs := FoodsOf(rows, g.mealId);
    fs != [] && g.foods == fs &&
    g.mealTime == fs[0].mealTime && g.mealType == fs[0].mealType && g.mealName == fs[0].mealName &&
    g.totalCalories == Total(fs, Calories) && g.totalProtein == Total(fs, Protein) &&
    g.totalCarbs == Total(fs, Carbs) && g.totalFat == Total(fs, Fat)
  }

  /** One entry per distinct meal id of the rows, each the summary of its meal. */
  predicate IsMealHistory(meals: seq<MealGroup>, rows: seq<FoodRow>)
  {
    DistinctIds(meals) &&
    GroupIds(meals) == MealIdsOf(rows) &&
    (forall i :: 0 <= i < |meals| ==> Summarises(meals[i], rows))
  }

  lemma FoodsOfSnoc(rows: seq<FoodRow>, food: FoodRow, id: string)
    ensures FoodsOf(rows + [food], id) == FoodsOf(rows, id) + (if food.mealId == id then [food] else [])
    ensures MealIdsOf(rows + [food]) == MealIdsOf(rows) + {food.mealId}
  {
    assert (rows + [food])[..|rows|] == rows;
    assert forall k :: 0 <= k < |rows| ==> (rows + [food])[k] == rows[k];
  }

  lemma TotalSnoc(foods: seq<FoodRow>, food: FoodRow, n: Nutrient)
    ensures Total(foods + [food], n) == Total(foods, n) + Amount(food, n)
  {
    assert (foods + [food])[..|foods|] == foods;
  }

  lemma FoodsOfAbsent(rows: seq<FoodRow>, id: string)
    requires id !in MealIdsOf(rows)
    ensures FoodsOf(rows, id) == []
  {
    if rows != [] {
      assert MealIdsOf(rows[..|rows| - 1]) <= MealIdsOf(rows) by {
        forall k | 0 <= k < |rows| - 1 ensures rows[..|rows| - 1][k] == rows[k] { }
      }
      assert rows[|rows| - 1].mealId in MealIdsOf(rows);
      FoodsOfAbsent(rows[..|rows| - 1], id);
    }
  }

  /** A meal that gains a food still summarises its rows once that food is added. */
  lemma AddFoodSummarises(g: MealGroup, rows: seq<FoodRow>, food: FoodRow)
    requires g.mealId == food.mealId
    requires Summarises(g, rows) || (g == OpenMeal(food) && FoodsOf(rows, food.mealId) == [])
    ensures Summarises(AddFood(g, food), rows + [food])
  {
    var fs := FoodsOf(rows, g.mealId);
    FoodsOfSnoc(rows, food, g.mealId);
    TotalSnoc(fs, food, Calories);
    TotalSnoc(fs, food, Protein);
    TotalSnoc(fs, food, Carbs);
    TotalSnoc(fs, food, Fat);
    if fs == [] {
      assert [] + [food] == [food];
    }
  }

  /** The grouping loop keeps one entry per meal id, and exactly the ids seen so far. */
  lemma GroupStepKeepsIds(meals: seq<MealGroup>, rows: seq<FoodRow>, food: FoodRow)
    requires DistinctIds(meals) && GroupIds(meals) == MealIdsOf(rows)
    ensures DistinctIds(GroupStep(meals, food))
    ensures GroupIds(GroupStep(meals, food)) == MealIdsOf(rows + [food])
  {
    var k := IndexOfMeal(meals, food.mealId);
    var after := GroupStep(meals, food);
    FoodsOfSnoc(rows, food, food.mealId);
    if k == |meals| {
      assert forall i :: 0 <= i < |meals| ==> after[i] == meals[i];
      assert after[|meals|].mealId == food.mealId;
      assert GroupIds(after) == GroupIds(meals) + {food.mealId};
    } else {
      assert forall i :: 0 <= i < |meals| ==> after[i].mealId == meals[i].mealId;
      assert GroupIds(after) == GroupIds(meals);
    }
  }

  /** The grouping loop keeps every entry the summary of its meal's rows. */
  lemma GroupStepKeepsSummaries(meals: seq<MealGroup>, rows: seq<FoodRow>, food: FoodRow)
    requires DistinctIds(meals) && GroupIds(meals) == MealIdsOf(rows)
    requires forall i :: 0 <= i < |meals| ==> Summarises(meals[i], rows)
    ensures forall i :: 0 <= i < |GroupStep(meals, food)| ==> Summarises(GroupStep(meals, food)[i], rows + [food])
  {
    var k := IndexOfMeal(meals, food.mealId);
    var after := GroupStep(meals, food);
    if k == |meals| {
      assert food.mealId !in MealIdsOf(rows);
      FoodsOfAbsent(rows, food.mealId);
      AddFoodSummarises(OpenMeal(food), rows, food);
    } else {
      AddFoodSummarises(meals[k], rows, food);
    }
    forall i | 0 <= i < |after| && i != k
      ensures Summarises(after[i], rows + [food])
    {
      assert after[i] == meals[i];
      assert k < |meals| ==> meals[k].mealId != meals[i].mealId;
      OtherMealSummarises(meals[i], rows, food);
    }
  }

  /** A food of another meal leaves a meal's summary as it was. */
  lemma OtherMealSummarises(g: MealGroup, rows: seq<FoodRow>, food: FoodRow)
    requires g.mealId != food.mealId && Summarises(g, rows)
    ensures Summarises(g, rows + [food])
  {
    FoodsOfSnoc(rows, food, g.mealId);
  }

  /** The grouped list is the meal history of the rows: one entry per distinct meal id,
      holding exactly that meal's foods in input order and their summed amounts. */
  lemma {:induction false} GroupedIsMealHistory(rows: seq<FoodRow>)
    ensures IsMealHistory(Grouped(rows), rows)
  {
    if rows == [] {
      assert GroupIds([]) == {} && MealIdsOf([]) == {};
    } else {
      var front := rows[..|rows| - 1];
      GroupedIsMealHistory(front);
      GroupStepKeepsIds(Grouped(front), front, rows[|rows| - 1]);
      GroupStepKeepsSummaries(Grouped(front), front, rows[|rows| - 1]);
      assert front + [rows[|rows| - 1]] == rows;
    }
  }

  /** The grouping loop of `display_meal_history`, over the records it is given. It stops
      with `None` at the first record holding a NULL amount. */
  method GroupMeals(details: seq<MealDetail>) returns (meals: Option<seq<MealGroup>>)
    ensures meals.None? <==> Loaded(details).None?
    ensures meals.Some? ==> meals.value == Grouped(Loaded(details).value)
    ensures meals.Some? ==> IsMealHistory(meals.value, Loaded(details).value)
  {
    var grouped := [];
    for i := 0 to |details|
      invariant Loaded(details[..i]).Some?
      invariant grouped == Grouped(Loaded(details[..i]).value)
    {
      var detail := details[i];
      if detail.calories.None? || detail.protein.None? || detail.carbs.None? || detail.fat.None? {
        assert !HasAmounts(details[i]);
        return None;
      }
      var food := FoodOf(detail);
      ghost var rows := Loaded(details[..i]).value;
      assert details[..i + 1][..i] == details[..i];
      assert Loaded(details[..i + 1]).value == rows + [food];
      assert (rows + [food])[..|rows|] == rows;
      var k := IndexOfMeal(grouped, food.mealId);
      if k == |grouped| {
        grouped := grouped + [OpenMeal(food)];
      }
      grouped := grouped[k := AddFood(grouped[k], food)];
    }
    assert details[..|details|] == details;
    GroupedIsMealHistory(Loaded(details).value);
    meals := Some(grouped);
  }

  function MealTime(g: MealGroup): int { g.mealTime }

  /** `meals.sort(key=lambda x: x['meal_time'], reverse=True)`: newest first, no meal added
      or lost, and meals with the same time in the order they were grouped. */
  function NewestFirst(meals: seq<MealGroup>): (sorted: seq<MealGroup>)
    ensures SortedDesc(sorted, MealTime)
    ensures multiset(sorted) == multiset(meals)
    ensures forall t :: WithKey(sorted, MealTime, t) == WithKey(meals, MealTime, t)
  {
    var sorted := SortDesc(meals, MealTime);
    assert forall t :: WithKey(sorted, MealTime, t) == WithKey(meals, MealTime, t) by {
      forall t ensures WithKey(sorted, MealTime, t) == WithKey(meals, MealTime, t) {
        SortDescIsStable(meals, MealTime, t);
      }
    }
    sorted
  }

  // ---------------------------------------------------------------------------
  // Pagination

  const ItemsPerPage: nat := 5

  /** `len(meals) // 5 + (1 if len(meals) % 5 > 0 else 0)`: the pages needed for `n`
      meals, five to a page. */
  function TotalPages(n: nat): (pages: nat)
    ensures pages * ItemsPerPage >= n
    ensures pages > 0 ==> (pages - 1) * ItemsPerPage < n
  {
    n / ItemsPerPage + (if n % ItemsPerPage > 0 then 1 else 0)
  }

  /** `meals[start_idx:end_idx]` for page `page`: at most five meals, starting with the
      meal at position `page * 5`, empty past the end. */
  function PageOf<T>(meals: seq<T>, page: nat): (shown: seq<T>)
    ensures |shown| <= ItemsPerPage
    ensures forall k :: 0 <= k < |shown| ==> page * ItemsPerPage + k < |meals| &&
                                             shown[k] == meals[page * ItemsPerPage + k]
    ensures page * ItemsPerPage + ItemsPerPage <= |meals| ==> |shown| == ItemsPerPage
    ensures page * ItemsPerPage >= |meals| <==> shown == []
  {
    var start := page * ItemsPerPage;
    var end := Min(start + ItemsPerPage, |meals|);
    if start >= |meals| then [] else meals[start..end]
  }

  /** The pages together show every meal exactly once: meal `i` is on page `i / 5`. */
  lemma EveryMealOnItsPage<T>(meals: seq<T>, i: nat)
    requires i < |meals|
    ensures i / ItemsPerPage < TotalPages(|meals|)
    ensures PageOf(meals, i / ItemsPerPage)[i % ItemsPerPage] == meals[i]
  {
  }

  /** What the meal history shows: a notice without data, otherwise the page numbers and
      the meals of the current page; the notice of the outer `except` when grouping
      raises. */
  datatype HistoryView =
    | NoMealData
    | HistoryUnavailable
    | HistoryPage(page: nat, totalPages: nat, shown: seq<MealGroup>)

  // ---------------------------------------------------------------------------
  // Custom food form

  /** The outcome of submitting the custom food form. */
  datatype CustomFoodOutcome = NameRequired | Inserted(warned: bool)

  /** The energy the macros imply: 4 kcal per gram of protein and of carbohydrate, 9 per
      gram of fat. */
  function MacroCalories(protein: real, carbs: real, fat: real): real
  {
    protein * 4.0 + carbs * 4.0 + fat * 9.0
  }

  function Abs(x: real): real { if x < 0.0 then -x else x }

  /** `display_custom_food_form` on submit: an empty name stops with an error; otherwise
      the food is inserted, with a warning first when the stated calories are positive and
      more than 20 away from what the macros imply. */
  function SubmitCustomFood(name: string, calories: real, protein: real, carbs: real, fat: real)
    : (r: CustomFoodOutcome)
    ensures r == NameRequired <==> name == ""
    ensures r.Inserted? ==> (r.warned <==> calories > 0.0 && Abs(MacroCalories(protein, carbs, fat) - calories) > 20.0)
  {
    if name == "" then NameRequired
    else Inserted(calories > 0.0 && Abs(MacroCalories(protein, carbs, fat) - calories) > 20.0)
  }

  /** Calories that match the macros within 20 never draw the warning, and the warning
      never keeps a named food out. */
  lemma MatchingMacrosPassQuietly(name: string, calories: real, protein: real, carbs: real, fat: real)
    requires name != ""
    requires -20.0 <= calories - MacroCalories(protein, carbs, fat) <= 20.0
    ensures SubmitCustomFood(name, calories, protein, carbs, fat) == Inserted(false)
  {
  }

  // ---------------------------------------------------------------------------
  // Session state

  /** The page's keys of `st.session_state`; an absent key is `None`. */
  class MealSession {
    var currentMealId: Option<string>
    var showFoodSearch: Option<bool>
    var historyPage: Option<int>

    /** The history page, once set, is never negative. */
    predicate Valid()
      reads this
    {
      historyPage.Some? ==> historyPage.value >= 0
    }

    constructor()
      ensures currentMealId == None && showFoodSearch == None && historyPage == None
      ensures Valid()
    {
      currentMealId := None;
      showFoodSearch := None;
      historyPage := None;
    }

    /** Whether the food search section is shown. */
    predicate FoodSearchShown()
      reads this
    {
      showFoodSearch == Some(true)
    }

    /** "Create Meal": `created` is what `add_meal` returned. A created meal (a non-empty
        id) becomes the meal in progress and opens the food search; a failure (no id, or an
        empty one, which Python reads as false) changes nothing. */
    method CreateMeal(created: Option<string>)
      modifies this`currentMealId, this`showFoodSearch
      ensures created.Some? && created.value != "" ==> currentMealId == created && FoodSearchShown()
      ensures created.None? || created.value == "" ==>
        currentMealId == old(currentMealId) && showFoodSearch == old(showFoodSearch)
    {
      if created.Some? && created.value != "" {
        currentMealId := created;
        showFoodSearch := Some(true);
      }
    }

    /** "Finish Logging Meal": with a meal in progress both keys are removed and success is
        reported; otherwise nothing happens. */
    method FinishMeal() returns (finished: bool)
      modifies this`currentMealId, this`showFoodSearch
      ensures finished <==> old(currentMealId).Some?
      ensures finished ==> currentMealId == None && showFoodSearch == None
      ensures !finished ==> currentMealId == old(currentMealId) && showFoodSearch == old(showFoodSearch)
    {
      finished := false;
      if currentMealId.Some? {
        currentMealId := None;
        showFoodSearch := None;
        finished := true;
      }
    }

    /** "← Previous", disabled on the first page: one page back. */
    method PreviousPage()
      requires Valid() && historyPage.Some?
      modifies this`historyPage
      ensures Valid() && historyPage.Some?
      ensures old(historyPage.value) <= 0 ==> historyPage == old(historyPage)
      ensures old(historyPage.value) > 0 ==> historyPage.value == old(historyPage.value) - 1
    {
      if !(historyPage.value <= 0) {
        historyPage := Some(historyPage.value - 1);
      }
    }

    /** "Next →", disabled on the last page: one page forward. */
    method NextPage(totalPages: nat)
      requires Valid() && historyPage.Some?
      modifies this`historyPage
      ensures Valid() && historyPage.Some?
      ensures old(historyPage.value) >= totalPages - 1 ==> historyPage == old(historyPage)
      ensures old(historyPage.value) < totalPages - 1 ==> historyPage.value == old(historyPage.value) + 1
      ensures old(historyPage.value) < totalPages ==> historyPage.value < Max(totalPages, 1)
    {
      if !(historyPage.value >= totalPages - 1) {
        historyPage := Some(historyPage.value + 1);
      }
    }

    /** `display_meal_history` over the records of the chosen period: without records only
        a notice; a record with a NULL amount makes the grouping raise, which shows the
        notice of the outer `except` before the page key is touched; otherwise the records
        grouped by meal, newest first, and the current page (starting at the first page on
        the first visit). */
    method DisplayMealHistory(details: seq<MealDetail>) returns (view: HistoryView)
      requires Valid()
      modifies this`historyPage
      ensures Valid()
      ensures details == [] <==> view == NoMealData
      ensures view == HistoryUnavailable <==> details != [] && Loaded(details).None?
      ensures !view.HistoryPage? ==> historyPage == old(historyPage)
      ensures view.HistoryPage? ==> historyPage == Some(old(historyPage).GetOr(0))
      ensures view.HistoryPage? ==>
        Loaded(details).Some? &&
        var meals := NewestFirst(Grouped(Loaded(details).value));
        view.page == historyPage.value && view.totalPages == TotalPages(|meals|) &&
        view.shown == PageOf(meals, view.page)
    {
      if details == [] {
        return NoMealData;
      }
      var grouped := GroupMeals(details);
      if grouped.None? {
        return HistoryUnavailable;
      }
      var meals := NewestFirst(grouped.value);
      if historyPage.None? {
        historyPage := Some(0);
      }
      var totalPages := TotalPages(|meals|);
      var page: nat := historyPage.value;
      view := HistoryPage(page, totalPages, PageOf(meals, page));
    }
  }

  /** Reordering a list of meals keeps its set of meal ids. */
  lemma PermutationKeepsIds(a: seq<MealGroup>, b: seq<MealGroup>)
    requires multiset(a) == multiset(b)
    ensures GroupIds(a) == GroupIds(b)
  {
    forall id | id in GroupIds(a) ensures id in GroupIds(b) {
      var i :| 0 <= i < |a| && a[i].mealId == id;
      assert a[i] in multiset(b);
    }
    forall id | id in GroupIds(b) ensures id in GroupIds(a) {
      var i :| 0 <= i < |b| && b[i].mealId == id;
      assert b[i] in multiset(a);
    }
  }

  /** The newest-first history lists a meal exactly when some row belongs to it. */
  lemma NewestFirstKeepsMeals(rows: seq<FoodRow>)
    ensures GroupIds(NewestFirst(Grouped(rows))) == MealIdsOf(rows)
  {
    GroupedIsMealHistory(rows);
    PermutationKeepsIds(Grouped(rows), NewestFirst(Grouped(rows)));
  }
}
