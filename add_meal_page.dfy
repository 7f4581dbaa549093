/** The add-meal page (`add_meal.py`): the day's macro totals, the check of the form, and
    the creation of a meal with one serving of each selected food, against the store of
    `data_fetcher.py`. */
module AddMealPage {
  import opened Basics
  import opened Text
  import opened Goals
  import opened NutritionRecords
  import opened NutritionStore

  /** The macro amounts of one of today's meals, as `get_user_meals` reports them. */
  datatype Macros = Macros(fat: real, protein: real, carbs: real)

  function Plus(a: Macros, b: Macros): Macros
  {
    Macros(a.fat + b.fat, a.protein + b.protein, a.carbs + b.carbs)
  }

  /** The totals of fat, protein and carbohydrate over the meals. */
  function SumMacros(meals: seq<Macros>): Macros
  {
    if meals == [] then Macros(0.0, 0.0, 0.0) else Plus(SumMacros(meals[..|meals| - 1]), meals[|meals| - 1])
  }

  /** The totals of two lists of meals together are the sum of their totals. */
  lemma {:induction false} SumMacrosAppend(a: seq<Macros>, b: seq<Macros>)
    ensures SumMacros(a + b) == Plus(SumMacros(a), SumMacros(b))
    decreases |b|
  {
    if b == [] {
      assert a + b == a;
    } else {
      assert (a + b)[..|a + b| - 1] == a + b[..|b| - 1];
      SumMacrosAppend(a, b[..|b| - 1]);
    }
  }

  /** The loop adding up the macros of today's meals. */
  method MacroTotals(meals: seq<Macros>) returns (fats: real, protein: real, carbs: real)
    ensures Macros(fats, protein, carbs) == SumMacros(meals)
  {
    fats, protein, carbs := 0.0, 0.0, 0.0;
    for i := 0 to |meals|
      invariant Macros(fats, protein, carbs) == SumMacros(meals[..i])
    {
      assert meals[..i + 1][..i] == meals[..i];
      fats := fats + meals[i].fat;
      protein := protein + meals[i].protein;
      carbs := carbs + meals[i].carbs;
    }
    assert meals[..|meals|] == meals;
  }

  /** The placeholder of the meal-type box. */
  const NoMealType: string := "Select"

  /** The quantity each selected food is added with. */
  const OneServing: real := 1.0

  /** The MealFoods rows the add-food loop stores: one serving of each selected food that
      is in the catalogue, in selection order. */
  function AddedFoods(foods: seq<FoodItem>, mealId: string, selected: seq<string>): seq<MealFood>
  {
    if selected == [] then []
    else
      var found := FoodById(foods, selected[|selected| - 1]);
      AddedFoods(foods, mealId, selected[..|selected| - 1]) +
        (if found.Some? then [Scaled(found.value, mealId, OneServing)] else [])
  }

  predicate AllInCatalogue(foods: seq<FoodItem>, selected: seq<string>)
  {
    forall k :: 0 <= k < |selected| ==> FoodById(foods, selected[k]).Some?
  }

  /** When every selected food is in the catalogue, the meal gets exactly one serving of
      each, in selection order, with the per-serving values. */
  lemma {:induction false} AllFoundAddsEach(foods: seq<FoodItem>, mealId: string, selected: seq<string>)
    requires AllInCatalogue(foods, selected)
    ensures |AddedFoods(foods, mealId, selected)| == |selected|
    ensures forall k :: 0 <= k < |selected| ==>
      AddedFoods(foods, mealId, selected)[k] == Scaled(FoodById(foods, selected[k]).value, mealId, OneServing)
  {
    if selected != [] {
      var front := selected[..|selected| - 1];
      assert AllInCatalogue(foods, front) by {
        forall k | 0 <= k < |front| ensures FoodById(foods, front[k]).Some? {
          assert front[k] == selected[k];
        }
      }
      AllFoundAddsEach(foods, mealId, front);
    }
  }

  /** What pressing "Save" leads to. */
  datatype SaveOutcome =
    | NotPressed
    | SelectionIncomplete
    | MealSaved(mealId: string, allFoodsAdded: bool)

  /** The page: a warning without a goal, otherwise the macro chart and the form. */
  datatype AddMealView =
    | NoGoalSet
    | AddMealForm(macros: Macros, outcome: SaveOutcome)

  /** `show` on `today`: `currentMeals` is what `get_user_meals` returns, `mealType`,
      `selected` (the chosen foods' ids) and `mealName` the form's values. A save with a
      meal type and at least one food creates the meal with the lower-cased type and adds
      one serving of each food; it succeeds exactly when every food was added. */
  method Show(db: NutritionDb, user: string, today: Day, currentMeals: seq<Macros>, mealType: string,
              selected: seq<string>, mealName: string, savePressed: bool, now: Seconds,
              newMealId: string, newProgressId: string)
    returns (view: AddMealView)
    modifies db`meals, db`mealFoods, db`progress
    ensures view == NoGoalSet <==> ActiveGoal(db.goals, user, today).None?
    ensures view.AddMealForm? ==> view.macros == SumMacros(currentMeals)
    ensures view.AddMealForm? ==>
      (view.outcome == NotPressed <==> !savePressed) &&
      (view.outcome == SelectionIncomplete <==> savePressed && (mealType == NoMealType || selected == []))
    ensures !view.AddMealForm? || !view.outcome.MealSaved? ==>
      db.meals == old(db.meals) && db.mealFoods == old(db.mealFoods) && db.progress == old(db.progress)
    ensures view.AddMealForm? && view.outcome.MealSaved? ==>
      view.outcome.mealId == newMealId &&
      db.meals == old(db.meals) + [Meal(newMealId, user, Lower(mealType), if mealName == "" then None else Some(mealName), now)] &&
      db.mealFoods == old(db.mealFoods) + AddedFoods(db.foods, newMealId, selected) &&
      (view.outcome.allFoodsAdded <==> AllInCatalogue(db.foods, selected))
  {
    if ActiveGoal(db.goals, user, today).None? {
      return NoGoalSet;
    }
    var fats, protein, carbs := MacroTotals(currentMeals);
    var macros := Macros(fats, protein, carbs);
    if !savePressed {
      return AddMealForm(macros, NotPressed);
    }
    if mealType == NoMealType || selected == [] {
      return AddMealForm(macros, SelectionIncomplete);
    }
    var name := if mealName == "" then None else Some(mealName);
    var created := db.AddMeal(user, Lower(mealType), name, None, now, newMealId);
    var mealId := created.value;
    var success := AddSelectedFoods(db, mealId, selected, now, newProgressId);
    view := AddMealForm(macros, MealSaved(mealId, success));
  }

  /** The add-food loop of `show`: one serving of each selected food; `success` stays true
      exactly while every add succeeds. */
  method AddSelectedFoods(db: NutritionDb, mealId: string, selected: seq<string>, now: Seconds,
                          newProgressId: string)
    returns (success: bool)
    modifies db`mealFoods, db`progress
    ensures db.mealFoods == old(db.mealFoods) + AddedFoods(db.foods, mealId, selected)
    ensures success <==> AllInCatalogue(db.foods, selected)
  {
    success := true;
    for i := 0 to |selected|
      invariant db.mealFoods == old(db.mealFoods) + AddedFoods(db.foods, mealId, selected[..i])
      invariant success <==> AllInCatalogue(db.foods, selected[..i])
    {
      assert selected[..i + 1][..i] == selected[..i];
      CatalogueStep(db.foods, selected, i);
      var added := db.AddFoodToMeal(mealId, selected[i], OneServing, now, newProgressId);
      if !added {
        success := false;
      }
    }
    assert selected[..|selected|] == selected;
  }

  lemma CatalogueStep(foods: seq<FoodItem>, selected: seq<string>, i: nat)
    requires i < |selected|
    ensures AllInCatalogue(foods, selected[..i + 1]) <==>
            AllInCatalogue(foods, selected[..i]) && FoodById(foods, selected[i]).Some?
  {
    assert selected[..i + 1][i] == selected[i];
    assert forall k :: 0 <= k < i ==> selected[..i + 1][k] == selected[..i][k];
  }
}
