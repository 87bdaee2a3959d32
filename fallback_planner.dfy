/**
 * `generateFallbackMealPlan` of the server meal-plan route: filter each slot,
 * fall back to the slot catalog when nothing survives, and fill seven days
 * round-robin from the option lists.
 */
module FallbackPlanner {
  import opened Common
  import opened Text
  import opened Recipes
  import opened RecipeFilter
  import opened PlanAssembler

  /** Day `i` of the deterministic plan: option `i mod n` of each slot, Breakfast, Lunch, Dinner. */
  function FallbackDay(i: nat, b: seq<Recipe>, l: seq<Recipe>, d: seq<Recipe>, proteinRequired: real): (day: DayPlan)
    requires i < 7 && |b| > 0 && |l| > 0 && |d| > 0
    ensures TotalsConsistent(day, proteinRequired)
  {
    var meals := [Meal("Breakfast", b[i % |b|]), Meal("Lunch", l[i % |l|]), Meal("Dinner", d[i % |d|])];
    var t := MealTotals(meals);
    DayPlan(DayNames[i], i + 1, meals, t.protein, t.calories, t.carbs, t.fats, t.protein >= proteinRequired)
  }

  /** The seven days the loop of `generateFallbackMealPlan` pushes. */
  function FallbackWeek(b: seq<Recipe>, l: seq<Recipe>, d: seq<Recipe>, proteinRequired: real): (week: seq<DayPlan>)
    requires |b| > 0 && |l| > 0 && |d| > 0
    ensures |week| == 7
    ensures forall i :: 0 <= i < 7 ==>
      && week[i].day == DayNames[i]
      && week[i].dayNumber == i + 1
      && week[i].meals == [Meal("Breakfast", b[i % |b|]), Meal("Lunch", l[i % |l|]), Meal("Dinner", d[i % |d|])]
      && TotalsConsistent(week[i], proteinRequired)
  {
    seq(7, i requires 0 <= i < 7 => FallbackDay(i, b, l, d, proteinRequired))
  }

  /** The `for (let i = 0; i < 7; i++) { ... weeklyPlan.push(...) }` loop. */
  method BuildWeeklyPlan(b: seq<Recipe>, l: seq<Recipe>, d: seq<Recipe>, proteinRequired: real)
    returns (weeklyPlan: seq<DayPlan>)
    requires |b| > 0 && |l| > 0 && |d| > 0
    ensures weeklyPlan == FallbackWeek(b, l, d, proteinRequired)
  {
    weeklyPlan := [];
    for i := 0 to 7
      invariant weeklyPlan == FallbackWeek(b, l, d, proteinRequired)[..i]
    {
      var breakfast := b[i % |b|];
      var lunch := l[i % |l|];
      var dinner := d[i % |d|];
      var dayMeals := [Meal("Breakfast", breakfast), Meal("Lunch", lunch), Meal("Dinner", dinner)];
      var totals := MealTotals(dayMeals);
      weeklyPlan := weeklyPlan + [DayPlan(DayNames[i], i + 1, dayMeals, totals.protein, totals.calories,
                                          totals.carbs, totals.fats, totals.protein >= proteinRequired)];
    }
  }

  /**
   * The answer of the deterministic path. An unreadable request body leaves
   * nothing to destructure, and an empty slot catalog makes the meal of that
   * slot `undefined`; both throw, and the answer is the generic failure.
   */
  function FallbackPlan(request: Option<MealPlanRequest>, catalog: Catalog): Response {
    match request
    case None => Failed(FailureMessage)
    case Some(req) =>
      var b := SlotOptions(req.dietaryPreferences, catalog.breakfast);
      var l := SlotOptions(req.dietaryPreferences, catalog.lunch);
      var d := SlotOptions(req.dietaryPreferences, catalog.dinner);
      if |b| == 0 || |l| == 0 || |d| == 0 then Failed(FailureMessage)
      else FormatMealPlanResponse(FallbackWeek(b, l, d, req.proteinRequired), req)
  }

  /** `generateFallbackMealPlan(requestData)` with the recipe catalog passed in. */
  method GenerateFallbackMealPlan(request: Option<MealPlanRequest>, catalog: Catalog) returns (r: Response)
    ensures r == FallbackPlan(request, catalog)
  {
    if request.None? {
      return Failed(FailureMessage);
    }
    var req := request.value;
    var breakfastOptions := SlotOptions(req.dietaryPreferences, catalog.breakfast);
    var lunchOptions := SlotOptions(req.dietaryPreferences, catalog.lunch);
    var dinnerOptions := SlotOptions(req.dietaryPreferences, catalog.dinner);
    if |breakfastOptions| == 0 || |lunchOptions| == 0 || |dinnerOptions| == 0 {
      return Failed(FailureMessage);
    }
    var weeklyPlan := BuildWeeklyPlan(breakfastOptions, lunchOptions, dinnerOptions, req.proteinRequired);
    r := FormatMealPlanResponse(weeklyPlan, req);
  }

  /**
   * The deterministic answer fails only for an unreadable request or an empty
   * slot catalog. Otherwise it has exactly seven days, Monday to Sunday,
   * numbered 1 to 7, whose meals are, in slot order, option `i mod n` of each
   * slot's option list, with consistent totals.
   */
  lemma FallbackPlanShape(request: Option<MealPlanRequest>, catalog: Catalog)
    ensures FallbackPlan(request, catalog).Failed? <==>
      request.None? || |catalog.breakfast| == 0 || |catalog.lunch| == 0 || |catalog.dinner| == 0
    ensures request.Some? && FallbackPlan(request, catalog).Planned? ==>
      var req := request.value;
      var r := FallbackPlan(request, catalog);
      var b := SlotOptions(req.dietaryPreferences, catalog.breakfast);
      var l := SlotOptions(req.dietaryPreferences, catalog.lunch);
      var d := SlotOptions(req.dietaryPreferences, catalog.dinner);
      && |r.weeklyPlan| == 7
      && forall i :: 0 <= i < 7 ==>
        && r.weeklyPlan[i].day == DayNames[i]
        && r.weeklyPlan[i].dayNumber == i + 1
        && r.weeklyPlan[i].meals == [Meal("Breakfast", b[i % |b|]), Meal("Lunch", l[i % |l|]), Meal("Dinner", d[i % |d|])]
        && TotalsConsistent(r.weeklyPlan[i], req.proteinRequired)
  {
    if request.Some? && |catalog.breakfast| > 0 && |catalog.lunch| > 0 && |catalog.dinner| > 0 {
      var req := request.value;
      var b := SlotOptions(req.dietaryPreferences, catalog.breakfast);
      var l := SlotOptions(req.dietaryPreferences, catalog.lunch);
      var d := SlotOptions(req.dietaryPreferences, catalog.dinner);
      FormatKeepsConsistentDays(FallbackWeek(b, l, d, req.proteinRequired), req);
    }
  }

  /** No meal of the plan has an ingredient mentioning egg. */
  predicate EggFree(plan: seq<DayPlan>) {
    forall i, j :: 0 <= i < |plan| && 0 <= j < |plan[i].meals| ==>
      !AnyMentions(plan[i].meals[j].recipe.ingredients, "egg")
  }

  /**
   * Under "vegetarian" (without "non-vegetarian"), when every slot has at least
   * one recipe passing the filter, no meal of the deterministic plan has an
   * ingredient mentioning egg.
   */
  lemma VegetarianFallbackIsEggFree(req: MealPlanRequest, catalog: Catalog)
    requires Vegetarian in req.dietaryPreferences && NonVegetarian !in req.dietaryPreferences
    requires |FilterRecipes(req.dietaryPreferences, catalog.breakfast)| > 0
    requires |FilterRecipes(req.dietaryPreferences, catalog.lunch)| > 0
    requires |FilterRecipes(req.dietaryPreferences, catalog.dinner)| > 0
    ensures FallbackPlan(Some(req), catalog).Planned?
    ensures EggFree(FallbackPlan(Some(req), catalog).weeklyPlan)
  {
    var prefs := req.dietaryPreferences;
    var b := SlotOptions(prefs, catalog.breakfast);
    var l := SlotOptions(prefs, catalog.lunch);
    var d := SlotOptions(prefs, catalog.dinner);
    SlotEggFree(prefs, catalog.breakfast);
    SlotEggFree(prefs, catalog.lunch);
    SlotEggFree(prefs, catalog.dinner);
    FallbackPlanShape(Some(req), catalog);
    var plan := FallbackPlan(Some(req), catalog).weeklyPlan;
    forall i, j | 0 <= i < |plan| && 0 <= j < |plan[i].meals|
      ensures !AnyMentions(plan[i].meals[j].recipe.ingredients, "egg")
    {
      assert plan[i].meals == [Meal("Breakfast", b[i % |b|]), Meal("Lunch", l[i % |l|]), Meal("Dinner", d[i % |d|])];
      var m := plan[i].meals[j].recipe;
      assert m in b || m in l || m in d;
    }
  }

  /** A vegetarian slot with a surviving recipe offers only recipes without an egg ingredient. */
  lemma SlotEggFree(prefs: seq<string>, recipes: seq<Recipe>)
    requires Vegetarian in prefs && NonVegetarian !in prefs
    requires |FilterRecipes(prefs, recipes)| > 0
    ensures SlotOptions(prefs, recipes) == FilterRecipes(prefs, recipes)
    ensures forall x :: x in SlotOptions(prefs, recipes) ==> !AnyMentions(x.ingredients, "egg")
  {
    VegetarianBranch(prefs, recipes);
  }

  /**
   * The empty-result fallback overrides the vegetarian rule: when no breakfast
   * survives the filter, Monday's breakfast is the first catalog breakfast,
   * egg-bearing or not.
   */
  lemma VegetarianFallbackCanServeEgg(req: MealPlanRequest, catalog: Catalog)
    requires Vegetarian in req.dietaryPreferences
    requires |catalog.breakfast| > 0 && |catalog.lunch| > 0 && |catalog.dinner| > 0
    requires FilterRecipes(req.dietaryPreferences, catalog.breakfast) == []
    requires AnyMentions(catalog.breakfast[0].ingredients, "egg")
    ensures FallbackPlan(Some(req), catalog).Planned?
    ensures !EggFree(FallbackPlan(Some(req), catalog).weeklyPlan)
  {
    FallbackPlanShape(Some(req), catalog);
    var plan := FallbackPlan(Some(req), catalog).weeklyPlan;
    var b := SlotOptions(req.dietaryPreferences, catalog.breakfast);
    assert b == catalog.breakfast;
    assert plan[0].meals[0] == Meal("Breakfast", b[0 % |b|]);
  }
}
