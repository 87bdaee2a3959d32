/**
 * `formatMealPlanResponse` of the server meal-plan route: recompute every
 * day's totals from its meals, then the weekly totals and daily averages.
 */
module PlanAssembler {
  import opened Common
  import opened JsNumber
  import opened Recipes

  /** The four `meals.reduce((sum, meal) => sum + meal.nutrition.x, 0)` sums, folded left to right. */
  function MealTotals(meals: seq<Meal>): Nutrition
  {
    if meals == [] then NoNutrition
    else AddNutrition(MealTotals(meals[..|meals| - 1]), meals[|meals| - 1].recipe.nutrition)
  }

  /** The stored totals of `d` are the sums over its meals, and `achieved` says the protein sum reaches the target. */
  predicate TotalsConsistent(d: DayPlan, proteinRequired: real) {
    var t := MealTotals(d.meals);
    && d.totalProtein == t.protein
    && d.totalCalories == t.calories
    && d.totalCarbs == t.carbs
    && d.totalFats == t.fats
    && (d.achieved <==> t.protein >= proteinRequired)
  }

  /** `{ ...day, totalProtein, totalCalories, totalCarbs, totalFats, achieved }`. */
  function RecomputeTotals(d: DayPlan, proteinRequired: real): (r: DayPlan)
    ensures r.day == d.day && r.dayNumber == d.dayNumber && r.meals == d.meals
    ensures TotalsConsistent(r, proteinRequired)
  {
    var t := MealTotals(d.meals);
    d.(totalProtein := t.protein, totalCalories := t.calories, totalCarbs := t.carbs,
       totalFats := t.fats, achieved := t.protein >= proteinRequired)
  }

  /** `weeklyPlan.reduce((sum, day) => sum + day.totalProtein, 0)`. */
  function WeeklyProtein(days: seq<DayPlan>): real {
    if days == [] then 0.0 else WeeklyProtein(days[..|days| - 1]) + days[|days| - 1].totalProtein
  }

  /** `weeklyPlan.reduce((sum, day) => sum + day.totalCalories, 0)`. */
  function WeeklyCalories(days: seq<DayPlan>): real {
    if days == [] then 0.0 else WeeklyCalories(days[..|days| - 1]) + days[|days| - 1].totalCalories
  }

  /** The preferences echoed in the answer: as requested, or `["all"]` when none were. */
  function EchoedPreferences(prefs: seq<string>): (echo: seq<string>)
    ensures |echo| > 0
    ensures |prefs| > 0 ==> echo == prefs
    ensures |prefs| == 0 ==> echo == ["all"]
  {
    if |prefs| > 0 then prefs else ["all"]
  }

  /**
   * `formatMealPlanResponse`: every day keeps its name, number and meals, its
   * totals are overwritten with the sums over its meals (whatever the provider
   * reported), `achieved` holds iff the protein sum is at least the target,
   * and the averages are the rounded weekly sums over seven days.
   */
  function FormatMealPlanResponse(days: seq<DayPlan>, req: MealPlanRequest): (r: Response)
    ensures r.Planned?
    ensures |r.weeklyPlan| == |days|
    ensures forall i :: 0 <= i < |days| ==>
      && r.weeklyPlan[i].day == days[i].day
      && r.weeklyPlan[i].dayNumber == days[i].dayNumber
      && r.weeklyPlan[i].meals == days[i].meals
      && TotalsConsistent(r.weeklyPlan[i], req.proteinRequired)
    ensures r.weeklyTotalProtein == WeeklyProtein(r.weeklyPlan)
    ensures r.weeklyTotalCalories == WeeklyCalories(r.weeklyPlan)
    ensures r.averageDailyProtein as real - 0.5 <= r.weeklyTotalProtein / 7.0 < r.averageDailyProtein as real + 0.5
    ensures r.averageDailyCalories as real - 0.5 <= r.weeklyTotalCalories / 7.0 < r.averageDailyCalories as real + 0.5
    ensures r.proteinRequired == req.proteinRequired
    ensures r.dietaryPreferences == EchoedPreferences(req.dietaryPreferences)
  {
    var weeklyPlan := seq(|days|, i requires 0 <= i < |days| => RecomputeTotals(days[i], req.proteinRequired));
    var weeklyTotalProtein := WeeklyProtein(weeklyPlan);
    var weeklyTotalCalories := WeeklyCalories(weeklyPlan);
    Planned(
      weeklyPlan,
      req.proteinRequired,
      Round(weeklyTotalProtein / 7.0),
      Round(weeklyTotalCalories / 7.0),
      weeklyTotalProtein,
      weeklyTotalCalories,
      EchoedPreferences(req.dietaryPreferences))
  }

  /** A plan whose stored totals are already consistent passes through unchanged. */
  lemma FormatKeepsConsistentDays(days: seq<DayPlan>, req: MealPlanRequest)
    requires forall i :: 0 <= i < |days| ==> TotalsConsistent(days[i], req.proteinRequired)
    ensures FormatMealPlanResponse(days, req).weeklyPlan == days
  {
    var out := FormatMealPlanResponse(days, req).weeklyPlan;
    forall i | 0 <= i < |days|
      ensures out[i] == days[i]
    {
      assert out[i] == RecomputeTotals(days[i], req.proteinRequired);
    }
  }

  /** Formatting an already formatted plan gives the same answer again. */
  lemma FormatIdempotent(days: seq<DayPlan>, req: MealPlanRequest)
    ensures FormatMealPlanResponse(FormatMealPlanResponse(days, req).weeklyPlan, req)
         == FormatMealPlanResponse(days, req)
  {
    var once := FormatMealPlanResponse(days, req);
    FormatKeepsConsistentDays(once.weeklyPlan, req);
  }

  /** Every meal of the week, day after day. */
  function AllMeals(days: seq<DayPlan>): seq<Meal> {
    if days == [] then [] else AllMeals(days[..|days| - 1]) + days[|days| - 1].meals
  }

  /** The meal sums split over a concatenation. */
  lemma {:induction false} MealTotalsAppend(xs: seq<Meal>, ys: seq<Meal>)
    ensures MealTotals(xs + ys) == AddNutrition(MealTotals(xs), MealTotals(ys))
    decreases |ys|
  {
    if ys == [] {
      assert xs + ys == xs;
    } else {
      var front := ys[..|ys| - 1];
      assert (xs + ys)[..|xs + ys| - 1] == xs + front;
      assert (xs + ys)[|xs + ys| - 1] == ys[|ys| - 1];
      MealTotalsAppend(xs, front);
    }
  }

  /**
   * For days whose stored totals are consistent, the weekly protein and
   * calorie totals are the sums over every meal of the week at once.
   */
  lemma {:induction false} WeeklyTotalsAreMealSums(days: seq<DayPlan>, req: MealPlanRequest)
    requires forall i :: 0 <= i < |days| ==> TotalsConsistent(days[i], req.proteinRequired)
    ensures WeeklyProtein(days) == MealTotals(AllMeals(days)).protein
    ensures WeeklyCalories(days) == MealTotals(AllMeals(days)).calories
  {
    if days != [] {
      var front := days[..|days| - 1];
      var last := days[|days| - 1];
      var earlier := AllMeals(front);
      WeeklyTotalsAreMealSums(front, req);
      assert TotalsConsistent(last, req.proteinRequired);
      assert AllMeals(days) == earlier + last.meals;
      MealTotalsAppend(earlier, last.meals);
      var sums := MealTotals(earlier + last.meals);
      assert sums == AddNutrition(MealTotals(earlier), MealTotals(last.meals));
      assert WeeklyProtein(days) == WeeklyProtein(front) + last.totalProtein;
      assert WeeklyCalories(days) == WeeklyCalories(front) + last.totalCalories;
    }
  }
}
