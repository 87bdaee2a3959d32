/**
 * Data model shared by the server meal-plan route: catalog recipes, the meals
 * and days of a weekly plan, the request it answers and the response it sends.
 */
module Recipes {
  import opened Common

  /** Nutrition facts of one recipe (grams, and kcal for calories). */
  datatype Nutrition = Nutrition(protein: real, calories: real, carbs: real, fats: real)

  const NoNutrition := Nutrition(0.0, 0.0, 0.0, 0.0)

  /** Component-wise sum of two nutrition records. */
  function AddNutrition(a: Nutrition, b: Nutrition): Nutrition {
    Nutrition(a.protein + b.protein, a.calories + b.calories, a.carbs + b.carbs, a.fats + b.fats)
  }

  /**
   * A catalog entry. A recipe without a `dietary` list is represented with
   * an empty one; every branch of the dietary filter treats the two alike.
   */
  datatype Recipe = Recipe(
    recipeName: string,
    milkyMistProduct: string,
    ingredients: seq<string>,
    steps: seq<string>,
    nutrition: Nutrition,
    dietary: seq<string>)

  /** A recipe placed in a meal slot (`{ type, ...recipe }`). */
  datatype Meal = Meal(mealType: string, recipe: Recipe)

  /** One day of a weekly plan, with the totals stored beside its meals. */
  datatype DayPlan = DayPlan(
    day: string,
    dayNumber: int,
    meals: seq<Meal>,
    totalProtein: real,
    totalCalories: real,
    totalCarbs: real,
    totalFats: real,
    achieved: bool)

  /** The static recipe catalog, one list per meal slot. */
  datatype Catalog = Catalog(breakfast: seq<Recipe>, lunch: seq<Recipe>, dinner: seq<Recipe>)

  /**
   * The fields of the request body the planner reads; an absent
   * `dietaryPreferences` is the empty list.
   */
  datatype MealPlanRequest = MealPlanRequest(proteinRequired: real, dietaryPreferences: seq<string>)

  /** The JSON body of the answer: a plan (status 200) or the generic failure (status 500). */
  datatype Response =
    | Planned(
        weeklyPlan: seq<DayPlan>,
        proteinRequired: real,
        averageDailyProtein: int,
        averageDailyCalories: int,
        weeklyTotalProtein: real,
        weeklyTotalCalories: real,
        dietaryPreferences: seq<string>)
    | Failed(error: string)

  const FailureMessage := "Failed to generate meal plan"

  const MealTypes: seq<string> := ["Breakfast", "Lunch", "Dinner"]
}
