/**
 * The first-generation server planner: one recipe per slot, the one whose
 * protein lies closest to a third of the daily requirement.
 */
module BackendPlan {
  import opened Common

  /** The part of a catalog recipe this planner reads. */
  datatype Recipe = Recipe(recipeName: string, protein: real)

  /** A chosen recipe tagged with its slot (`{ type: 'Breakfast', ...breakfast }`). */
  datatype Meal = Meal(mealType: string, recipe: Recipe)

  /** The catalog, one list per meal slot. */
  datatype Catalog = Catalog(breakfast: seq<Recipe>, lunch: seq<Recipe>, dinner: seq<Recipe>)

  /** The JSON answer: the plan (`success: true`) or the generic failure (status 500). */
  datatype Response =
    | Planned(totalProtein: real, proteinRequired: real, achieved: bool, meals: seq<Meal>)
    | Failed(error: string)

  const FailureMessage := "Failed to generate meal plan"

  /** `Math.abs`. */
  function Abs(x: real): (a: real)
    ensures a >= 0.0 && (a == x || a == -x)
  {
    if x < 0.0 then -x else x
  }

  /** How far a recipe's protein lies from the target. */
  function Distance(r: Recipe, target: real): real {
    Abs(r.protein - target)
  }

  /**
   * The `reduce` in `selectBestRecipe`, carried as an index: `best` is the
   * accumulator after the first `i` elements, and element `i` replaces it
   * only when strictly closer.
   */
  function ReduceClosest(recipes: seq<Recipe>, target: real, best: nat, i: nat): (k: nat)
    requires best < i <= |recipes|
    requires forall j :: 0 <= j < i ==> Distance(recipes[best], target) <= Distance(recipes[j], target)
    requires forall j :: 0 <= j < best ==> Distance(recipes[best], target) < Distance(recipes[j], target)
    ensures k < |recipes|
    ensures forall j :: 0 <= j < |recipes| ==> Distance(recipes[k], target) <= Distance(recipes[j], target)
    ensures forall j :: 0 <= j < k ==> Distance(recipes[k], target) < Distance(recipes[j], target)
    decreases |recipes| - i
  {
    if i == |recipes| then best
    else if Distance(recipes[i], target) < Distance(recipes[best], target) then
      ReduceClosest(recipes, target, i, i + 1)
    else
      ReduceClosest(recipes, target, best, i + 1)
  }

  /**
   * `selectBestRecipe(recipes, target)`: `None` stands for the `TypeError`
   * that `reduce` without an initial value throws on an empty list.
   */
  function SelectBestRecipe(recipes: seq<Recipe>, target: real): (r: Option<Recipe>)
    ensures r.None? <==> |recipes| == 0
    ensures r.Some? ==> r.value in recipes
    ensures r.Some? ==> forall x :: x in recipes ==> Distance(r.value, target) <= Distance(x, target)
  {
    if |recipes| == 0 then None else Some(recipes[ReduceClosest(recipes, target, 0, 1)])
  }

  /**
   * On ties the earliest recipe wins: whatever recipe sits at the first
   * index of minimal distance is the one selected.
   */
  lemma SelectBestIsFirstClosest(recipes: seq<Recipe>, target: real, k: nat)
    requires k < |recipes|
    requires forall j :: 0 <= j < |recipes| ==> Distance(recipes[k], target) <= Distance(recipes[j], target)
    requires forall j :: 0 <= j < k ==> Distance(recipes[k], target) < Distance(recipes[j], target)
    ensures SelectBestRecipe(recipes, target) == Some(recipes[k])
  {
    var m := ReduceClosest(recipes, target, 0, 1);
    assert Distance(recipes[m], target) == Distance(recipes[k], target);
    assert m == k;
  }

  /** Two recipes equally far from the target: the first one is kept. */
  lemma TieKeepsFirst()
    ensures SelectBestRecipe([Recipe("Paneer Bowl", 10.0), Recipe("Skyr Parfait", 30.0)], 20.0)
         == Some(Recipe("Paneer Bowl", 10.0))
  {
    var recipes := [Recipe("Paneer Bowl", 10.0), Recipe("Skyr Parfait", 30.0)];
    assert Distance(recipes[0], 20.0) == Distance(recipes[1], 20.0) == 10.0;
    SelectBestIsFirstClosest(recipes, 20.0, 0);
  }

  /** `meals.reduce((sum, meal) => sum + meal.protein, 0)`. */
  function SumProtein(meals: seq<Meal>): real {
    if meals == [] then 0.0 else SumProtein(meals[..|meals| - 1]) + meals[|meals| - 1].recipe.protein
  }

  /** The fold over three meals adds their proteins in order. */
  lemma SumOfThree(meals: seq<Meal>)
    requires |meals| == 3
    ensures SumProtein(meals) == meals[0].recipe.protein + meals[1].recipe.protein + meals[2].recipe.protein
  {
    assert meals[..2][..1] == [meals[0]];
    assert meals[..2] == [meals[0], meals[1]];
    assert SumProtein([meals[0]]) == meals[0].recipe.protein by {
      assert [meals[0]][..0] == [];
    }
  }

  /**
   * `POST` of the first-generation planner: `None` for the request stands
   * for a body that cannot be read, which the handler turns into the failure.
   */
  function Post(proteinRequired: Option<real>, catalog: Catalog): (r: Response)
    ensures r.Failed? <==>
      proteinRequired.None? || |catalog.breakfast| == 0 || |catalog.lunch| == 0 || |catalog.dinner| == 0
    ensures r.Failed? ==> r.error == FailureMessage
    ensures r.Planned? ==>
      && r.proteinRequired == proteinRequired.value
      && |r.meals| == 3
      && r.meals[0].mealType == "Breakfast" && r.meals[0].recipe in catalog.breakfast
      && r.meals[1].mealType == "Lunch" && r.meals[1].recipe in catalog.lunch
      && r.meals[2].mealType == "Dinner" && r.meals[2].recipe in catalog.dinner
      && r.totalProtein == r.meals[0].recipe.protein + r.meals[1].recipe.protein + r.meals[2].recipe.protein
      && (r.achieved <==> r.totalProtein >= r.proteinRequired)
    ensures r.Planned? ==>
      var target := r.proteinRequired / 3.0;
      && (forall x :: x in catalog.breakfast ==> Distance(r.meals[0].recipe, target) <= Distance(x, target))
      && (forall x :: x in catalog.lunch ==> Distance(r.meals[1].recipe, target) <= Distance(x, target))
      && (forall x :: x in catalog.dinner ==> Distance(r.meals[2].recipe, target) <= Distance(x, target))
  {
    if proteinRequired.None? then Failed(FailureMessage)
    else
      var target := proteinRequired.value / 3.0;
      var breakfast := SelectBestRecipe(catalog.breakfast, target);
      var lunch := SelectBestRecipe(catalog.lunch, target);
      var dinner := SelectBestRecipe(catalog.dinner, target);
      if breakfast.None? || lunch.None? || dinner.None? then Failed(FailureMessage)
      else
        var meals := [Meal("Breakfast", breakfast.value), Meal("Lunch", lunch.value), Meal("Dinner", dinner.value)];
        var total := SumProtein(meals);
        SumOfThree(meals);
        Planned(total, proteinRequired.value, total >= proteinRequired.value, meals)
  }

  /**
   * When every slot offers a recipe with exactly a third of the requirement,
   * those are chosen, the total equals the requirement and the plan is achieved.
   */
  lemma ExactThirdsAchieve(proteinRequired: real, catalog: Catalog, b: Recipe, l: Recipe, d: Recipe)
    requires b in catalog.breakfast && l in catalog.lunch && d in catalog.dinner
    requires b.protein == l.protein == d.protein == proteinRequired / 3.0
    ensures Post(Some(proteinRequired), catalog).Planned?
    ensures Post(Some(proteinRequired), catalog).totalProtein == proteinRequired
    ensures Post(Some(proteinRequired), catalog).achieved
  {
    var r := Post(Some(proteinRequired), catalog);
    var target := proteinRequired / 3.0;
    assert Distance(b, target) == 0.0 && Distance(l, target) == 0.0 && Distance(d, target) == 0.0;
    assert r.meals[0].recipe.protein == target;
    assert r.meals[1].recipe.protein == target;
    assert r.meals[2].recipe.protein == target;
  }
}
