/**
 * The dietary filter of the server meal-plan route and the per-slot option
 * lists built from it.
 */
module RecipeFilter {
  import opened Common
  import opened Text
  import opened Recipes

  const NonVegetarian := "non-vegetarian"
  const Vegetarian := "vegetarian"
  const GlutenFree := "gluten-free"

  /** The lower-cased recipe name contains `word`. */
  predicate NameMentions(r: Recipe, word: string) {
    Contains(Lower(r.recipeName), word)
  }

  /** Some string of `xs`, lower-cased, contains `word`. */
  predicate AnyMentions(xs: seq<string>, word: string) {
    exists i :: 0 <= i < |xs| && Contains(Lower(xs[i]), word)
  }

  /** Tagged non-vegetarian, or named after chicken or egg. */
  predicate IsNonVeg(r: Recipe) {
    NonVegetarian in r.dietary || NameMentions(r, "chicken") || NameMentions(r, "egg")
  }

  /** Tagged vegetarian, not tagged non-vegetarian, and not named after chicken or egg. */
  predicate IsVegetarian(r: Recipe) {
    && Vegetarian in r.dietary
    && NonVegetarian !in r.dietary
    && !NameMentions(r, "chicken")
    && !NameMentions(r, "egg")
  }

  /** The filter callback: whether `r` survives the preferences `prefs`. */
  predicate Keep(prefs: seq<string>, r: Recipe) {
    if NonVegetarian in prefs then
      if GlutenFree in prefs then IsNonVeg(r) && GlutenFree in r.dietary else IsNonVeg(r)
    else if Vegetarian in prefs then
      if AnyMentions(r.ingredients, "egg") then false
      else if GlutenFree in prefs then IsVegetarian(r) && GlutenFree in r.dietary
      else IsVegetarian(r)
    else
      forall p :: p in prefs ==> p in r.dietary
  }

  /** `recipes.filter(...)` with the callback above. */
  function KeepAll(prefs: seq<string>, recipes: seq<Recipe>): (kept: seq<Recipe>)
    ensures |kept| <= |recipes|
    ensures forall x :: x in kept ==> x in recipes && Keep(prefs, x)
  {
    if recipes == [] then []
    else (if Keep(prefs, recipes[0]) then [recipes[0]] else []) + KeepAll(prefs, recipes[1..])
  }

  /** `filterRecipes`: no preferences keeps the slot catalog as it is. */
  function FilterRecipes(prefs: seq<string>, recipes: seq<Recipe>): (filtered: seq<Recipe>)
    ensures |filtered| <= |recipes|
    ensures forall x :: x in filtered ==> x in recipes
  {
    if |prefs| == 0 then recipes else KeepAll(prefs, recipes)
  }

  /** The option list of a slot: the filtered recipes, or the whole slot catalog when none survive. */
  function SlotOptions(prefs: seq<string>, recipes: seq<Recipe>): (options: seq<Recipe>)
    ensures |recipes| > 0 ==> |options| > 0
    ensures IsSubsequence(options, recipes)
  {
    var filtered := FilterRecipes(prefs, recipes);
    FilterIsOrderedSubsequence(prefs, recipes);
    SubsequenceReflexive(recipes);
    if |filtered| > 0 then filtered else recipes
  }

  lemma {:induction false} KeepAllIsSubsequence(prefs: seq<string>, recipes: seq<Recipe>)
    ensures IsSubsequence(KeepAll(prefs, recipes), recipes)
  {
    if recipes != [] {
      KeepAllIsSubsequence(prefs, recipes[1..]);
      var rest := KeepAll(prefs, recipes[1..]);
      if Keep(prefs, recipes[0]) {
        assert KeepAll(prefs, recipes) == [recipes[0]] + rest;
        assert ([recipes[0]] + rest)[1..] == rest;
      } else {
        assert KeepAll(prefs, recipes) == rest;
      }
    }
  }

  /** The filter only drops recipes: its output is an order-preserving subsequence, and without preferences the catalog itself. */
  lemma FilterIsOrderedSubsequence(prefs: seq<string>, recipes: seq<Recipe>)
    ensures IsSubsequence(FilterRecipes(prefs, recipes), recipes)
    ensures |prefs| == 0 ==> FilterRecipes(prefs, recipes) == recipes
  {
    if |prefs| == 0 {
      SubsequenceReflexive(recipes);
    } else {
      KeepAllIsSubsequence(prefs, recipes);
    }
  }

  lemma {:induction false} KeepAllMembership(prefs: seq<string>, recipes: seq<Recipe>, r: Recipe)
    ensures r in KeepAll(prefs, recipes) <==> r in recipes && Keep(prefs, r)
  {
    if recipes != [] {
      KeepAllMembership(prefs, recipes[1..], r);
      assert recipes == [recipes[0]] + recipes[1..];
    }
  }

  /** A recipe is in the filtered list exactly when it is in the catalog and passes the callback. */
  lemma FilterMembership(prefs: seq<string>, recipes: seq<Recipe>, r: Recipe)
    ensures r in FilterRecipes(prefs, recipes) <==> r in recipes && (|prefs| == 0 || Keep(prefs, r))
  {
    if |prefs| > 0 {
      KeepAllMembership(prefs, recipes, r);
    }
  }

  /**
   * Under "non-vegetarian" (which wins even when "vegetarian" is also requested)
   * a recipe is kept iff it is tagged non-vegetarian or named after chicken or egg,
   * and, when "gluten-free" is requested too, also tagged gluten-free.
   */
  lemma NonVegetarianBranch(prefs: seq<string>, recipes: seq<Recipe>)
    requires NonVegetarian in prefs
    ensures forall r :: r in FilterRecipes(prefs, recipes) <==>
      && r in recipes
      && (NonVegetarian in r.dietary || NameMentions(r, "chicken") || NameMentions(r, "egg"))
      && (GlutenFree in prefs ==> GlutenFree in r.dietary)
  {
    forall r {
      FilterMembership(prefs, recipes, r);
    }
  }

  /**
   * Under "vegetarian" without "non-vegetarian", a recipe is kept iff no ingredient
   * mentions egg, it is tagged vegetarian and not non-vegetarian, its name mentions
   * neither chicken nor egg, and it is tagged gluten-free when that is requested.
   */
  lemma VegetarianBranch(prefs: seq<string>, recipes: seq<Recipe>)
    requires Vegetarian in prefs && NonVegetarian !in prefs
    ensures forall r :: r in FilterRecipes(prefs, recipes) <==>
      && r in recipes
      && !AnyMentions(r.ingredients, "egg")
      && Vegetarian in r.dietary
      && NonVegetarian !in r.dietary
      && !NameMentions(r, "chicken")
      && !NameMentions(r, "egg")
      && (GlutenFree in prefs ==> GlutenFree in r.dietary)
  {
    forall r {
      FilterMembership(prefs, recipes, r);
    }
  }

  /** Any other preference list keeps exactly the recipes tagged with every requested preference. */
  lemma OtherPreferencesBranch(prefs: seq<string>, recipes: seq<Recipe>)
    requires Vegetarian !in prefs && NonVegetarian !in prefs
    ensures forall r :: r in FilterRecipes(prefs, recipes) <==>
      r in recipes && forall p :: p in prefs ==> p in r.dietary
  {
    forall r {
      FilterMembership(prefs, recipes, r);
    }
  }

  /**
   * The option list is either the filtered list (when some recipe survived)
   * or the unfiltered slot catalog; it is empty only for an empty catalog.
   */
  lemma SlotOptionsFallback(prefs: seq<string>, recipes: seq<Recipe>)
    ensures |FilterRecipes(prefs, recipes)| > 0 ==> SlotOptions(prefs, recipes) == FilterRecipes(prefs, recipes)
    ensures |FilterRecipes(prefs, recipes)| == 0 ==> SlotOptions(prefs, recipes) == recipes
    ensures |SlotOptions(prefs, recipes)| == 0 <==> |recipes| == 0
  {
  }

  /**
   * The substring rule reads "veggie" as "egg": a recipe tagged vegetarian but
   * named "Veggie Paneer Wrap" is dropped under "vegetarian" and kept under
   * "non-vegetarian".
   */
  lemma VeggieNameCountsAsEgg()
    ensures var r := Recipe("Veggie Paneer Wrap", "Milky Mist Paneer", [], [], NoNutrition, [Vegetarian]);
      !Keep([Vegetarian], r) && Keep([NonVegetarian], r)
  {
    var r := Recipe("Veggie Paneer Wrap", "Milky Mist Paneer", [], [], NoNutrition, [Vegetarian]);
    assert Lower(r.recipeName)[1..4] == "egg";
    assert OccursAt(Lower(r.recipeName), "egg", 1);
  }
}
