# Protein planner: a Dafny model

This project models the core of a promotional protein-intake planner. The user
enters age, gender, height, weight and dietary preferences. The planner computes
a daily protein target and answers with a seven-day meal plan. The server route
either takes the plan from a generative-model provider or builds one itself from
a static recipe catalog.

The repository holds three generations of this logic. Each is modelled in its
own modules, and cross-module lemmas relate them where they overlap.

- **Current server route** (`src/app/api/generate-meal-plan/route.js`):
  - `RecipeFilter`: the dietary filter, its branch precedence and the per-slot option lists.
  - `PlanAssembler`: `formatMealPlanResponse`.
  - `FallbackPlanner`: the deterministic seven-day round-robin plan.
  - `MealPlanRoute`: fence and brace trimming of the provider reply, the vegetarian scan, and the provider-or-fallback decision of `POST`.
  - `Recipes`: the records these modules share.
- **Current protein utilities** (`src/utils/protein.js`):
  - `ProteinFormula`: the per-kg rate table, the gender and age adjustments, rounding to one decimal, and the three-template planner.
  - `ProteinTemplates`: the planner's records.
- **First-generation utilities** (`frontend/utils/protein.js`):
  - `LegacyProtein`: the flat 1.2 g/kg rule and the same planner.
- **First-generation server planner** (`backend/api/generate-meal-plan.js`):
  - `BackendPlan`: the recipe whose protein lies closest to a third of the requirement, per slot.
- **Profile form** (`src/app/world-protein-day/ProteinForm.js`):
  - `ProteinForm`: a `Form` class holding the form data and the error map. Its methods are the field and form validation, the submit guard and the preference toggle.
- **Plan view helpers** (`src/app/world-protein-day/MealPlan.js`):
  - `MealPlanView`: the delivery link, the target comparison and the dietary-tag display condition.
- Shared helpers:
  - `Text`: the ASCII part of the JavaScript string operations (`toLowerCase`, `includes`, `indexOf`, `split`, `substring`, `trim`).
  - `JsNumber`: `Math.round` and `toFixed(1)` on exact reals.
  - `Common`: `Option`, the day names and order-preserving subsequences.

Numbers are exact reals:
- `Math.round(x)` is `floor(x + 0.5)`.
- `x.toFixed(1)` is the value of the string it produces: the nearest tenth, with halves rounded away from zero.

Two behaviours of the code are worth stating:
- **Empty slot catalog.** An empty slot catalog leaves that slot's recipe `undefined` (`options[i % 0]`). The meal is then `{ type }` with no `nutrition`, the totals throw at `src/app/api/generate-meal-plan/route.js:227`, and the route answers with the generic failure. `FallbackPlanShape` states exactly when this happens.
- **Egg under "vegetarian".** The filter's comment (`src/app/api/generate-meal-plan/route.js:181-187`) and the provider prompt (lines 32 and 36) say a vegetarian answer holds no egg. Yet the empty-result fallback can serve any catalog recipe under "vegetarian", egg included (`VegetarianFallbackCanServeEgg`). The egg-free guarantee holds only when every slot has a surviving recipe (`VegetarianFallbackIsEggFree`).

## Model

| member | source | states |
|---|---|---|
| RecipeFilter.Keep | src/app/api/generate-meal-plan/route.js:158-202 | the `filter` callback with its three branches (non-vegetarian first, then vegetarian, then every requested tag); its branches are stated separately in the three branch lemmas below |
| RecipeFilter.KeepAll | src/app/api/generate-meal-plan/route.js:158-202 | `recipes.filter(callback)`: never longer than the input, and every recipe kept is from the input and accepted by the callback |
| RecipeFilter.FilterRecipes | src/app/api/generate-meal-plan/route.js:155-203 | `filterRecipes`: never longer than the slot catalog, and every recipe it returns is from the catalog |
| RecipeFilter.SlotOptions | src/app/api/generate-meal-plan/route.js:205-211 | a slot's option list is non-empty whenever the slot catalog is, and is an order-preserving subsequence of it |
| RecipeFilter.KeepAllIsSubsequence | src/app/api/generate-meal-plan/route.js:158-202 | `recipes.filter` only drops recipes, so its result is an order-preserving subsequence of the input |
| RecipeFilter.FilterIsOrderedSubsequence | src/app/api/generate-meal-plan/route.js:155-158 | the filter's output is an order-preserving subsequence of the slot catalog, and with no preferences it is the catalog itself |
| RecipeFilter.KeepAllMembership | src/app/api/generate-meal-plan/route.js:158-202 | a recipe survives the filter iff it is in the input and the callback accepts it |
| RecipeFilter.FilterMembership | src/app/api/generate-meal-plan/route.js:155-202 | a recipe is in `filterRecipes`' result iff it is in the catalog and either no preference was given or the callback accepts it |
| RecipeFilter.NonVegetarianBranch | src/app/api/generate-meal-plan/route.js:159-172 | with "non-vegetarian" requested (even alongside "vegetarian"), a recipe is kept iff it is tagged non-vegetarian or its lower-cased name contains "chicken" or "egg", and also carries the gluten-free tag when "gluten-free" is requested |
| RecipeFilter.VegetarianBranch | src/app/api/generate-meal-plan/route.js:174-196 | with "vegetarian" and without "non-vegetarian", a recipe is kept iff: no ingredient mentions egg; it is tagged vegetarian and not non-vegetarian; its name mentions neither chicken nor egg; and it is tagged gluten-free when that is requested |
| RecipeFilter.OtherPreferencesBranch | src/app/api/generate-meal-plan/route.js:198-201 | any other preference list keeps exactly the recipes tagged with every requested preference |
| RecipeFilter.SlotOptionsFallback | src/app/api/generate-meal-plan/route.js:205-211 | the options are the filtered list when it is non-empty and the whole slot catalog otherwise; they are empty iff the catalog is |
| RecipeFilter.VeggieNameCountsAsEgg | src/app/api/generate-meal-plan/route.js:162-164 | the substring test reads "Veggie" as containing "egg": such a recipe is dropped under "vegetarian" and kept under "non-vegetarian" |
| PlanAssembler.EchoedPreferences | src/app/api/generate-meal-plan/route.js:288 | the echoed preference list is never empty; it is the request's list when that list is non-empty and exactly `["all"]` otherwise |
| PlanAssembler.MealTotals | src/app/api/generate-meal-plan/route.js:260-263 | the four `meals.reduce` sums, folded left to right; `MealTotalsAppend` states how they split over concatenated meal lists |
| PlanAssembler.RecomputeTotals | src/app/api/generate-meal-plan/route.js:259-273 | a day keeps its name, number and meals, and its stored totals and `achieved` become consistent with its meals |
| PlanAssembler.WeeklyProtein | src/app/api/generate-meal-plan/route.js:275 | the `reduce` over the day totals; `WeeklyTotalsAreMealSums` relates it to the meals |
| PlanAssembler.WeeklyCalories | src/app/api/generate-meal-plan/route.js:276 | the `reduce` over the day calorie totals; `WeeklyTotalsAreMealSums` relates it to the meals |
| PlanAssembler.FormatMealPlanResponse | src/app/api/generate-meal-plan/route.js:255-289 | per day: name, number and meals are kept; the four totals are overwritten with the sums over the meals; `achieved` iff the protein sum is at least the target (true at equality). Weekly totals are the sums of the day totals. Each average `n` satisfies `n - 0.5 <= weekly/7 < n + 0.5`. The target is echoed, and so are the preferences (or `["all"]`) |
| PlanAssembler.FormatKeepsConsistentDays | src/app/api/generate-meal-plan/route.js:259-273 | days whose stored totals already match their meals come back unchanged |
| PlanAssembler.FormatIdempotent | src/app/api/generate-meal-plan/route.js:255-289 | formatting the formatted plan again gives the same answer |
| PlanAssembler.MealTotalsAppend | src/app/api/generate-meal-plan/route.js:260-263 | the meal sums of two concatenated meal lists are the component-wise sums of their meal sums |
| PlanAssembler.WeeklyTotalsAreMealSums | src/app/api/generate-meal-plan/route.js:260-276 | for days with consistent totals, the weekly protein and calorie totals equal the sums over all the week's meals taken as one flat list |
| FallbackPlanner.FallbackDay | src/app/api/generate-meal-plan/route.js:217-241 | a day built by the loop has consistent totals and `achieved` |
| FallbackPlanner.FallbackWeek | src/app/api/generate-meal-plan/route.js:213-242 | seven days, Monday to Sunday, numbered 1 to 7; day `i` has meals Breakfast, Lunch, Dinner drawn from option `i mod n` of each list; totals are consistent |
| FallbackPlanner.BuildWeeklyPlan | src/app/api/generate-meal-plan/route.js:213-242 | the `for` loop with `push` builds exactly that week |
| FallbackPlanner.GenerateFallbackMealPlan | src/app/api/generate-meal-plan/route.js:142-253 | the deterministic answer is the formatted week over the slot option lists, or the generic failure |
| FallbackPlanner.FallbackPlan | src/app/api/generate-meal-plan/route.js:142-253 | the deterministic answer: the formatted round-robin week over the slot option lists, or the generic failure; its shape is stated by `FallbackPlanShape` |
| FallbackPlanner.FallbackPlanShape | src/app/api/generate-meal-plan/route.js:142-253 | the deterministic answer fails iff the request is unreadable or some slot catalog is empty; otherwise it has the full seven-day round-robin structure with consistent totals |
| FallbackPlanner.VegetarianFallbackIsEggFree | src/app/api/generate-meal-plan/route.js:174-219 | under "vegetarian", when every slot has a surviving recipe, no meal of the deterministic plan has an egg ingredient |
| FallbackPlanner.VegetarianFallbackCanServeEgg | src/app/api/generate-meal-plan/route.js:205-219 | under "vegetarian", when no breakfast survives and the first catalog breakfast has an egg ingredient, the plan serves it |
| MealPlanRoute.StripFences | src/app/api/generate-meal-plan/route.js:91-96 | the fence step: the trimmed inside of the first ```` ```json ```` (else plain ```` ``` ````) fence of the trimmed reply, or the trimmed reply; `StripFencedText`, `StripPlainFencedText`, `FenceInsideLacksFence` and `FencesRemoved` state what it yields |
| MealPlanRoute.TrimToBraces | src/app/api/generate-meal-plan/route.js:98-102 | the brace cut with JavaScript `substring`; stated by the three `TrimToBraces` lemmas below |
| MealPlanRoute.ExtractJson | src/app/api/generate-meal-plan/route.js:91-104 | the text handed to `JSON.parse`: the fence step, then the brace cut; stated by `FencesRemoved`, `BareObjectPassesThrough` and `FencedObjectRoundTrip` |
| MealPlanRoute.TrimToBracesWithoutPair | src/app/api/generate-meal-plan/route.js:98-102 | text lacking either brace is handed on unchanged |
| MealPlanRoute.TrimToBracesFrames | src/app/api/generate-meal-plan/route.js:98-102 | when the first `{` (at `a`) comes no later than the last `}` (at `b`), the result is exactly the text from `a` to `b`, both braces included |
| MealPlanRoute.TrimToBracesKeepsAbsence | src/app/api/generate-meal-plan/route.js:98-102 | the brace cut keeps a contiguous piece, so text free of a substring stays free of it |
| MealPlanRoute.FenceInsideLacksFence | src/app/api/generate-meal-plan/route.js:92-96 | the text taken from inside a fence holds no fence |
| MealPlanRoute.FencesRemoved | src/app/api/generate-meal-plan/route.js:91-102 | when the trimmed reply contains a fence, the text handed to `JSON.parse` contains none |
| MealPlanRoute.BareObjectPassesThrough | src/app/api/generate-meal-plan/route.js:91-102 | a bare object `{...}` with no fence and no surrounding white space reaches the parser unchanged |
| MealPlanRoute.FencedObjectRoundTrip | src/app/api/generate-meal-plan/route.js:91-102 | a fence-free object in a ```` ```json ```` fence or in a plain ```` ``` ```` fence, with any white space (newlines included) between the fences and the object, reaches the parser as the object itself |
| MealPlanRoute.StripJsonFence | src/app/api/generate-meal-plan/route.js:91-93 | the fence step alone unwraps ```` ```json ````, optional white space, the object, optional white space and ```` ``` ```` to the object |
| MealPlanRoute.StripFencedText | src/app/api/generate-meal-plan/route.js:91-93 | for any inside that holds no fence and does not end in a backtick, the fence step turns ```` ```json ```` + inside + ```` ``` ```` into the trimmed inside |
| MealPlanRoute.StripPlainFence | src/app/api/generate-meal-plan/route.js:91-96 | with no ```` ```json ```` present, the fence step alone unwraps a plain ```` ``` ````, optional white space, the object, optional white space and ```` ``` ```` to the object |
| MealPlanRoute.StripPlainFencedText | src/app/api/generate-meal-plan/route.js:91-96 | for any inside that holds no fence, does not end in a backtick and starts with neither a backtick nor `j`, the fence step turns ```` ``` ```` + inside + ```` ``` ```` into the trimmed inside |
| MealPlanRoute.PlainFenceNoJsonFence | src/app/api/generate-meal-plan/route.js:92-94 | such a plain-fenced text holds no ```` ```json ````, so the first branch is not taken |
| MealPlanRoute.PaddingKeepsAbsence | src/app/api/generate-meal-plan/route.js:91-93 | white-space padding around a fence-free text adds no fence |
| MealPlanRoute.SomeMentions | src/app/api/generate-meal-plan/route.js:111-116 | the `some` loop answers true iff some lower-cased ingredient contains the word |
| MealPlanRoute.ScanVegetarianPlan | src/app/api/generate-meal-plan/route.js:107-126 | the nested scan accepts the plan iff no meal of any day has an ingredient mentioning egg or chicken |
| MealPlanRoute.FormatKeepsMeals | src/app/api/generate-meal-plan/route.js:259-273 | formatting keeps every day's meals, so it keeps the scan's verdict |
| MealPlanRoute.Post | src/app/api/generate-meal-plan/route.js:7-140 | an unreadable request, no API key, a provider error, an unparsable reply, or (under "vegetarian") a reply with an egg or chicken ingredient each yield the deterministic answer; otherwise the answer is the parsed plan, formatted. Under "vegetarian" the answer is either the deterministic one or a plan free of egg and chicken ingredients |
| ProteinFormula.RatePerKg | src/utils/protein.js:16-28 | the per-kg rate after the gender and age adjustments, always between 0.8 and 1.9 g/kg; the adjustments are stated by `MaleAddsOneTenth` and `AgeAdjustment` |
| ProteinFormula.ProteinTarget | src/utils/protein.js:16-34 | the daily target lies within 0.05 g of `weight * rate` |
| ProteinFormula.ActivityRate | src/utils/protein.js:8-16 | the per-kg rate from the table is always between 0.8 and 1.6 |
| ProteinFormula.Scaled | src/utils/protein.js:31-34 | `(weight * rate).toFixed(1)` lies within 0.05 of `weight * rate` |
| ProteinFormula.CalculateProtein | src/utils/protein.js:1-35 | the step-by-step accumulation equals the target formula under the defaults `male`, `moderate` and 30, and lies within 0.05 of `weight * rate` |
| ProteinFormula.CalculateProteinSimple | src/utils/protein.js:38-40 | equals `calculateProtein(w, 'male', 'moderate', 30)`, that is `(w * 1.3).toFixed(1)` |
| ProteinFormula.UnknownActivityIsModerate | src/utils/protein.js:8-16 | an activity level missing from the table gets the moderate rate, 1.2 |
| ProteinFormula.MaleAddsOneTenth | src/utils/protein.js:19-21 | `male` adds exactly 0.1 g/kg; every other gender adds nothing |
| ProteinFormula.AgeAdjustment | src/utils/protein.js:24-28 | the age adjustments are exclusive: +0.2 from 65, +0.1 from 50 to below 65, nothing below 50 |
| ProteinFormula.RateAtLeastSedentary | src/utils/protein.js:8-28 | the adjusted rate is never below 0.8 g/kg |
| ProteinFormula.RoundedScaleMonotone | src/utils/protein.js:31-34 | for a non-negative rate, scaling then rounding to tenths keeps the order of weights |
| ProteinFormula.TargetMonotoneInWeight | src/utils/protein.js:31-34 | for fixed gender, activity and age the target never decreases as weight grows |
| ProteinFormula.ExampleModerateMan | src/utils/protein.js:1-35 | 70 kg, male, moderate, 30 years gives 91.0 g |
| ProteinFormula.ExampleSedentaryOlderWoman | src/utils/protein.js:1-35 | 70 kg, female, sedentary, 70 years gives 70.0 g |
| ProteinFormula.GenerateMealPlan | src/utils/protein.js:42-78 | seven days, Monday to Sunday; day `i` uses template `i mod 3` |
| ProteinFormula.PlanDay | src/utils/protein.js:63-77 | the entry `days.map` builds for day `i`: template `i mod 3`, rounded total, `achieved` and rounded `remaining`; stated by `PlanTotals` and `PlanRemaining` |
| ProteinFormula.TemplateTotals | src/utils/protein.js:45-65 | the three templates sum to 63.5, 65 and 62 g |
| ProteinFormula.PlanTotals | src/utils/protein.js:63-75 | each day's total is its template's sum, and `achieved` iff that sum reaches the target |
| ProteinFormula.PlanRemaining | src/utils/protein.js:76 | `remaining` is never negative; the unrounded shortfall `max(0, required - total)` is 0 iff the day is achieved; `remaining` is 0 on achieved days and otherwise within 0.05 of the shortfall |
| ProteinFormula.RemainingRoundsToZero | src/utils/protein.js:75-76 | with a target of 63.54 g, Monday is not achieved, yet its rounded `remaining` is 0.0 |
| ProteinTemplates.Max0 | src/utils/protein.js:76 | `Math.max(0, x)` is non-negative, at least `x`, and either 0 or `x` |
| LegacyProtein.CalculateProtein | frontend/utils/protein.js:1-3 | the flat rule lies within 0.05 of `weight * 1.2`, whatever else is known about the user |
| LegacyProtein.GenerateMealPlan | frontend/utils/protein.js:5-42 | seven days, Monday to Sunday, day `i` on template `i mod 3` |
| LegacyProtein.FlatRuleIsUnadjustedModerate | frontend/utils/protein.js:1-3 | the flat rule equals the current formula for a moderately active non-male user under 50 |
| LegacyProtein.SamePlanAsCurrent | frontend/utils/protein.js:5-42 | the first-generation planner produces exactly the current planner's plan |
| LegacyProtein.LegacyPlanShape | frontend/utils/protein.js:5-42 | seven days, Monday to Sunday, on template `i mod 3` (Monday, Thursday and Sunday share one); totals are 63.5, 65 or 62; `achieved` iff the total reaches the target; `remaining` is never negative and is 0 on achieved days |
| BackendPlan.Abs | backend/api/generate-meal-plan.js:48-49 | `Math.abs` is non-negative and equals `x` or `-x` |
| BackendPlan.ReduceClosest | backend/api/generate-meal-plan.js:47-51 | the `reduce` ends on an index of minimal distance, strictly closer than every earlier recipe |
| BackendPlan.SelectBestRecipe | backend/api/generate-meal-plan.js:45-52 | no recipe (the throw of `reduce`) iff the list is empty; otherwise a list element at minimal distance from the target |
| BackendPlan.SelectBestIsFirstClosest | backend/api/generate-meal-plan.js:47-51 | the recipe selected is the one at the first index of minimal distance (ties keep the earlier recipe) |
| BackendPlan.TieKeepsFirst | backend/api/generate-meal-plan.js:50 | of two recipes 10 g either side of the target, the first is kept |
| BackendPlan.SumProtein | backend/api/generate-meal-plan.js:27 | `meals.reduce((sum, meal) => sum + meal.protein, 0)`, folded left to right; `SumOfThree` states its value for a plan |
| BackendPlan.SumOfThree | backend/api/generate-meal-plan.js:27 | the protein fold over three meals is their sum |
| BackendPlan.Post | backend/api/generate-meal-plan.js:5-43 | failure iff the request is unreadable or some slot is empty; otherwise Breakfast, Lunch and Dinner, each from its own slot; total = their sum; `achieved` iff the total reaches the target, which is echoed; each meal is a recipe of its slot whose protein lies closest to a third of the requirement |
| BackendPlan.ExactThirdsAchieve | backend/api/generate-meal-plan.js:14-33 | when every slot has a recipe of exactly a third of the requirement, the total equals the requirement and the plan is achieved |
| ProteinForm.ParseInt | src/app/world-protein-day/ProteinForm.js:22 | `parseInt` of a number's text is its integer part, truncated toward zero |
| ProteinForm.FormErrors | src/app/world-protein-day/ProteinForm.js:70-93 | age, height and weight each have an entry iff empty or out of range (age and height through `parseInt`); no other key appears |
| ProteinForm.FormValidIffAllInRange | src/app/world-protein-day/ProteinForm.js:70-93 | the error map is empty iff all three numbers are present and in range |
| ProteinForm.FractionalHeightPasses | src/app/world-protein-day/ProteinForm.js:80-89 | through `parseInt` a height of 272.5 passes, while a weight of 500.5 (read with `parseFloat`) fails |
| ProteinForm.BlankFlaggedOnSubmit | src/app/world-protein-day/ProteinForm.js:75-87 | any empty age, height or weight makes the form invalid |
| ProteinForm.FieldAndFormAgree | src/app/world-protein-day/ProteinForm.js:17-93 | for a present value, the submit check flags a field iff it is out of the same range the per-field check uses |
| ProteinForm.RemoveAll | src/app/world-protein-day/ProteinForm.js:65 | the filtered list lacks the preference, keeps every other one in order (an order-preserving subsequence of the input), and is shorter than the input by exactly the number of occurrences of the preference |
| ProteinForm.Toggle | src/app/world-protein-day/ProteinForm.js:61-67 | the preference is present after toggling iff it was absent before; every other preference keeps its membership |
| ProteinForm.ToggleTwiceRestores | src/app/world-protein-day/ProteinForm.js:61-67 | toggling an absent preference twice restores the original list |
| ProteinForm.ToggleAppends | src/app/world-protein-day/ProteinForm.js:66 | an absent preference is appended at the end, after the others in their order |
| ProteinForm.Form.constructor | src/app/world-protein-day/ProteinForm.js:6-15 | every field starts empty, with no preference and no error |
| ProteinForm.Form.ValidateField | src/app/world-protein-day/ProteinForm.js:17-53 | only the named field's entry can change. A field with no check leaves the map as it was. A checked field gets its range message iff its value is present and out of range, and otherwise its entry is removed |
| ProteinForm.Form.ValidateForm | src/app/world-protein-day/ProteinForm.js:70-93 | the error map is rebuilt as the form errors of the current data; the result is true iff the map is empty |
| ProteinForm.Form.HandleSubmit | src/app/world-protein-day/ProteinForm.js:95-103 | the data is handed on iff the form is valid, and unchanged |
| ProteinForm.Form.HandleDietaryChange | src/app/world-protein-day/ProteinForm.js:61-68 | only the preference list changes, and it becomes its toggle |
| MealPlanView.CollapseWhitespace | src/app/world-protein-day/MealPlan.js:8 | the replacement leaves no white space and never lengthens the text; `CollapseWithoutSpace` and `GapBecomesOnePlus` fix its result on every input |
| MealPlanView.SearchQuery | src/app/world-protein-day/MealPlan.js:8 | the search query has no white space and is no longer than the product name |
| MealPlanView.GetDeliveryLink | src/app/world-protein-day/MealPlan.js:6-15 | `zepto` gives the Zepto search prefix followed by the query; any other platform gives `#` |
| MealPlanView.CollapseWithoutSpace | src/app/world-protein-day/MealPlan.js:8 | text without white space is unchanged |
| MealPlanView.CollapseIdempotent | src/app/world-protein-day/MealPlan.js:8 | replacing twice is replacing once |
| MealPlanView.GapBeforeRest | src/app/world-protein-day/MealPlan.js:8 | a maximal white-space run at the start becomes one `+`, and the rest is replaced on its own |
| MealPlanView.GapBecomesOnePlus | src/app/world-protein-day/MealPlan.js:8 | for any text that splits into a white-space-free prefix, a maximal white-space run and a rest: the prefix is copied, the run becomes a single `+`, and the rest (with any further runs) is replaced on its own. With `CollapseWithoutSpace` this covers every input, including leading and trailing runs |
| MealPlanView.ZeptoLinkShape | src/app/world-protein-day/MealPlan.js:6-15 | a Zepto link starts with the search prefix, has no white space after it, and is no longer than prefix plus name |
| MealPlanView.MeetsTarget | src/app/world-protein-day/MealPlan.js:22 | `averageDailyProtein >= proteinRequired`; `DifferenceSplitsOnTarget` relates it to the difference |
| MealPlanView.ProteinDifference | src/app/world-protein-day/MealPlan.js:23 | the difference is non-negative |
| MealPlanView.DifferenceSplitsOnTarget | src/app/world-protein-day/MealPlan.js:22-23 | a met target is exceeded by exactly the difference; a missed one falls short by it, and the difference is then positive; the difference is 0 iff average equals requirement |
| MealPlanView.ShowDietaryTags | src/app/world-protein-day/MealPlan.js:230 | the tag row shows for a tagged meal when the echoed preferences are non-empty and lack `all`; `TagsFollowRequest` relates it to the route's answer |
| MealPlanView.TagsFollowRequest | src/app/world-protein-day/MealPlan.js:230 | an answer to a request without preferences echoes `["all"]`, so no tags show; with genuine preferences, a tagged meal shows its tags |
| JsNumber.Round | src/app/api/generate-meal-plan/route.js:277-278 | `Math.round(x)` is the integer `n` with `n - 0.5 <= x < n + 0.5` |
| JsNumber.ToFixed1 | src/utils/protein.js:34 | `toFixed(1)` lies within 0.05 of `x` and keeps its sign |
| JsNumber.ToFixed1Monotone | src/utils/protein.js:34 | rounding to tenths never reverses the order of two numbers |
| Text.IndexOf | src/app/api/generate-meal-plan/route.js:92-95 | the first index at which the substring occurs, or -1 iff it does not occur |
| Text.BeforeFirstLacksSeparator | src/app/api/generate-meal-plan/route.js:93-95 | `split(sep)[0]` never contains a non-empty `sep` |

## Left out

- The generative-model call (`GoogleGenerativeAI`, its prompt and configuration) is a foreign library. It is modelled only as its outcome: no API key, an error, or the reply text.
- `JSON.parse`, and the plan shape the handler expects from it, is a parameter of `MealPlanRoute.Post` (a partial reader, `None` for a throw).
- The `AbortController` set to abort after 10 seconds is never wired to the request: its signal is not passed to `generateContent` (`src/app/api/generate-meal-plan/route.js:78-83`). So the code has no 10-second limit, and a slow reply is still used. The model has no clock, and its provider outcome is the reply whenever one arrives.
- The file reads of the recipe catalogs and the module-level `recipesCache` are file I/O. The catalog is a parameter.
- The user log and visit counter (`src/app/api/save-user/route.js`, `backend/api/user-count.js`) are left out: flat-file I/O with no planning logic.
- The page components, fetch orchestration, webhook and layout are left out: network and UI glue. `frontend/components/` is not part of this model.
- React rendering, styling and the `handleChange` handler are left out. `handleChange` stores the raw input text and then calls `validateField`, which is modelled.
- IEEE-754 doubles are left out. Numbers are exact reals, `toFixed(1)` is its exact decimal value, and the string that `toFixed` returns is read back as a number.
- The string parsing of `parseInt` and `parseFloat` (including NaN) is left out. A form field is empty or holds the number a `type="number"` input accepted. `ParseInt` truncates that number toward zero. This differs from `parseInt` on the text of the value in two cases. Exponent notation: `1e3` is read as 1. A leading dot: `.5` or `-.5` is read as NaN, every comparison with NaN is false, and so both `validateField` and `validateForm` accept an age or height typed that way (`src/app/world-protein-day/ProteinForm.js:22-23`, `30-31`, `75-76`, `81-82`). The model rejects it, since `AgeInRange(0.5)` and `HeightInRange(0.5)` are false.
- Unicode is left out: lower-casing, `trim` and `\s` are modelled on ASCII characters only.
- Property lookups on prototype keys (an activity level such as `toString`) are left out. An activity level missing from the table gets the moderate rate.
- Malformed request fields (a missing or non-numeric `proteinRequired`, a non-array `dietaryPreferences`) are left out. Requests are typed records, and an unreadable body is `None`.
- Recipe records carrying their own `type` field are left out: the `{ type, ...recipe }` spread would then override the slot name, and the model always keeps the slot name.
- The HTTP status code and the `success` flag are represented by the two response variants.
