/**
 * The `POST` handler of the server meal-plan route: use the generative
 * provider's plan when there is one that parses and passes the vegetarian
 * scan, and the deterministic plan otherwise.
 */
module MealPlanRoute {
  import opened Common
  import opened Text
  import opened Recipes
  import opened RecipeFilter
  import opened PlanAssembler
  import opened FallbackPlanner

  /**
   * What the provider call came to: no API key configured, a thrown error
   * (including the library's own failures), or the text of the reply.
   */
  datatype ProviderOutcome = NoApiKey | ProviderError | Generated(text: string)

  /** A reader for the JSON text (`JSON.parse` plus the shape the handler expects); `None` stands for a throw. */
  type PlanParser = string -> Option<seq<DayPlan>>

  const JsonFence := "```json"
  const Fence := "```"

  /** Keeps the inside of the first ```json (or plain ```) fence of the trimmed reply. */
  function StripFences(text: string): string {
    var t := Trim(text);
    if Contains(t, JsonFence) then Trim(BeforeFirst(SplitSecond(t, JsonFence), Fence))
    else if Contains(t, Fence) then Trim(BeforeFirst(SplitSecond(t, Fence), Fence))
    else t
  }

  /** Cuts from the first `{` to the last `}` when both occur (JavaScript `substring`, so reversed ends are swapped). */
  function TrimToBraces(s: string): string {
    var start := IndexOfChar(s, '{');
    var end := LastIndexOfChar(s, '}');
    if start != -1 && end != -1 then Substring(s, start, end + 1) else s
  }

  /** The text handed to `JSON.parse`. */
  function ExtractJson(text: string): string {
    TrimToBraces(StripFences(text))
  }

  /** Text lacking either brace is handed on unchanged. */
  lemma TrimToBracesWithoutPair(s: string)
    requires '{' !in s || '}' !in s
    ensures TrimToBraces(s) == s
  {
    assert IndexOfChar(s, '{') == -1 || LastIndexOfChar(s, '}') == -1;
  }

  /**
   * When the first `{` (at `a`) precedes the last `}` (at `b`), the cut runs
   * exactly from the one to the other, both kept.
   */
  lemma TrimToBracesFrames(s: string, a: int, b: int)
    requires 0 <= a <= b < |s|
    requires s[a] == '{' && forall j :: 0 <= j < a ==> s[j] != '{'
    requires s[b] == '}' && forall j :: b < j < |s| ==> s[j] != '}'
    ensures TrimToBraces(s) == s[a..b + 1]
  {
    IndexOfCharIsFirst(s, '{', a);
    LastIndexOfCharIsLast(s, '}', b);
    assert TrimToBraces(s) == Substring(s, a, b + 1);
    BraceCut(s, a, b);
  }

  /** `substring(a, b + 1)` between a `{` at `a` and a `}` at `b` starts and ends with them. */
  lemma BraceCut(s: string, a: int, b: int)
    requires 0 <= a <= b < |s| && s[a] == '{' && s[b] == '}'
    ensures var r := Substring(s, a, b + 1);
      && r == s[a..b + 1]
      && r[0] == '{' && r[|r| - 1] == '}'
  {
  }

  /** Cutting to the braces only ever keeps a contiguous piece, so it keeps a string free of `sub`. */
  lemma TrimToBracesKeepsAbsence(s: string, sub: string)
    requires !Contains(s, sub)
    ensures !Contains(TrimToBraces(s), sub)
  {
    var start := IndexOfChar(s, '{');
    var end := LastIndexOfChar(s, '}');
    if start != -1 && end != -1 {
      if start <= end + 1 {
        SliceKeepsAbsence(s, sub, start, end + 1);
      } else {
        SliceKeepsAbsence(s, sub, end + 1, start);
      }
    }
  }

  /** The inside of a fence holds no fence. */
  lemma FenceInsideLacksFence(t: string, sep: string)
    requires Contains(t, sep)
    ensures !Contains(Trim(BeforeFirst(SplitSecond(t, sep), Fence)), Fence)
  {
    BeforeFirstLacksSeparator(SplitSecond(t, sep), Fence);
    TrimKeepsAbsence(BeforeFirst(SplitSecond(t, sep), Fence), Fence);
  }

  /** When the trimmed reply holds a fence, no fence survives into the text handed to the parser. */
  lemma FencesRemoved(text: string)
    requires Contains(Trim(text), Fence)
    ensures !Contains(ExtractJson(text), Fence)
  {
    var t := Trim(text);
    if Contains(t, JsonFence) {
      FenceInsideLacksFence(t, JsonFence);
    } else {
      FenceInsideLacksFence(t, Fence);
    }
    TrimToBracesKeepsAbsence(StripFences(text), Fence);
  }

  /** Trimming leaves a string alone when it neither starts nor ends with white space. */
  lemma TrimOfTrimmed(s: string)
    requires s != [] ==> !IsSpace(s[0]) && !IsSpace(s[|s| - 1])
    ensures Trim(s) == s
  {
  }

  /** A bare JSON object with no surrounding white space is handed to the parser unchanged. */
  lemma BareObjectPassesThrough(json: string)
    requires |json| >= 2 && json[0] == '{' && json[|json| - 1] == '}'
    requires !Contains(json, Fence)
    ensures ExtractJson(json) == json
  {
    TrimOfTrimmed(json);
    NoFenceNoJsonFence(json);
    assert IndexOfChar(json, '{') == 0;
    assert LastIndexOfChar(json, '}') == |json| - 1;
  }

  /** Every ```json is also a ```. */
  lemma JsonFenceStartsWithFence(s: string, i: int)
    requires OccursAt(s, JsonFence, i)
    ensures OccursAt(s, Fence, i)
  {
    assert s[i..i + 3] == s[i..i + 7][..3];
  }

  /** A string free of ``` is free of ```json. */
  lemma NoFenceNoJsonFence(s: string)
    requires !Contains(s, Fence)
    ensures !Contains(s, JsonFence)
  {
    forall i | 0 <= i <= |s| - |JsonFence|
      ensures !OccursAt(s, JsonFence, i)
    {
      if OccursAt(s, JsonFence, i) {
        JsonFenceStartsWithFence(s, i);
      }
    }
  }

  /** In `inner + "```"`, with `inner` fence-free and not ending in a backtick, the first fence is the appended one. */
  lemma AppendedFenceIsFirst(inner: string)
    requires |inner| >= 1 && inner[|inner| - 1] != '`'
    requires !Contains(inner, Fence)
    ensures IndexOf(inner + Fence, Fence) == |inner|
  {
    var after := inner + Fence;
    assert after[|inner|..|inner| + 3] == Fence;
    assert OccursAt(after, Fence, |inner|);
    forall j | 0 <= j < |inner|
      ensures !OccursAt(after, Fence, j)
    {
      if j + 3 <= |inner| {
        assert after[j..j + 3] == inner[j..j + 3];
        assert !OccursAt(inner, Fence, j);
      } else if j + 3 <= |after| {
        assert after[j..j + 3][|inner| - 1 - j] == inner[|inner| - 1];
      }
    }
    IndexOfIsFirst(after, Fence, |inner|);
  }

  /** ... and it holds no ```json. */
  lemma AppendedFenceNoJsonFence(inner: string)
    requires |inner| >= 1 && inner[|inner| - 1] != '`'
    requires !Contains(inner, Fence)
    ensures !Contains(inner + Fence, JsonFence)
  {
    var after := inner + Fence;
    AppendedFenceIsFirst(inner);
    forall i | 0 <= i <= |after| - |JsonFence|
      ensures !OccursAt(after, JsonFence, i)
    {
      if OccursAt(after, JsonFence, i) {
        JsonFenceStartsWithFence(after, i);
      }
    }
  }

  /** White-space padding around a fence-free text adds no fence. */
  lemma PaddingKeepsAbsence(pre: string, json: string, post: string)
    requires AllSpace(pre) && AllSpace(post)
    requires !Contains(json, Fence)
    ensures !Contains(pre + json + post, Fence)
  {
    var inner := pre + json + post;
    forall k | 0 <= k <= |inner| - 3
      ensures !OccursAt(inner, Fence, k)
    {
      if k < |pre| {
        assert IsSpace(inner[k]);
        assert inner[k..k + 3][0] == inner[k];
      } else if k + 2 >= |pre| + |json| {
        assert IsSpace(inner[k + 2]);
        assert inner[k..k + 3][2] == inner[k + 2];
      } else {
        assert inner[k..k + 3] == json[k - |pre|..k - |pre| + 3];
        assert !OccursAt(json, Fence, k - |pre|);
      }
    }
  }

  /**
   * The fence-stripping step keeps the trimmed inside of ```json ... ``` when
   * that inside holds no fence and does not end in a backtick.
   */
  lemma StripFencedText(inner: string)
    requires |inner| >= 1 && inner[|inner| - 1] != '`'
    requires !Contains(inner, Fence)
    ensures StripFences(JsonFence + inner + Fence) == Trim(inner)
  {
    var text := JsonFence + inner + Fence;
    assert Trim(text) == text by {
      assert text[0] == '`' && text[|text| - 1] == '`';
      TrimOfTrimmed(text);
    }
    assert OccursAt(text, JsonFence, 0) by {
      assert text[..|JsonFence|] == JsonFence;
    }
    assert SplitSecond(text, JsonFence) == inner + Fence by {
      IndexOfIsFirst(text, JsonFence, 0);
      assert text[|JsonFence|..] == inner + Fence;
      AppendedFenceNoJsonFence(inner);
    }
    assert BeforeFirst(inner + Fence, Fence) == inner by {
      AppendedFenceIsFirst(inner);
      assert (inner + Fence)[..|inner|] == inner;
    }
  }

  /** An object padded with white space does not end in a backtick. */
  lemma PaddedEnd(json: string, post: string)
    requires AllSpace(post)
    requires |json| >= 1 && json[|json| - 1] == '}'
    ensures (json + post)[|json + post| - 1] != '`'
  {
    if |post| > 0 {
      assert (json + post)[|json + post| - 1] == post[|post| - 1];
    }
  }

  /**
   * The fence-stripping step unwraps ```json, optional white space, the
   * object, optional white space and ``` to the object.
   */
  lemma StripJsonFence(pre: string, json: string, post: string)
    requires AllSpace(pre) && AllSpace(post)
    requires |json| >= 2 && json[0] == '{' && json[|json| - 1] == '}'
    requires !Contains(json, Fence)
    ensures StripFences(JsonFence + pre + json + post + Fence) == json
  {
    var inner := pre + json + post;
    assert JsonFence + pre + json + post + Fence == JsonFence + inner + Fence;
    assert inner[|inner| - 1] != '`' by {
      PaddedEnd(json, post);
      assert inner == pre + (json + post);
    }
    PaddingKeepsAbsence(pre, json, post);
    StripFencedText(inner);
    TrimPadding(pre, json, post);
  }

  /**
   * An object in a ```json fence, with or without white space between the
   * fences and the object, is unwrapped back to itself.
   */
  lemma FencedObjectRoundTrip(pre: string, json: string, post: string)
    requires AllSpace(pre) && AllSpace(post)
    requires |json| >= 2 && json[0] == '{' && json[|json| - 1] == '}'
    requires !Contains(json, Fence)
    ensures ExtractJson(JsonFence + pre + json + post + Fence) == json
    ensures ExtractJson(Fence + pre + json + post + Fence) == json
  {
    StripJsonFence(pre, json, post);
    StripPlainFence(pre, json, post);
    assert IndexOfChar(json, '{') == 0;
    assert LastIndexOfChar(json, '}') == |json| - 1;
  }

  /**
   * After a plain ``` whose inside starts with neither a backtick nor `j`,
   * the text holds no ```json.
   */
  lemma PlainFenceNoJsonFence(inner: string)
    requires |inner| >= 1 && inner[0] != '`' && inner[0] != 'j' && inner[|inner| - 1] != '`'
    requires !Contains(inner, Fence)
    ensures !Contains(Fence + inner + Fence, JsonFence)
  {
    var text := Fence + inner + Fence;
    var after := inner + Fence;
    AppendedFenceNoJsonFence(inner);
    forall i | 0 <= i <= |text| - |JsonFence|
      ensures !OccursAt(text, JsonFence, i)
    {
      if i < 3 {
        assert text[i..i + 7][3 - i] == inner[0];
      } else {
        assert text[i..i + 7] == after[i - 3..i + 4];
        assert !OccursAt(after, JsonFence, i - 3);
      }
    }
  }

  /**
   * The fence-stripping step keeps the trimmed inside of a plain ``` ... ```
   * when that inside holds no fence, does not end in a backtick and does not
   * start with a backtick or `j`.
   */
  lemma StripPlainFencedText(inner: string)
    requires |inner| >= 1 && inner[0] != '`' && inner[0] != 'j' && inner[|inner| - 1] != '`'
    requires !Contains(inner, Fence)
    ensures StripFences(Fence + inner + Fence) == Trim(inner)
  {
    var text := Fence + inner + Fence;
    assert Trim(text) == text by {
      assert text[0] == '`' && text[|text| - 1] == '`';
      TrimOfTrimmed(text);
    }
    PlainFenceNoJsonFence(inner);
    assert OccursAt(text, Fence, 0) by {
      assert text[..|Fence|] == Fence;
    }
    assert AfterFirst(text, Fence) == inner + Fence by {
      IndexOfIsFirst(text, Fence, 0);
      assert text[|Fence|..] == inner + Fence;
    }
    assert BeforeFirst(inner + Fence, Fence) == inner by {
      AppendedFenceIsFirst(inner);
      assert (inner + Fence)[..|inner|] == inner;
    }
  }

  /** An object padded with white space starts with white space or `{`. */
  lemma PaddedStart(pre: string, json: string, post: string)
    requires AllSpace(pre)
    requires |json| >= 1 && json[0] == '{'
    ensures IsSpace((pre + json + post)[0]) || (pre + json + post)[0] == '{'
  {
    if |pre| > 0 {
      assert (pre + json + post)[0] == pre[0];
    } else {
      assert (pre + json + post)[0] == json[0];
    }
  }

  /**
   * The fence-stripping step unwraps a plain ```, optional white space, the
   * object, optional white space and ``` to the object.
   */
  lemma StripPlainFence(pre: string, json: string, post: string)
    requires AllSpace(pre) && AllSpace(post)
    requires |json| >= 2 && json[0] == '{' && json[|json| - 1] == '}'
    requires !Contains(json, Fence)
    ensures StripFences(Fence + pre + json + post + Fence) == json
  {
    var inner := pre + json + post;
    assert Fence + pre + json + post + Fence == Fence + inner + Fence;
    assert inner[|inner| - 1] != '`' by {
      PaddedEnd(json, post);
      assert inner == pre + (json + post);
    }
    PaddedStart(pre, json, post);
    PaddingKeepsAbsence(pre, json, post);
    StripPlainFencedText(inner);
    TrimPadding(pre, json, post);
  }

  /** Some ingredient of the meal mentions egg or chicken. */
  predicate MealHasMeatOrEgg(m: Meal) {
    AnyMentions(m.recipe.ingredients, "egg") || AnyMentions(m.recipe.ingredients, "chicken")
  }

  /** Some meal of some day mentions egg or chicken among its ingredients. */
  predicate PlanHasMeatOrEgg(plan: seq<DayPlan>) {
    exists i, j :: 0 <= i < |plan| && 0 <= j < |plan[i].meals| && MealHasMeatOrEgg(plan[i].meals[j])
  }

  /** `ingredients.some(ingredient => ingredient.toLowerCase().includes(word))`. */
  method SomeMentions(ingredients: seq<string>, word: string) returns (found: bool)
    ensures found == AnyMentions(ingredients, word)
  {
    var k := 0;
    while k < |ingredients|
      invariant 0 <= k <= |ingredients|
      invariant forall m :: 0 <= m < k ==> !Contains(Lower(ingredients[m]), word)
    {
      if Contains(Lower(ingredients[k]), word) {
        return true;
      }
      k := k + 1;
    }
    return false;
  }

  /**
   * The vegetarian scan: walks the days and their meals and stops (the source
   * throws) at the first meal with an egg or chicken ingredient.
   */
  method ScanVegetarianPlan(plan: seq<DayPlan>) returns (safe: bool)
    ensures safe <==> !PlanHasMeatOrEgg(plan)
  {
    var i := 0;
    while i < |plan|
      invariant 0 <= i <= |plan|
      invariant forall a, b :: 0 <= a < i && 0 <= b < |plan[a].meals| ==> !MealHasMeatOrEgg(plan[a].meals[b])
    {
      var meals := plan[i].meals;
      var j := 0;
      while j < |meals|
        invariant 0 <= j <= |meals|
        invariant forall b :: 0 <= b < j ==> !MealHasMeatOrEgg(meals[b])
      {
        var hasEggs := SomeMentions(meals[j].recipe.ingredients, "egg");
        var hasChicken := SomeMentions(meals[j].recipe.ingredients, "chicken");
        if hasEggs || hasChicken {
          return false;
        }
        j := j + 1;
      }
      i := i + 1;
    }
    return true;
  }

  /** Formatting keeps every day's meals, so it keeps the scan's verdict. */
  lemma FormatKeepsMeals(days: seq<DayPlan>, req: MealPlanRequest)
    ensures PlanHasMeatOrEgg(FormatMealPlanResponse(days, req).weeklyPlan) == PlanHasMeatOrEgg(days)
  {
    var out := FormatMealPlanResponse(days, req).weeklyPlan;
    assert forall i :: 0 <= i < |days| ==> out[i].meals == days[i].meals;
  }

  /**
   * `POST /api/generate-meal-plan` with the catalog, the provider's outcome and
   * the JSON reader passed in. Every path that is not an accepted provider
   * plan ends in the deterministic plan.
   */
  method Post(request: Option<MealPlanRequest>, catalog: Catalog, provider: ProviderOutcome, parse: PlanParser)
    returns (r: Response)
    ensures request.None? ==> r == FallbackPlan(request, catalog) && r.Failed?
    ensures provider.NoApiKey? || provider.ProviderError? ==> r == FallbackPlan(request, catalog)
    ensures provider.Generated? && parse(ExtractJson(provider.text)).None? ==> r == FallbackPlan(request, catalog)
    ensures request.Some? && provider.Generated? && parse(ExtractJson(provider.text)).Some? ==>
      var plan := parse(ExtractJson(provider.text)).value;
      if Vegetarian in request.value.dietaryPreferences && PlanHasMeatOrEgg(plan)
      then r == FallbackPlan(request, catalog)
      else r == FormatMealPlanResponse(plan, request.value)
    ensures request.Some? && Vegetarian in request.value.dietaryPreferences ==>
      r == FallbackPlan(request, catalog) || (r.Planned? && !PlanHasMeatOrEgg(r.weeklyPlan))
  {
    if request.None? || !provider.Generated? {
      r := GenerateFallbackMealPlan(request, catalog);
      return;
    }
    var req := request.value;
    var jsonText := ExtractJson(provider.text);
    var parsed := parse(jsonText);
    if parsed.None? {
      r := GenerateFallbackMealPlan(request, catalog);
      return;
    }
    var mealPlanData := parsed.value;
    if Vegetarian in req.dietaryPreferences {
      var safe := ScanVegetarianPlan(mealPlanData);
      if !safe {
        r := GenerateFallbackMealPlan(request, catalog);
        return;
      }
    }
    r := FormatMealPlanResponse(mealPlanData, req);
    FormatKeepsMeals(mealPlanData, req);
  }
}
