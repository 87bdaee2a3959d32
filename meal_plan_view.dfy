/**
 * The pure helpers of the weekly-plan view: the grocery-delivery search
 * link, the target comparison and when dietary tags are shown.
 */
module MealPlanView {
  import opened Text
  import opened Recipes
  import PlanAssembler

  const ZeptoSearch := "https://www.zeptonow.com/search?query="

  /** `s.replace(/\s+/g, '+')`: every maximal run of white space becomes one `+`. */
  function CollapseWhitespace(s: string): (r: string)
    ensures NoSpace(r)
    ensures |r| <= |s|
    decreases |s|
  {
    if s == [] then []
    else if IsSpace(s[0]) then
      var rest := CollapseWhitespace(TrimStart(s[1..]));
      ['+'] + rest
    else
      var rest := CollapseWhitespace(s[1..]);
      [s[0]] + rest
  }

  /** The search query: the lower-cased product name with white-space runs replaced. */
  function SearchQuery(productName: string): (query: string)
    ensures NoSpace(query)
    ensures |query| <= |productName|
  {
    CollapseWhitespace(Lower(productName))
  }

  /** `getDeliveryLink(productName, platform)`. */
  function GetDeliveryLink(productName: string, platform: string): (link: string)
    ensures platform == "zepto" ==> link == ZeptoSearch + SearchQuery(productName)
    ensures platform != "zepto" ==> link == "#"
  {
    if platform == "zepto" then ZeptoSearch + SearchQuery(productName) else "#"
  }

  /** Text without white space passes through the replacement unchanged. */
  lemma {:induction false} CollapseWithoutSpace(s: string)
    requires NoSpace(s)
    ensures CollapseWhitespace(s) == s
    decreases |s|
  {
    if s != [] {
      CollapseWithoutSpace(s[1..]);
      assert s == [s[0]] + s[1..];
    }
  }

  /** Replacing twice is replacing once. */
  lemma CollapseIdempotent(s: string)
    ensures CollapseWhitespace(CollapseWhitespace(s)) == CollapseWhitespace(s)
  {
    CollapseWithoutSpace(CollapseWhitespace(s));
  }

  /** A leading white-space character starts a run that becomes one `+`. */
  lemma SpaceHead(s: string)
    requires |s| > 0 && IsSpace(s[0])
    ensures CollapseWhitespace(s) == "+" + CollapseWhitespace(TrimStart(s[1..]))
  {
  }

  /** A maximal white-space run at the front becomes a single `+`, and the rest is replaced on its own. */
  lemma GapBeforeRest(gap: string, rest: string)
    requires |gap| > 0 && AllSpace(gap)
    requires rest == [] || !IsSpace(rest[0])
    ensures CollapseWhitespace(gap + rest) == "+" + CollapseWhitespace(rest)
  {
    var t := gap + rest;
    assert t[1..] == gap[1..] + rest;
    assert TrimStart(t[1..]) == rest by {
      TailAllSpace(gap);
      TrimStartDropsGap(gap[1..], rest);
    }
    SpaceHead(t);
  }

  /**
   * A white-space-free prefix is copied, the maximal white-space run after
   * it becomes a single `+`, and the rest (which may hold further runs) is
   * replaced on its own. With `CollapseWithoutSpace` this fixes the result
   * on every input, one run at a time.
   */
  lemma {:induction false} GapBecomesOnePlus(first: string, gap: string, rest: string)
    requires NoSpace(first)
    requires |gap| > 0 && AllSpace(gap)
    requires rest == [] || !IsSpace(rest[0])
    ensures CollapseWhitespace(first + gap + rest) == first + "+" + CollapseWhitespace(rest)
    decreases |first|
  {
    if first == [] {
      assert first + gap + rest == gap + rest;
      assert first + "+" + CollapseWhitespace(rest) == "+" + CollapseWhitespace(rest);
      GapBeforeRest(gap, rest);
    } else {
      var c := first[0];
      var tail := first[1..];
      assert NoSpace(tail) by {
        assert forall i :: 0 <= i < |tail| ==> tail[i] == first[i + 1];
      }
      var s := tail + gap + rest;
      var out := tail + "+" + CollapseWhitespace(rest);
      assert first + gap + rest == [c] + s by {
        assert first == [c] + tail;
      }
      assert first + "+" + CollapseWhitespace(rest) == [c] + out by {
        assert first == [c] + tail;
      }
      GapBecomesOnePlus(tail, gap, rest);
      KeepsNonSpace(c, s);
    }
  }

  /** A character that is not white space is copied as it is. */
  lemma KeepsNonSpace(c: char, s: string)
    requires !IsSpace(c)
    ensures CollapseWhitespace([c] + s) == [c] + CollapseWhitespace(s)
  {
    assert ([c] + s)[1..] == s;
  }

  /**
   * Every Zepto link is the fixed search prefix followed by a query that
   * contains no white space and is no longer than the product name.
   */
  lemma ZeptoLinkShape(productName: string)
    ensures var link := GetDeliveryLink(productName, "zepto");
      && link[..|ZeptoSearch|] == ZeptoSearch
      && |link| <= |ZeptoSearch| + |productName|
      && forall i :: |ZeptoSearch| <= i < |link| ==> !IsSpace(link[i])
  {
    var q := SearchQuery(productName);
    var link := ZeptoSearch + q;
    assert forall i :: |ZeptoSearch| <= i < |link| ==> link[i] == q[i - |ZeptoSearch|];
  }

  /** `meetsTarget`: the rounded daily average reaches the requirement. */
  predicate MeetsTarget(averageDailyProtein: int, proteinRequired: real) {
    averageDailyProtein as real >= proteinRequired
  }

  /** `proteinDifference`: how far the average lies from the requirement. */
  function ProteinDifference(averageDailyProtein: int, proteinRequired: real): (d: real)
    ensures d >= 0.0
  {
    var x := averageDailyProtein as real - proteinRequired;
    if x < 0.0 then -x else x
  }

  /**
   * The displayed surplus or shortfall: met targets are exceeded by the
   * difference, missed ones fall short by it, and the difference is zero
   * exactly when the average equals the requirement.
   */
  lemma DifferenceSplitsOnTarget(averageDailyProtein: int, proteinRequired: real)
    ensures MeetsTarget(averageDailyProtein, proteinRequired) ==>
      averageDailyProtein as real == proteinRequired + ProteinDifference(averageDailyProtein, proteinRequired)
    ensures !MeetsTarget(averageDailyProtein, proteinRequired) ==>
      averageDailyProtein as real == proteinRequired - ProteinDifference(averageDailyProtein, proteinRequired)
      && ProteinDifference(averageDailyProtein, proteinRequired) > 0.0
    ensures ProteinDifference(averageDailyProtein, proteinRequired) == 0.0 <==>
      averageDailyProtein as real == proteinRequired
  {
  }

  /** The tag row of a meal is shown only for a tagged meal under real preferences. */
  predicate ShowDietaryTags(mealDietary: seq<string>, dietaryPreferences: seq<string>) {
    |mealDietary| > 0 && |dietaryPreferences| > 0 && "all" !in dietaryPreferences
  }

  /**
   * A plan answered to a request without preferences echoes `["all"]`, so
   * no meal shows its tags; with genuine preferences a tagged meal does.
   */
  lemma TagsFollowRequest(days: seq<DayPlan>, req: MealPlanRequest, mealDietary: seq<string>)
    ensures req.dietaryPreferences == [] ==>
      !ShowDietaryTags(mealDietary, PlanAssembler.FormatMealPlanResponse(days, req).dietaryPreferences)
    ensures |req.dietaryPreferences| > 0 && "all" !in req.dietaryPreferences && |mealDietary| > 0 ==>
      ShowDietaryTags(mealDietary, PlanAssembler.FormatMealPlanResponse(days, req).dietaryPreferences)
  {
    var echo := PlanAssembler.FormatMealPlanResponse(days, req).dietaryPreferences;
    if req.dietaryPreferences == [] {
      assert echo == ["all"];
      assert echo[0] == "all";
    }
  }
}
