/**
 * The first-generation protein utilities: a flat 1.2 g/kg rule and the same
 * three-template planner.
 */
module LegacyProtein {
  import opened Common
  import opened JsNumber
  import opened ProteinTemplates
  import ProteinFormula

  /** `calculateProtein(weight)`: `(weight * 1.2).toFixed(1)`, whatever else is known about the user. */
  function CalculateProtein(weight: real): (grams: real)
    ensures -0.05 <= grams - weight * 1.2 <= 0.05
  {
    ToFixed1(weight * 1.2)
  }

  /** The three daily templates of the planner. */
  const MealTemplates: seq<Template> := [
    Template(Portion("Milky Mist Greek Yogurt", 200.0, 20.0),
             Portion("Milky Mist High Protein Paneer", 150.0, 27.0),
             Portion("Milky Mist Skyr", 150.0, 16.5)),
    Template(Portion("Milky Mist Skyr", 200.0, 22.0),
             Portion("Milky Mist High Protein Paneer", 100.0, 18.0),
             Portion("Milky Mist Greek Yogurt", 250.0, 25.0)),
    Template(Portion("Milky Mist Greek Yogurt", 150.0, 15.0),
             Portion("Milky Mist High Protein Paneer", 200.0, 36.0),
             Portion("Milky Mist Skyr", 100.0, 11.0))
  ]

  /** `generateMealPlan(proteinRequired)`. */
  function GenerateMealPlan(proteinRequired: real): (plan: seq<TemplateDay>)
    ensures |plan| == 7
    ensures forall i :: 0 <= i < 7 ==> plan[i].day == DayNames[i] && plan[i].meals == MealTemplates[i % 3]
  {
    seq(7, i requires 0 <= i < 7 =>
      var template := MealTemplates[i % 3];
      var totalProtein := TemplateProtein(template);
      TemplateDay(DayNames[i], template, ToFixed1(totalProtein), totalProtein >= proteinRequired,
                  ToFixed1(Max0(proteinRequired - totalProtein))))
  }

  /** The flat rule is the current formula's moderate rate for anyone who gets no adjustment. */
  lemma FlatRuleIsUnadjustedModerate(weight: real, gender: string, age: real)
    requires gender != "male" && age < 50.0
    ensures CalculateProtein(weight) == ProteinFormula.ProteinTarget(weight, gender, "moderate", age)
  {
  }

  /** The first-generation planner produces exactly the current planner's plan. */
  lemma SamePlanAsCurrent(proteinRequired: real)
    ensures GenerateMealPlan(proteinRequired) == ProteinFormula.GenerateMealPlan(proteinRequired)
  {
    assert MealTemplates == ProteinFormula.MealTemplates;
  }

  /**
   * Seven days, Monday to Sunday, day `i` on template `i mod 3` (so Monday,
   * Thursday and Sunday share the first), each total the template's sum
   * (63.5, 65 or 62), achieved iff that sum reaches the target, and
   * `remaining` never negative and 0 on achieved days.
   */
  lemma LegacyPlanShape(proteinRequired: real)
    ensures |GenerateMealPlan(proteinRequired)| == 7
    ensures forall i :: 0 <= i < 7 ==>
      var day := GenerateMealPlan(proteinRequired)[i];
      && day.day == DayNames[i]
      && day.meals == MealTemplates[i % 3]
      && day.totalProtein == [63.5, 65.0, 62.0][i % 3]
      && (day.achieved <==> day.totalProtein >= proteinRequired)
      && day.remaining >= 0.0
      && (day.achieved ==> day.remaining == 0.0)
    ensures GenerateMealPlan(proteinRequired)[0].meals == GenerateMealPlan(proteinRequired)[3].meals
                                                        == GenerateMealPlan(proteinRequired)[6].meals
  {
    SamePlanAsCurrent(proteinRequired);
    ProteinFormula.TemplateTotals();
    ProteinFormula.PlanTotals(proteinRequired);
    ProteinFormula.PlanRemaining(proteinRequired);
  }
}
