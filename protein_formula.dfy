/**
 * The current protein formula and template planner: a per-kg rate looked up
 * by activity level, raised for men and for older adults, times the weight,
 * rounded to one decimal.
 */
module ProteinFormula {
  import opened Common
  import opened JsNumber
  import opened ProteinTemplates

  const DefaultGender := "male"
  const DefaultActivity := "moderate"
  const DefaultAge := 30.0

  /** Grams of protein per kg of body weight, by activity level. */
  const ActivityMultipliers: map<string, real> :=
    map["sedentary" := 0.8, "light" := 1.0, "moderate" := 1.2, "active" := 1.4, "veryActive" := 1.6]

  /** `activityMultipliers[activityLevel] || activityMultipliers.moderate` (every table rate is truthy). */
  function ActivityRate(level: string): (rate: real)
    ensures 0.8 <= rate <= 1.6
  {
    if level in ActivityMultipliers then ActivityMultipliers[level] else ActivityMultipliers["moderate"]
  }

  /** The rate after the gender and age adjustments. */
  function RatePerKg(gender: string, level: string, age: real): (rate: real)
    ensures 0.8 <= rate <= 1.9
  {
    ActivityRate(level)
      + (if gender == "male" then 0.1 else 0.0)
      + (if age >= 65.0 then 0.2 else if age >= 50.0 then 0.1 else 0.0)
  }

  /** The daily target in grams: `(weight * rate).toFixed(1)`, read as a number. */
  function ProteinTarget(weight: real, gender: string, level: string, age: real): (grams: real)
    ensures -0.05 <= grams - weight * RatePerKg(gender, level, age) <= 0.05
  {
    Scaled(weight, RatePerKg(gender, level, age))
  }

  /** `(weight * rate).toFixed(1)`, read as a number. */
  function Scaled(weight: real, rate: real): (r: real)
    ensures -0.05 <= r - weight * rate <= 0.05
  {
    ToFixed1(weight * rate)
  }

  /**
   * `calculateProtein(weight, gender = 'male', activityLevel = 'moderate', age = 30)`:
   * the rate is accumulated step by step as in the source.
   */
  method CalculateProtein(weight: real, gender: Option<string>, activityLevel: Option<string>, age: Option<real>)
    returns (grams: real)
    ensures grams == ProteinTarget(weight, gender.GetOr(DefaultGender), activityLevel.GetOr(DefaultActivity), age.GetOr(DefaultAge))
    ensures -0.05 <= grams - weight * RatePerKg(gender.GetOr(DefaultGender), activityLevel.GetOr(DefaultActivity), age.GetOr(DefaultAge)) <= 0.05
  {
    var g := gender.GetOr(DefaultGender);
    var level := activityLevel.GetOr(DefaultActivity);
    var years := age.GetOr(DefaultAge);
    var proteinPerKg := ActivityRate(level);
    if g == "male" {
      proteinPerKg := proteinPerKg + 0.1;
    }
    if years >= 65.0 {
      proteinPerKg := proteinPerKg + 0.2;
    } else if years >= 50.0 {
      proteinPerKg := proteinPerKg + 0.1;
    }
    assert proteinPerKg == RatePerKg(g, level, years);
    grams := Scaled(weight, proteinPerKg);
  }

  /** `calculateProteinSimple(weight)`: a 30-year-old moderately active man. */
  method CalculateProteinSimple(weight: real) returns (grams: real)
    ensures grams == ProteinTarget(weight, "male", "moderate", 30.0)
    ensures grams == ToFixed1(weight * 1.3)
  {
    grams := CalculateProtein(weight, Some("male"), Some("moderate"), Some(30.0));
  }

  /** An activity level missing from the table gets the moderate rate, 1.2 g/kg. */
  lemma UnknownActivityIsModerate(level: string)
    requires level !in ActivityMultipliers
    ensures ActivityRate(level) == ActivityRate(DefaultActivity) == 1.2
  {
  }

  /** Being male adds exactly 0.1 g/kg; any other gender adds nothing. */
  lemma MaleAddsOneTenth(gender: string, level: string, age: real)
    requires gender != "male"
    ensures RatePerKg("male", level, age) == RatePerKg(gender, level, age) + 0.1
    ensures RatePerKg(gender, level, age) == RatePerKg("female", level, age)
  {
  }

  /** The age adjustments are exclusive: +0.2 from 65, +0.1 from 50 to 64, nothing below 50. */
  lemma AgeAdjustment(gender: string, level: string, age: real)
    ensures age >= 65.0 ==> RatePerKg(gender, level, age) == RatePerKg(gender, level, 0.0) + 0.2
    ensures 50.0 <= age < 65.0 ==> RatePerKg(gender, level, age) == RatePerKg(gender, level, 0.0) + 0.1
    ensures age < 50.0 ==> RatePerKg(gender, level, age) == RatePerKg(gender, level, 0.0)
  {
  }

  /** Multiplying by a non-negative rate keeps the order. */
  lemma ScaleMonotone(a: real, b: real, c: real)
    requires a <= b && 0.0 <= c
    ensures a * c <= b * c
  {
    var d := b - a;
    assert b * c == a * c + d * c;
  }

  /** Scaling by a non-negative rate, then rounding to tenths, keeps the order. */
  lemma RoundedScaleMonotone(w1: real, w2: real, rate: real)
    requires w1 <= w2 && 0.0 <= rate
    ensures Scaled(w1, rate) <= Scaled(w2, rate)
  {
    ScaleMonotone(w1, w2, rate);
    ToFixed1Monotone(w1 * rate, w2 * rate);
  }

  /** The rate never falls below the sedentary 0.8 g/kg. */
  lemma RateAtLeastSedentary(gender: string, level: string, age: real)
    ensures RatePerKg(gender, level, age) >= 0.8
  {
    assert ActivityRate(level) >= 0.8;
  }

  /** For fixed gender, activity and age the target never decreases as the weight grows. */
  lemma TargetMonotoneInWeight(w1: real, w2: real, gender: string, level: string, age: real)
    requires w1 <= w2
    ensures ProteinTarget(w1, gender, level, age) <= ProteinTarget(w2, gender, level, age)
  {
    RateAtLeastSedentary(gender, level, age);
    RoundedScaleMonotone(w1, w2, RatePerKg(gender, level, age));
  }

  /** 70 kg, male, moderate, 30 years: 70 x (1.2 + 0.1) = 91.0 g. */
  lemma ExampleModerateMan()
    ensures ProteinTarget(70.0, "male", "moderate", 30.0) == 91.0
  {
    assert RatePerKg("male", "moderate", 30.0) == 1.3;
    ToFixed1OfTenths(910);
  }

  /** 70 kg, female, sedentary, 70 years: 70 x (0.8 + 0.2) = 70.0 g. */
  lemma ExampleSedentaryOlderWoman()
    ensures ProteinTarget(70.0, "female", "sedentary", 70.0) == 70.0
  {
    assert RatePerKg("female", "sedentary", 70.0) == 1.0;
    ToFixed1OfTenths(700);
  }

  /** The three daily templates of the planner. */
  const MealTemplates: seq<Template> := [
    Template(Portion("Milky Mist Greek Yogurt", 200.0, 20.0),
             Portion("Milky Mist High Protein Paneer", 150.0, 27.0),
             Portion("Milky Mist Skyr", 150.0, 16.5)),
    Template(Portion("Milky Mist Skyr", 200.0, 22.0),
             Portion("Milky Mist High Protein Paneer", 100.0, 18.0),
             Portion("Milky Mist Greek Yogurt", 250.0, 25.0)),
    Template(Portion("Milky Mist Greek Yogurt", 150.0, 15.0),
             Portion("Milky Mist High Protein Paneer", 200.0, 36.0),
             Portion("Milky Mist Skyr", 100.0, 11.0))
  ]

  /** The entry `days.map` produces for day `i`. */
  function PlanDay(i: nat, proteinRequired: real): TemplateDay
    requires i < 7
  {
    var template := MealTemplates[i % 3];
    var totalProtein := TemplateProtein(template);
    TemplateDay(DayNames[i], template, ToFixed1(totalProtein), totalProtein >= proteinRequired,
                ToFixed1(Max0(proteinRequired - totalProtein)))
  }

  /** `generateMealPlan(proteinRequired)`: seven days, Monday to Sunday, day `i` on template `i mod 3`. */
  function GenerateMealPlan(proteinRequired: real): (plan: seq<TemplateDay>)
    ensures |plan| == 7
    ensures forall i :: 0 <= i < 7 ==> plan[i].day == DayNames[i] && plan[i].meals == MealTemplates[i % 3]
  {
    seq(7, i requires 0 <= i < 7 => PlanDay(i, proteinRequired))
  }

  /** The template sums: 63.5, 65 and 62 grams. */
  lemma TemplateTotals()
    ensures TemplateProtein(MealTemplates[0]) == 63.5
    ensures TemplateProtein(MealTemplates[1]) == 65.0
    ensures TemplateProtein(MealTemplates[2]) == 62.0
  {
  }

  /**
   * Each day's reported total is its template's protein sum (already a whole
   * number of tenths), and the day is achieved iff that sum reaches the target.
   */
  lemma PlanTotals(proteinRequired: real)
    ensures forall i :: 0 <= i < 7 ==>
      && GenerateMealPlan(proteinRequired)[i].totalProtein == TemplateProtein(MealTemplates[i % 3])
      && (GenerateMealPlan(proteinRequired)[i].achieved <==> TemplateProtein(MealTemplates[i % 3]) >= proteinRequired)
  {
    TemplateTotals();
    ToFixed1OfTenths(635);
    ToFixed1OfTenths(650);
    ToFixed1OfTenths(620);
  }

  /**
   * `remaining` is never negative, is 0 on an achieved day, and otherwise
   * reports the shortfall to within the 0.05 of rounding; the unrounded
   * shortfall is 0 exactly on achieved days.
   */
  lemma PlanRemaining(proteinRequired: real)
    ensures forall i :: 0 <= i < 7 ==>
      var day := GenerateMealPlan(proteinRequired)[i];
      var shortfall := proteinRequired - TemplateProtein(MealTemplates[i % 3]);
      && day.remaining >= 0.0
      && (Max0(shortfall) == 0.0 <==> day.achieved)
      && (day.achieved ==> day.remaining == 0.0)
      && (!day.achieved ==> -0.05 <= day.remaining - shortfall <= 0.05)
  {
    ToFixed1OfTenths(0);
  }

  /**
   * Rounding can hide a shortfall: with a target of 63.54 g, Monday (63.5 g)
   * is not achieved, yet its `remaining` reads 0.0.
   */
  lemma RemainingRoundsToZero()
    ensures !GenerateMealPlan(63.54)[0].achieved
    ensures GenerateMealPlan(63.54)[0].remaining == 0.0
  {
    TemplateTotals();
    var shortfall := 63.54 - TemplateProtein(MealTemplates[0]);
    assert Max0(shortfall) == 0.04;
    assert Tenths(0.04) == 0;
  }
}
