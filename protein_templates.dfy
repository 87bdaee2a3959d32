/** The records of the template meal planners (one product portion per slot). */
module ProteinTemplates {

  /** One dairy portion: product, serving size in grams, protein in grams. */
  datatype Portion = Portion(product: string, serving: real, protein: real)

  /** A day's three portions. */
  datatype Template = Template(breakfast: Portion, lunch: Portion, dinner: Portion)

  /**
   * One planned day; `totalProtein` and `remaining` are the values of the
   * `toFixed(1)` strings the planner returns.
   */
  datatype TemplateDay = TemplateDay(day: string, meals: Template, totalProtein: real, achieved: bool, remaining: real)

  /** `template.breakfast.protein + template.lunch.protein + template.dinner.protein`. */
  function TemplateProtein(t: Template): real {
    t.breakfast.protein + t.lunch.protein + t.dinner.protein
  }

  /** `Math.max(0, x)`. */
  function Max0(x: real): (m: real)
    ensures m >= 0.0 && m >= x
    ensures m == 0.0 || m == x
  {
    if x > 0.0 then x else 0.0
  }
}
