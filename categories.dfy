/** The display label of a practitioner category. */
module Categories {

  /** PRACTITIONER_CATEGORY; `Unlisted` stands for any other stored value. */
  datatype Category =
    | GeneralPractitioner
    | Gynecologist
    | Physiotherapist
    | Psychologist
    | WellnessHub
    | Biokineticist
    | Dentist
    | Unlisted(code: int)

  const FallbackLabel: string := "Practitioner category"

  /** `mapPractitionerCategoryToString`: a fixed label per category, and the
      generic label for anything else. */
  function CategoryLabel(c: Category): (name: string)
    ensures |name| > 0
    ensures c.Unlisted? <==> name == FallbackLabel
  {
    match c
    case GeneralPractitioner => "General practitioner"
    case Gynecologist => "Gynecologist"
    case Physiotherapist => "Physiotherapist"
    case Psychologist => "Psychologist"
    case WellnessHub => "Wellness hub"
    case Biokineticist => "Biokineticist"
    case Dentist => "Dentist"
    case Unlisted(_) => FallbackLabel
  }

  /** Different listed categories get different labels. */
  lemma LabelsDistinct(a: Category, b: Category)
    requires !a.Unlisted? && !b.Unlisted? && a != b
    ensures CategoryLabel(a) != CategoryLabel(b)
  {
  }

  /** Each label names its category's profession, capitalised. */
  lemma LabelExamples()
    ensures CategoryLabel(GeneralPractitioner) == "General practitioner"
    ensures CategoryLabel(WellnessHub) == "Wellness hub"
    ensures CategoryLabel(Dentist) == "Dentist"
  {
  }
}
