/** The records the prompt builders read: the suspect's target information
    and the location, and the season of a seasonal variant. */
module Types {
  import opened Wrappers

  /** `'male' | 'female' | 'unknown'`. */
  datatype Gender = Male | Female | UnknownGender

  /** `number | 'unknown'`, restricted to whole non-negative numbers; their
      decimal text is exact up to 2^53. */
  datatype Age = Years(years: nat) | UnknownAge

  /** `TargetInfo` without its `imageFile`, as the two builders that take a
      target receive it.
      `shotYear` is free text (the literal 'unknown' is one such text);
      the optional fields are `Option`s. */
  datatype TargetInfo = TargetInfo(
    shotYear: string,
    age: Age,
    gender: Gender,
    ethnicity: Option<string>,
    features: Option<string>,
    captureAge: Option<Age>)

  datatype LocationInfo = LocationInfo(
    country: string,
    city: string,
    neighborhood: Option<string>)

  datatype Season = Summer | Winter | Spring

  /** The string literal that stands for a gender in the source. */
  function GenderKey(g: Gender): (r: string)
    ensures GenderFromKey(r) == Some(g)
  {
    match g
    case Male => "male"
    case Female => "female"
    case UnknownGender => "unknown"
  }

  /** Reads a gender literal back. */
  function GenderFromKey(s: string): Option<Gender> {
    if s == "male" then Some(Male)
    else if s == "female" then Some(Female)
    else if s == "unknown" then Some(UnknownGender)
    else None
  }

  /** The string literal that stands for a season in the source. */
  function SeasonName(s: Season): (r: string)
    ensures SeasonFromName(r) == Some(s)
  {
    match s
    case Summer => "Summer"
    case Winter => "Winter"
    case Spring => "Spring"
  }

  function SeasonFromName(name: string): Option<Season> {
    if name == "Summer" then Some(Summer)
    else if name == "Winter" then Some(Winter)
    else if name == "Spring" then Some(Spring)
    else None
  }

  /** The three gender literals name the three genders one-to-one. */
  lemma GenderKeyExactly(s: string, g: Gender)
    ensures GenderFromKey(s) == Some(g) <==> GenderKey(g) == s
  {
  }

  /** The three season literals name the three seasons one-to-one. */
  lemma SeasonNameExactly(name: string, s: Season)
    ensures SeasonFromName(name) == Some(s) <==> SeasonName(s) == name
  {
  }
}
