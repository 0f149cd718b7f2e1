/** The prompt builders: total functions that fill fixed text templates with
    the fields of the target and location records.  Each builder has a
    reader beside it that takes the prompt apart again; that the reader
    recovers exactly the substituted values is what shows which values
    appear, where, and that no other input-dependent text does. */
module Prompts {
  import opened Wrappers
  import opened Text
  import opened Decimal
  import opened Types

  // ---------------------------------------------------------------------
  // Slot values

  /** ASCII upper case of a letter; other characters are unchanged. */
  function UpperCase(c: char): char {
    if 'a' <= c <= 'z' then (c as int - 32) as char else c
  }

  /** The text with its first letter in upper case. */
  function Capitalize(s: string): string {
    if |s| == 0 then s else [UpperCase(s[0])] + s[1..]
  }

  /** The gender as the base prompt writes it: the source's literal with a
      capital first letter. */
  function GenderLabel(g: Gender): (r: string)
    ensures r == Capitalize(GenderKey(g))
  {
    match g
    case Male => "Male"
    case Female => "Female"
    case UnknownGender => "Unknown"
  }

  /** Reads an age written as `String(n)`, or as the given word for an
      unknown age. */
  function ParseAge(s: string, unknownWord: string): Option<Age> {
    if s == unknownWord then Some(UnknownAge)
    else
      match ParseDecimal(s)
      case Some(n) => Some(Years(n))
      case None => None
  }

  /** The age in the base prompt: a number as its decimal text, otherwise
      the word "Unknown". */
  function AgeLabel(a: Age): (r: string)
    ensures ParseAge(r, "Unknown") == Some(a)
    ensures ']' !in r && ',' !in r
  {
    match a
    case Years(n) =>
      var digits := NatToDecimal(n);
      assert IsDigit(digits[0]);
      digits
    case UnknownAge => "Unknown"
  }

  /** `String(target.age)` in the keyword prompt: no capitalisation, so an
      unknown age is the lower-case literal "unknown". */
  function AgeText(a: Age): (r: string)
    ensures ParseAge(r, "unknown") == Some(a)
    ensures ']' !in r && ',' !in r
    ensures a.Years? ==> r == AgeLabel(a)
    ensures a.UnknownAge? ==> r != AgeLabel(a)
  {
    match a
    case Years(_) => AgeLabel(a)
    case UnknownAge => "unknown"
  }

  /** JavaScript's `value || fallback` on an optional string: a missing or
      empty value is falsy and gives the fallback. */
  function OrElse(value: Option<string>, fallback: string): (r: string)
    ensures value.Some? && value.value != "" ==> r == value.value
    ensures value.None? || value.value == "" ==> r == fallback
    ensures fallback != "" ==> r != ""
  {
    match value
    case Some(v) => if v != "" then v else fallback
    case None => fallback
  }

  function EthnicityLabel(t: TargetInfo): string {
    OrElse(t.ethnicity, "Unknown")
  }

  function FeaturesLabel(t: TargetInfo): string {
    OrElse(t.features, "None")
  }

  // ---------------------------------------------------------------------
  // buildBaseImagePrompt

  /** The fixed text of the base prompt, around its slots: each lead ends
      with the `[` that opens its slot, and `]` closes the slot. */
  datatype BaseTemplate = BaseTemplate(
    genderLead: string, ethnicityLead: string, ageLead: string,
    currentAgeLead: string, featuresLead: string, tail: string)

  const BaseText: BaseTemplate := BaseTemplate(
    // genderLead
      "\n"
    + "  Generate a high-resolution, photorealistic color portrait of a criminal suspect based on the provided montage sketch. The primary goal is to realistically age the individual depicted in the sketch to their current estimated age for identification purposes.\n"
    + "\n"
    + "\n"
    + "**Primary Directive: Maintain Likeness**\n"
    + "Your absolute top priority is to maintain a strong and faithful resemblance to the original montage sketch. The generated portrait must be immediately recognizable as the same individual, only aged. Treat the sketch as the ground truth for the fundamental facial structure, bone shape, and the precise proportions and placement of all features. All other instructions are secondary to this core objective.\n"
    + "\n"
    + "\n"
    + "**Scene Description & Context:**\n"
    + "\n"
    + "The provided image is a police sketch created when the suspect, a [",
    // ethnicityLead
      " of [",
    // ageLead
      " descent, was estimated to be [",
    // currentAgeLead
      " years old.\n"
    + "\n"
    + "Your task is to transform this sketch into a photorealistic portrait, aging the individual to their current estimated age of [",
    // featuresLead
      " years. You must accurately translate the core facial structure, bone shape, and key features from the sketch while applying natural signs of aging. This includes realistic wrinkles, changes in skin texture and elasticity, and potential hair color changes (e.g., graying) that are appropriate for their current age.\n"
    + "\n"
    + "If available, incorporate these distinguishing features naturally into the portrait: [",
    // tail
      ".\n"
    + "\n"
    + "**Photographic Style & Technical Details:**\n"
    + "\n"
    + "*   **Style:** The final image must be a photorealistic photograph, not a drawing, illustration, or CGI-style rendering. It should resemble a modern digital mugshot or a passport photo.\n"
    + "*   **Camera & Angle:** The perspective must be a direct, front-facing shot of the head and shoulders. Use a standard portrait lens setting to ensure the facial features are not distorted.\n"
    + "*   **Lighting:** Employ neutral, even studio lighting that clearly illuminates the face and minimizes harsh shadows, ensuring all details are visible.\n"
    + "*   **Details:** Render realistic skin texture, including pores and fine lines. The eyes should appear lifelike and clear.\n"
    + "*   **Background:** The background should be simple and out of focus, using a neutral color like light gray or blue, to keep the entire focus on the suspect's face.")

  /** The base prompt with its four slot values substituted, the age twice. */
  function FillBase(tpl: BaseTemplate, gender: string, ethnicity: string, age: string, features: string): string {
    Field(tpl.genderLead, gender, ']')
      + Field(tpl.ethnicityLead, ethnicity, ']')
      + Field(tpl.ageLead, age, ']')
      + Field(tpl.currentAgeLead, age, ']')
      + Field(tpl.featuresLead, features, ']')
      + tpl.tail
  }

  /** `buildBaseImagePrompt`: the fixed template with exactly the gender
      label, the ethnicity (or "Unknown"), the age label twice and the
      features (or "None") in its slots.  Free text holding a `]` is left
      out of the promise only because it makes the slots ambiguous to read
      back. */
  function BuildBaseImagePrompt(t: TargetInfo): (r: string)
    ensures ']' !in EthnicityLabel(t) && ']' !in FeaturesLabel(t) ==>
      ReadBase(BaseText, r) == Some(BaseSlots(
        GenderLabel(t.gender), EthnicityLabel(t), AgeLabel(t.age), AgeLabel(t.age), FeaturesLabel(t)))
  {
    var gender, ethnicity, age, features := GenderLabel(t.gender), EthnicityLabel(t), AgeLabel(t.age), FeaturesLabel(t);
    var p := FillBase(BaseText, gender, ethnicity, age, features);
    assert ']' !in ethnicity && ']' !in features ==>
      ReadBase(BaseText, p) == Some(BaseSlots(gender, ethnicity, age, age, features)) by {
      if ']' !in ethnicity && ']' !in features {
        ReadFillBase(BaseText, gender, ethnicity, age, features);
      }
    }
    p
  }

  /** The bracketed values of a base prompt, in the order they appear. */
  datatype BaseSlots = BaseSlots(
    gender: string, ethnicity: string, age: string, currentAge: string, features: string)

  /** Takes a base prompt apart: every piece of fixed text must be where the
      template puts it, and each slot runs up to the next `]`. */
  function ReadBase(tpl: BaseTemplate, p: string): Option<BaseSlots> {
    var gender :- ReadField(p, tpl.genderLead, ']');
    var ethnicity :- ReadField(gender.1, tpl.ethnicityLead, ']');
    var age :- ReadField(ethnicity.1, tpl.ageLead, ']');
    var currentAge :- ReadField(age.1, tpl.currentAgeLead, ']');
    var features :- ReadField(currentAge.1, tpl.featuresLead, ']');
    if features.1 == tpl.tail then
      Some(BaseSlots(gender.0, ethnicity.0, age.0, currentAge.0, features.0))
    else None
  }

  /** Reading a filled base template gives back the values filled in, as
      long as the values that go between brackets hold no `]`. */
  lemma ReadFillBase(tpl: BaseTemplate, gender: string, ethnicity: string, age: string, features: string)
    requires ']' !in gender && ']' !in ethnicity && ']' !in age && ']' !in features
    ensures ReadBase(tpl, FillBase(tpl, gender, ethnicity, age, features))
      == Some(BaseSlots(gender, ethnicity, age, age, features))
  {
    var rest4 := tpl.tail;
    var rest3 := Field(tpl.featuresLead, features, ']') + rest4;
    var rest2 := Field(tpl.currentAgeLead, age, ']') + rest3;
    var rest1 := Field(tpl.ageLead, age, ']') + rest2;
    var rest0 := Field(tpl.ethnicityLead, ethnicity, ']') + rest1;
    assert FillBase(tpl, gender, ethnicity, age, features) == Field(tpl.genderLead, gender, ']') + rest0;
    ReadFieldOf(tpl.genderLead, gender, ']', rest0);
    ReadFieldOf(tpl.ethnicityLead, ethnicity, ']', rest1);
    ReadFieldOf(tpl.ageLead, age, ']', rest2);
    ReadFieldOf(tpl.currentAgeLead, age, ']', rest3);
    ReadFieldOf(tpl.featuresLead, features, ']', rest4);
  }

  /** Whatever the free-text fields hold, targets of different genders get
      different base prompts: the first character after the fixed head is
      'M', 'F' or 'U'. */
  lemma BaseImagePromptGender(t1: TargetInfo, t2: TargetInfo)
    requires t1.gender != t2.gender
    ensures BuildBaseImagePrompt(t1) != BuildBaseImagePrompt(t2)
  {
    FillBaseGender(BaseText,
      GenderLabel(t1.gender), EthnicityLabel(t1), AgeLabel(t1.age), FeaturesLabel(t1),
      GenderLabel(t2.gender), EthnicityLabel(t2), AgeLabel(t2.age), FeaturesLabel(t2));
  }

  /** For any template, two fillings whose gender values start differently
      differ at the character after the gender lead. */
  lemma FillBaseGender(tpl: BaseTemplate,
                       g1: string, e1: string, a1: string, f1: string,
                       g2: string, e2: string, a2: string, f2: string)
    requires |g1| >= 1 && |g2| >= 1 && g1[0] != g2[0]
    ensures FillBase(tpl, g1, e1, a1, f1) != FillBase(tpl, g2, e2, a2, f2)
  {
    var i := |tpl.genderLead|;
    assert FillBase(tpl, g1, e1, a1, f1)[i] == g1[0];
    assert FillBase(tpl, g2, e2, a2, f2)[i] == g2[0];
  }

  // ---------------------------------------------------------------------
  // buildKeywordPrompt

  /** The fixed text of the keyword prompt, before each of its values; the
      first four values end at a `,`, the gender at the final `.`. */
  datatype KeywordTemplate = KeywordTemplate(
    countryLead: string, cityLead: string, yearLead: string, ageLead: string, genderLead: string)

  const KeywordText: KeywordTemplate := KeywordTemplate(
      "You are assisting investigators to disguise-trace a suspect.\n"
    + "Return exactly 5 concise style keywords that are plausible for the region and demographics.\n"
    + "Respond ONLY with a raw JSON array of strings (no code fences, no explanation).\n"
    + "Context: country=",
      " city=",
      "\nyear=",
      " age=",
      " gender=")

  function FillKeyword(tpl: KeywordTemplate, country: string, city: string, year: string, age: string, gender: string): string {
    Field(tpl.countryLead, country, ',')
      + Field(tpl.cityLead, city, ',')
      + Field(tpl.yearLead, year, ',')
      + Field(tpl.ageLead, age, ',')
      + Field(tpl.genderLead, gender, '.')
  }

  /** `buildKeywordPrompt`: country, city, shot year, `String(age)` and the
      gender literal exactly as given, and nothing else that depends on the
      input (neither the neighbourhood nor the ethnicity, features or
      capture age).  Values holding a `,` are left out of the promise only
      because they make the fields ambiguous to read back. */
  function BuildKeywordPrompt(location: LocationInfo, t: TargetInfo): (r: string)
    ensures ',' !in location.country && ',' !in location.city && ',' !in t.shotYear ==>
      ReadKeyword(KeywordText, r) == Some(KeywordContext(
        location.country, location.city, t.shotYear, AgeText(t.age), GenderKey(t.gender)))
  {
    var country, city, year, age, gender := location.country, location.city, t.shotYear, AgeText(t.age), GenderKey(t.gender);
    var p := FillKeyword(KeywordText, country, city, year, age, gender);
    assert ',' !in country && ',' !in city && ',' !in year ==>
      ReadKeyword(KeywordText, p) == Some(KeywordContext(country, city, year, age, gender)) by {
      if ',' !in country && ',' !in city && ',' !in year {
        assert '.' !in gender;
        ReadFillKeyword(KeywordText, country, city, year, age, gender);
      }
    }
    p
  }

  /** The values of the context line of a keyword prompt. */
  datatype KeywordContext = KeywordContext(
    country: string, city: string, year: string, age: string, gender: string)

  /** Takes a keyword prompt apart; each value runs up to the next `,`, the
      gender up to the final `.`, and nothing may follow. */
  function ReadKeyword(tpl: KeywordTemplate, p: string): Option<KeywordContext> {
    var country :- ReadField(p, tpl.countryLead, ',');
    var city :- ReadField(country.1, tpl.cityLead, ',');
    var year :- ReadField(city.1, tpl.yearLead, ',');
    var age :- ReadField(year.1, tpl.ageLead, ',');
    var gender :- ReadField(age.1, tpl.genderLead, '.');
    if gender.1 == "" then
      Some(KeywordContext(country.0, city.0, year.0, age.0, gender.0))
    else None
  }

  /** Reading a filled keyword template gives back the values filled in, as
      long as no value holds its closing character. */
  lemma ReadFillKeyword(tpl: KeywordTemplate, country: string, city: string, year: string, age: string, gender: string)
    requires ',' !in country && ',' !in city && ',' !in year && ',' !in age && '.' !in gender
    ensures ReadKeyword(tpl, FillKeyword(tpl, country, city, year, age, gender))
      == Some(KeywordContext(country, city, year, age, gender))
  {
    var rest4 := [];
    var rest3 := Field(tpl.genderLead, gender, '.');
    var rest2 := Field(tpl.ageLead, age, ',') + rest3;
    var rest1 := Field(tpl.yearLead, year, ',') + rest2;
    var rest0 := Field(tpl.cityLead, city, ',') + rest1;
    assert FillKeyword(tpl, country, city, year, age, gender) == Field(tpl.countryLead, country, ',') + rest0;
    ReadFieldOf(tpl.countryLead, country, ',', rest0);
    ReadFieldOf(tpl.cityLead, city, ',', rest1);
    ReadFieldOf(tpl.yearLead, year, ',', rest2);
    ReadFieldOf(tpl.ageLead, age, ',', rest3);
    assert rest3 == rest3 + rest4;
    ReadFieldOf(tpl.genderLead, gender, '.', rest4);
  }

  /** Read back from the keyword prompt, the age and the gender are the
      target's own: an unknown age appears as the lower-case literal. */
  lemma KeywordPromptAgeAndGender(location: LocationInfo, t: TargetInfo)
    requires ',' !in location.country && ',' !in location.city && ',' !in t.shotYear
    ensures ReadKeyword(KeywordText, BuildKeywordPrompt(location, t)).Some?
    ensures ParseAge(ReadKeyword(KeywordText, BuildKeywordPrompt(location, t)).value.age, "unknown") == Some(t.age)
    ensures GenderFromKey(ReadKeyword(KeywordText, BuildKeywordPrompt(location, t)).value.gender) == Some(t.gender)
  {
  }

  // ---------------------------------------------------------------------
  // buildImagePrompt

  const ImageHead: string := "Generate a realistic portrait variation guided by these style keywords: "
  const ImageTail: string := ". Keep identity consistent across results; neutral background; photorealistic."

  /** The text between the fixed head and tail of an image prompt. */
  function ReadImageSlot(p: string): Option<string> {
    var rest :- StripPrefix(p, ImageHead);
    StripSuffix(rest, ImageTail)
  }

  /** The keywords of an image prompt, split at the separators. */
  function ReadImageKeywords(p: string): Option<seq<string>> {
    var slot :- ReadImageSlot(p);
    Some(Split(slot))
  }

  /** `buildImagePrompt`: the keywords joined with ", " between the fixed
      head and tail.  A non-empty list whose keywords hold no ", " is
      recovered exactly from its prompt. */
  function BuildImagePrompt(keywords: seq<string>): (r: string)
    ensures ReadImageSlot(r) == Some(Join(keywords))
    ensures |keywords| >= 1 && (forall k | 0 <= k < |keywords| :: SeparatorFree(keywords[k])) ==>
      ReadImageKeywords(r) == Some(keywords)
  {
    var slot := Join(keywords);
    StripPrefixOf(ImageHead, slot + ImageTail);
    StripSuffixOf(slot, ImageTail);
    assert ImageHead + slot + ImageTail == ImageHead + (slot + ImageTail);
    ImageHead + slot + ImageTail
  }

  // ---------------------------------------------------------------------
  // buildSeasonPrompt

  const SeasonHead: string := "Generate a fashion/appearance variation for season: "
  const SeasonTail: string := ". Same person, photorealistic."

  /** `buildSeasonPrompt`: the season's literal between the fixed head and
      tail, read back by `ReadSeasonPrompt`. */
  function BuildSeasonPrompt(season: Season): (r: string)
    ensures ReadSeasonPrompt(r) == Some(season)
  {
    SeasonHead + SeasonName(season) + SeasonTail
  }

  /** The season named between the fixed head and tail of a season prompt. */
  function ReadSeasonPrompt(p: string): Option<Season> {
    var rest :- StripPrefix(p, SeasonHead);
    var name :- StripSuffix(rest, SeasonTail);
    SeasonFromName(name)
  }

  /** The three seasons give three different prompts. */
  lemma SeasonPromptsDistinct(a: Season, b: Season)
    ensures BuildSeasonPrompt(a) == BuildSeasonPrompt(b) <==> a == b
  {
  }
}
