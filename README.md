# Data-URL splitting and prompt templates of the disguise-portrait service

This project is a Dafny model of the two pieces of logic in the service layer
of the disguise-portrait application: the splitter that the generative-AI
service uses to take apart image data URLs, and the builders that turn the
suspect's target information and the location into the text prompts sent to
the text and image models.

- `GenAi` (`genai.dfy`) models `parseDataUrl`. The regular expression
  `^data:([^;]+);base64,(.*)$` is written out as a split at the first `;`
  after `data:`. The result is `Option<DataUrl>`, where `None` stands for
  `null`. The accepted set is narrower than RFC 2397, section 3: the media
  type is mandatory, it may carry no parameters, and the `;base64` marker is
  mandatory. The model keeps the regular expression's treatment of line
  breaks. `[^;]` matches them, so they are accepted in the media type.
  `.` does not match `\n`, `\r`, U+2028 or U+2029, so they are refused in the
  payload.
- `Types` (`types.dfy`) holds the records the builders read: `TargetInfo`
  without its `imageFile` (as both builders that take a target drop it with `Omit`), `LocationInfo`
  and `Season`. Ages are `Years(n)` or `UnknownAge`.
- `Decimal` (`decimal.dfy`) models JavaScript's `String(n)` for a whole,
  non-negative number up to 2^53, the range in which a `number` holds every
  whole number exactly. It also gives the reading of a digit string, and the
  two are proved inverse.
- `Prompts` (`prompts.dfy`) models `buildBaseImagePrompt`,
  `buildKeywordPrompt`, `buildImagePrompt` and `buildSeasonPrompt`. Each
  builder is a fixed template with its slots filled in. The template text is
  the source's own, character for character. Each builder has a reader
  beside it that takes a prompt apart, and lemmas prove that the reader gives
  back exactly the values substituted. This shows which values appear, where,
  and that no other input-dependent text does. In the base prompt, both age
  slots (the age when the sketch was made and the current age) receive the
  same `age` field. `captureAge` is read by no builder.
- `Text` (`text.dfy`) holds the string operations the builders rely on. These
  are finding a character, cutting off known text, `Array.prototype.join` with
  `", "`, and `String.prototype.split` as its inverse. A `,` inside a keyword
  does no harm to the inverse; only the separator `", "` inside a keyword does.
- `Wrappers` (`wrappers.dfy`) holds the `Option` type.

## Model

| member | source | states |
|---|---|---|
| GenAi.ParseDataUrl | src/services/genai.ts:23-27 | On success, the media type is non-empty and holds no `;`, the payload holds no line terminator, and `"data:" + mimeType + ";base64," + base64` is the whole input |
| GenAi.ParseFormat | src/services/genai.ts:24-26 | Round trip: for a non-empty media type without `;` and a payload without line terminators, the assembled URL parses back to exactly that pair; the payload may be empty |
| GenAi.ParseDataUrlExactly | src/services/genai.ts:24-26 | The input is accepted with result `d` if and only if `d` is a pair the two groups can hold and the input is its text; so the split is unique |
| GenAi.RejectsOtherSchemes | src/services/genai.ts:24-25 | An input not starting with the exact, case-sensitive `data:` gives `null` |
| GenAi.RejectsEmptyMediaType | src/services/genai.ts:24-25 | An input starting `data:;` gives `null`, because `[^;]+` needs a character |
| GenAi.RejectsWithoutMarker | src/services/genai.ts:24-25 | When the text after the first `;` does not start with `base64,`, the result is `null` (a missing marker, or media-type parameters) |
| GenAi.RejectsCharsetParameter | src/services/genai.ts:24-25 | `data:text/plain;charset=utf-8;base64,SGk=` gives `null` |
| GenAi.RejectsLineTerminator | src/services/genai.ts:24-25 | Whatever the media type, a payload holding `\n`, `\r`, U+2028 or U+2029 gives `null` |
| GenAi.AcceptsEmptyPayload | src/services/genai.ts:24-26 | `data:image/png;base64,` is accepted with an empty payload |
| GenAi.AcceptsLineBreakInMediaType | src/services/genai.ts:24-26 | A line break inside the media type is accepted and kept |
| GenAi.RejectsLineBreakInPayload | src/services/genai.ts:24-25 | A line break inside the payload gives `null` |
| Types.GenderKey | src/types/index.ts:5 | The gender literal reads back as the same gender |
| Types.GenderKeyExactly | src/types/index.ts:5 | The literals `male`, `female`, `unknown` and the three genders correspond one-to-one |
| Types.SeasonName | src/types/index.ts:26 | The season literal reads back as the same season |
| Types.SeasonNameExactly | src/types/index.ts:26 | The literals `Summer`, `Winter`, `Spring` and the three seasons correspond one-to-one |
| Decimal.NatToDecimal | src/services/prompts.ts:6 | `String(n)` of a natural is non-empty, all digits, has no leading zero unless `n` is 0, and denotes `n` |
| Decimal.ParseDecimal | src/services/prompts.ts:6 | Any string the reader accepts as the number `n` is exactly `String(n)` |
| Decimal.DecimalRoundTrip | src/services/prompts.ts:6 | A string reads as the number `n` exactly when it is `String(n)`; so the rendering is one-to-one |
| Prompts.GenderLabel | src/services/prompts.ts:4-5 | The base prompt's gender is the source literal with its first letter capitalised (`male` to `Male`, `female` to `Female`, `unknown` to `Unknown`), total over the three genders |
| Prompts.AgeLabel | src/services/prompts.ts:6 | A numeric age gives its decimal text, an unknown age gives `Unknown`; reading the label back gives the age |
| Prompts.AgeText | src/services/prompts.ts:39 | `String(target.age)` gives the same text for a number, and the lower-case `unknown`, which differs from the base prompt's label, for an unknown age; reading it back gives the age |
| Prompts.OrElse | src/services/prompts.ts:7-8 | JavaScript's logical-or fallback, used by `EthnicityLabel` and `FeaturesLabel`: a missing or empty ethnicity or features value gives the fallback (`Unknown`, `None`); any other value is put in verbatim; the result is never empty |
| Prompts.ReadFillBase | src/services/prompts.ts:9-31 | Reading a filled base template gives back the gender, ethnicity, age (twice) and features values put in, when they hold no `]` |
| Prompts.BuildBaseImagePrompt | src/services/prompts.ts:3-31 | The base prompt is the fixed template with exactly the gender label, the ethnicity (or `Unknown`), the age label in both age slots and the features (or `None`) in its slots, read back by `ReadBase` |
| Prompts.BaseImagePromptGender | src/services/prompts.ts:4-19 | For all inputs, targets of different genders get different base prompts |
| Prompts.FillBaseGender | src/services/prompts.ts:9-20 | For any template, fillings whose gender values start with different characters differ |
| Prompts.ReadFillKeyword | src/services/prompts.ts:35-39 | Reading a filled keyword template gives back the country, city, year, age and gender values put in, when country, city, year and age hold no `,` and the gender holds no `.` |
| Prompts.BuildKeywordPrompt | src/services/prompts.ts:34-40 | The keyword prompt holds the country, city, shot year, `String(age)` and gender literal verbatim, and no other input, read back by `ReadKeyword` |
| Prompts.KeywordPromptAgeAndGender | src/services/prompts.ts:39 | The age and gender read back from the keyword prompt are the target's own; an unknown age appears as lower-case `unknown` |
| Prompts.BuildImagePrompt | src/services/prompts.ts:42-46 | The text between the fixed head and tail of the image prompt is `keywords.join(', ')`, and a non-empty list whose keywords hold no `", "` is recovered exactly from the prompt |
| Text.Join | src/services/prompts.ts:43-45 | `join(', ')` is undone by `split(', ')` for a non-empty list whose elements hold no `", "` |
| Text.JoinAppend | src/services/prompts.ts:43-45 | Joining one more keyword onto a non-empty list appends `", "` and the keyword, so separators stand only between elements |
| Text.JoinSplit | src/services/prompts.ts:43-45 | Joining undoes splitting at `", "`, for every string |
| Prompts.BuildSeasonPrompt | src/services/prompts.ts:48-50 | The season prompt is the fixed head, the season literal and the fixed tail; the season reads back from it |
| Prompts.SeasonPromptsDistinct | src/services/prompts.ts:48-50 | Two season prompts are equal exactly when the seasons are, so the three seasons give three different prompts |

## Left out

- `requireClient` (src/services/genai.ts:4-10) reads the environment and builds the Google GenAI client. This is a foreign call and is not part of this model.
- `fileToBase64` (src/services/genai.ts:13-21) reads a file and calls the browser's `btoa`. This is I/O, and base64 encoding (RFC 4648, section 4) is not part of this model.
- src/services/api.ts returns fixed values after a timer, so it states no contract. The React components, pages and src/main.tsx are layout and DOM code. None of these is part of this model.
- The persona planner with its parsing cascade, the keyword resolver, the sequential rate-limited image synthesis, the all-or-nothing seasonal generator, the archival sidecar and the epoch guard have no source among the files modelled here. They are not part of this model, and neither are the planner output types (src/types/index.ts:30-41).
- `ImageResult` and `SeasonalResult` (src/types/index.ts:17-28) are read by no modelled operation. Only the `Season` literal of `SeasonalResult` is modelled.
- Strings are sequences of Unicode scalar values. JavaScript strings are UTF-16 code units and may hold lone surrogates, which the model cannot represent.
- NatToDecimal: writes `String(n)` exactly only for n up to 2^53 (9007199254740992). Above that a `number` does not hold every whole number, and `String(n)` prints the shortest digits that round back to `n` padded with zeros (`String(2**57)` is `"144115188075855870"`), which the model does not reproduce.
- AgeLabel: ages are whole, non-negative numbers, and the digits are exact only up to 2^53, as for NatToDecimal. Fractional, negative or non-finite `number` values are not modelled.
- AgeText: as for AgeLabel, only whole, non-negative ages up to 2^53 are modelled exactly.
- BuildBaseImagePrompt: the read-back is promised only when ethnicity and features hold no `]`. With a `]` the slots cannot be read back unambiguously, and different inputs can then give the same prompt. Gender is distinguished for all inputs by BaseImagePromptGender.
- BuildKeywordPrompt: the read-back is promised only when country, city and shot year hold no `,`, for the same reason.
- KeywordPromptAgeAndGender: carries the same `,`-free hypothesis as BuildKeywordPrompt.
- BuildImagePrompt: the keywords are promised back only for a non-empty list whose keywords hold no `", "`. An empty list and the list `[""]` both give an empty slot.
- Join: carries the same hypothesis as BuildImagePrompt.
