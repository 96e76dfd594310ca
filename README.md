# CAF Copilot: the request checks, prompt assembly and model-output recovery

CAF Copilot is a Next.js application that helps a property-maintenance
dispatcher triage repair jobs. Its API routes send the job to hosted
language models and hand the models' JSON answers back to the browser. This
project models, in Dafny, the part of those routes that the application
itself computes:

- **Recovering the model's JSON.** The first-pass triage route cuts the
  HuggingFace output to its outermost braces and repairs trailing commas and
  quotes when the first parse fails (`TriageRoute`). The final-diagnosis,
  pricing and pricing-consultant routes share one cleaning block that
  deletes code fences, trims and cuts to the braces before a second parse
  (`Cleaning`).
- **Assembling the prompt inputs.** Checklist answers are normalised and
  rendered as Q&A blocks (`Checklist`). Headed sections are trimmed as a
  whole (`Prompts`). The triage summary, the diagnosis summary with its
  numbered repair steps, the image filter and the multimodal content list
  are built from the request (`FinalDiagnosis`, `Pricing`, `Refine`).
- **Validating requests and answers.** Each route's 400 checks come first.
  The chat reply's content is checked next. The pricing consultant then
  runs its required-field loop and its breakdown shape check
  (`PricingConsultant`).
- **Preparing a case update.** A title is derived from the triage, and it
  overwrites the caller's title when the update carries a triage
  (`CaseUpdate`).
- **The triage page's logic.** This covers the empty-description guard, the
  defaults for a reply, the category colour and the confidence label
  (`HomePage`).

Each route's handler becomes a function (or a method, where the source
loops or updates a dictionary) returning a `Reply`: `Ok(body)` for the JSON
the route answers with, or `Err(status, error, extra)` for
`NextResponse.json({ error, ...extra }, { status })`.

JSON values are the datatype `Json.Value`. A property read that yields
`undefined` is `None` (`Json.Member`), and JavaScript truthiness is
`Json.Truthy`. `JSON.parse` is a parameter `parse: string -> Option<Value>`,
where `None` stands for "throws". `JSON.stringify(v, null, 2)` is a
parameter `pretty`.

The provider's reply is an input to the model, not a call. A route is
therefore modelled as a function of its request and of the provider's reply
to the prompt built from that request. Reading a property of `null` throws,
and the routes' `catch` blocks turn the message into the reply. This path
is modelled, with the engine's message text (`Json.NullReadMessage`), where
the `null` is the provider's reply or the parsed answer; the other `null`
reads are listed under "## Left out".

The string operations of JavaScript are written out in `Text`:
`trim` (over JavaScript's full set of white-space and line-terminator
characters, which is also what `\s` matches), `indexOf`/`lastIndexOf` of a character,
`toLowerCase` on ASCII letters, `join`, `includes` and the decimal
rendering of a natural number. The source's regular expressions are
written out by hand. The trailing-comma repair and the two fence
deletions (`/```json/gi`, then `/```/g`) become left-to-right scans, each
with the same matches as its regex. The two quote replacements
(`/[“”]/g`, `/'/g`) delete nothing, so they become a pointwise map of the
characters (`TriageRoute.ReplaceChars`).

## Model

| member | source | states |
|---|---|---|
| Text.Trim | app/api/triage/final-diagnosis/route.ts:26 | `trim()` leaves no space at either end; what it takes away is stated by `Text.TrimFramed` and `Text.TrimIsBlank` |
| Text.TrimFramed | app/api/triage/final-diagnosis/route.ts:53-57 | `trim()` removes only spaces, and only from the two ends: the result is the block of the input at a fixed offset with nothing but spaces around it |
| Text.TrimIsInfix | app/api/triage/final-diagnosis/route.ts:173-176 | the trimmed text is one contiguous block of the original |
| Text.TrimIsBlank | app/api/triage/final-diagnosis/route.ts:26 | `s.trim()` is empty exactly when `s` is blank, which is what the `!x.trim()` guards test |
| Text.IndexOf | app/api/triage/route.ts:5 | `indexOf` is -1 exactly when the character is absent, and otherwise the position of its first occurrence |
| Text.LastIndexOf | app/api/triage/route.ts:6 | `lastIndexOf` is -1 exactly when the character is absent, and otherwise the position of its last occurrence |
| Text.ToLower | app/page.tsx:78 | lower-casing keeps the length and maps each character on its own |
| Text.Contains | app/page.tsx:79-83 | `includes` finds only a pattern no longer than the text, and always finds the empty pattern |
| Text.ContainsIffOccurs | app/page.tsx:79-83 | `includes` holds exactly when the pattern occurs at some position of the text |
| Text.Join | app/api/triage/final-diagnosis/route.ts:51 | `join` of no parts is `""` and of one part is that part; otherwise the result opens with the first part |
| Text.JoinIsEmpty | app/api/triage/pricing/route.ts:43 | with a non-empty separator, a join is empty exactly for no parts or one empty part: those are the cases where the routes fall back to their default text |
| Text.JoinSnoc | app/api/triage/final-diagnosis/route.ts:51 | appending a part to a join adds the separator and that part |
| Text.Decimal | app/api/triage/pricing/route.ts:41 | a number's rendering is a non-empty string of digits with no leading zero |
| Text.DecimalRoundTrip | app/api/triage/pricing/route.ts:41 | the digits of a rendered number read back as the number |
| Replies.ContentText | app/api/triage/final-diagnosis/route.ts:160 | the chat content text is non-empty exactly when `choices[0].message.content` is present and truthy |
| Prompts.SectionsEnds | app/api/triage/final-diagnosis/route.ts:118-133 | the rendered message opens with the first heading and ends with the last section's text |
| Prompts.SectionsSnoc | app/api/triage/final-diagnosis/route.ts:118-133 | one more section adds a blank line, its heading and its text at the end |
| Prompts.TrimSections | app/api/triage/final-diagnosis/route.ts:118-133 | trimming the template takes only the trailing spaces of the last section's text, when that text is not blank |
| Prompts.TrimSectionsTrimmed | app/api/triage/pricing/route.ts:107-113 | when the last section's text is already trimmed, the template's trim changes nothing |
| Prompts.TrimLines | app/api/triage/pricing/route.ts:32-44 | trimming lines between line breaks takes only the trailing spaces of the last line, when that line is not blank |
| TriageRoute.Slice | app/api/triage/route.ts:8 | `slice(a, b)` is the block from `a` to `b`, and empty when `b <= a` |
| TriageRoute.ExtractJson | app/api/triage/route.ts:4-9 | `null` exactly when there is no `{` or no `}`; otherwise the slice from the first `{` through the last `}`, or `""` when the last `}` comes first; a non-empty extraction opens with `{` and closes with `}` |
| TriageRoute.ExtractJsonIdempotent | app/api/triage/route.ts:4-9 | extracting from a non-empty extraction gives it back unchanged |
| TriageRoute.ExtractOfBraced | app/api/triage/route.ts:4-9 | a text that opens with `{` and closes with `}` is its own extraction |
| TriageRoute.CutAgreesWithExtract | app/api/triage/route.ts:4-9 | when a `{` comes before the last `}`, `extractJson` and the other routes' brace cut give the same text |
| Text.SpaceRun | app/api/triage/route.ts:17 | the `\s*` of the trailing-comma regex: the longest run of spaces at the start |
| TriageRoute.StripTrailingCommas | app/api/triage/route.ts:17 | the repair never lengthens the text; its full meaning is `TriageRoute.StripIsDrop` |
| TriageRoute.StripIsDrop | app/api/triage/route.ts:17 | the single left-to-right pass equals the position-by-position reading: a character is deleted exactly when it is a comma followed by spaces and a `}` or `]` |
| TriageRoute.DropWithoutComma | app/api/triage/route.ts:17 | a block without commas passes through the position-by-position deletion unchanged, whatever follows it |
| TriageRoute.StripTrailingCommasOnlyDeletesCommas | app/api/triage/route.ts:17 | the trailing-comma repair deletes commas and nothing else: with commas taken out, input and output are the same text |
| TriageRoute.StripTrailingCommasNoMatch | app/api/triage/route.ts:17 | a text with no comma followed by spaces and a closer passes through unchanged |
| TriageRoute.CommaRunKeepsAllButLast | app/api/triage/route.ts:17 | the repair is a single pass: of any run of commas before a `}` or `]`, only the last comma is deleted |
| TriageRoute.StripTrailingCommasWithoutComma | app/api/triage/route.ts:17 | a text without commas is left as it is |
| TriageRoute.ReplaceChars | app/api/triage/route.ts:18-19 | a character-class replacement keeps the length and replaces exactly the targeted characters in place |
| TriageRoute.Repair | app/api/triage/route.ts:16-19 | after the three repairs no curly quote or apostrophe is left; each is `"` at its position, and every other character is kept |
| TriageRoute.ApostropheBecomesQuote | app/api/triage/route.ts:19 | an apostrophe inside a string value is also turned into `"`; the lemma shows it for comma-free text around the apostrophe, and `TriageRoute.Repair`'s own ensures give it for every input |
| TriageRoute.TryRepairJson | app/api/triage/route.ts:12-27 | a text that parses is returned as parsed with no repair; otherwise the repaired text's parse; `null` exactly when both parses fail, and never an exception |
| TriageRoute.ModelText | app/api/triage/route.ts:76-80 | the model text is the first truthy of `result[0].generated_text`, `result.generated_text`, `result.text`, and `""` exactly when none is |
| TriageRoute.ModelTextOfGeneration | app/api/triage/route.ts:76-77 | HuggingFace's usual `[{"generated_text": t}]` gives `t` |
| TriageRoute.TriagePrompt | app/api/triage/route.ts:33-50 | the prompt ends with the description after its "Tenant description:" line |
| TriageRoute.TriagePost | app/api/triage/route.ts:29-107 | every error goes out as HTTP 200; a failed call gives "HF Error: status"; a missing or empty extraction gives "Could not extract JSON"; the answer is the repaired parse when there is one, else "Model returned broken JSON" with the extraction and the full text |
| Cleaning.StripJsonFences | app/api/triage/final-diagnosis/route.ts:174 | deleting "```json" (any case) never lengthens the text |
| Cleaning.StripFences | app/api/triage/final-diagnosis/route.ts:175 | after deleting "```", no three backticks are left, even where a deletion joins backticks from both sides; `StripFencesDeletes` states that each "```" is deleted and the scan resumes after it |
| Cleaning.StripFencesDeletes | app/api/triage/final-diagnosis/route.ts:175 | each "```" is deleted and the scan resumes after it, so an untagged fence comes out like a tagged one |
| Cleaning.StripJsonFenceAnyCase | app/api/triage/final-diagnosis/route.ts:174 | a "```" followed by "json" in any mix of cases is deleted, the text before it (with no "```json" match starting in it) is kept, and the scan resumes after it |
| Cleaning.StripJsonFencesKeeps | app/api/triage/final-diagnosis/route.ts:174 | a part with no "```json" match (in any case) starting in it is copied unchanged; other fences in it, such as "```" or "```python", are kept |
| Cleaning.StripFencesKeeps | app/api/triage/final-diagnosis/route.ts:175 | a part with no "```" starting in it is copied unchanged |
| Cleaning.Unfenced | app/api/triage/final-diagnosis/route.ts:173-176 | the fence-stripped, trimmed text has no three backticks and no space at either end |
| Cleaning.FromFirstBrace | app/api/triage/final-diagnosis/route.ts:178-179 | the text from its first `{`, or the whole text when it has none |
| Cleaning.ToLastBrace | app/api/triage/final-diagnosis/route.ts:180-181 | the text through its last `}`, unless that `}` is at position 0 or missing |
| Cleaning.CutToBraces | app/api/triage/final-diagnosis/route.ts:178-181 | the cut opens with `{` whenever the text has one; a text with neither brace is kept whole |
| Cleaning.CutIsInfix | app/api/triage/final-diagnosis/route.ts:178-181 | the cut is one contiguous block of the text |
| Cleaning.CutBetweenBraces | app/api/triage/final-diagnosis/route.ts:178-181 | when a `{` comes before the last `}`, the cut is exactly the block from the first `{` through the last `}` |
| Cleaning.Clean | app/api/triage/final-diagnosis/route.ts:173-181 | the cleaned text has no three backticks, is a contiguous block of the fence-stripped trimmed text, and opens with `{` whenever that text has one |
| Cleaning.CleanFenced | app/api/triage/final-diagnosis/route.ts:173-181 | an object text `J` with no three backticks, wrapped as "```" + tag + "\n" + J + "\n```" with the tag "json" in any case, cleans back to exactly `J` |
| Cleaning.UnfencedFenced | app/api/triage/final-diagnosis/route.ts:173-176 | stripping the fences of that wrapper, whatever the case of its tag, and trimming gives back `J` |
| Cleaning.ParseOrClean | app/api/triage/final-diagnosis/route.ts:170-195 | a direct parse wins whenever it succeeds; cleaning runs only after it fails; the result is unparsable exactly when both parses fail, reporting the original and the cleaned text |
| Cleaning.FencedObjectRecovered | app/api/triage/final-diagnosis/route.ts:170-195 | a parsable object text inside a fence tagged "json" in any case always comes through, as the object itself when the fenced text does not parse |
| Cleaning.CleanedChatReply | app/api/triage/final-diagnosis/route.ts:158-197 | a `null` provider body is a 500 from the catch; empty content is a 500 "Invalid AI response" with the provider body, before any parse; otherwise the recovered value, or a 500 with `raw_original` and `raw_cleaned` |
| Checklist.NormaliseAnswer | app/api/triage/final-diagnosis/route.ts:44-48 | a missing, blank or exactly "I_DONT_KNOW" answer reads "Unknown / not provided"; any other answer is trimmed; the result is never empty |
| Checklist.PaddedSentinelIsAnAnswer | app/api/triage/final-diagnosis/route.ts:46-48 | " I_DONT_KNOW " is not the sentinel: it is trimmed to "I_DONT_KNOW" |
| Checklist.QaBlocks | app/api/triage/final-diagnosis/route.ts:41-50 | one "Q: …\nA: …" block per question, in checklist order |
| Checklist.QaText | app/api/triage/final-diagnosis/route.ts:41-51 | the joined Q&A text is empty exactly when the checklist is |
| Checklist.QaTextOpens | app/api/triage/final-diagnosis/route.ts:41-51 | the Q&A text opens with the first question's block |
| Checklist.QaTextInOrder | app/api/triage/final-diagnosis/route.ts:41-51 | the first block, a blank line, then the rest of the checklist's blocks in order |
| FinalDiagnosis.NoHazardsListed | app/api/triage/final-diagnosis/route.ts:56 | an empty or missing hazard list reads "None listed" |
| FinalDiagnosis.HazardsJoined | app/api/triage/final-diagnosis/route.ts:56 | hazards are listed in order, separated by ", " |
| FinalDiagnosis.SummaryLabel | app/api/triage/final-diagnosis/route.ts:53-56 | the summary's text before the hazards opens with "C" (the category line) and ends with the "Hazards:" label |
| FinalDiagnosis.SummaryText | app/api/triage/final-diagnosis/route.ts:53-57 | the category line (or "Unknown") and the summary line (or "No summary") always come through whole; when the hazard text is not blank, the trim takes only its trailing spaces |
| FinalDiagnosis.QaSection | app/api/triage/final-diagnosis/route.ts:41-51 | the Q&A text, or "No structured Q&A available." exactly when the checklist is missing or empty |
| FinalDiagnosis.UserContent | app/api/triage/final-diagnosis/route.ts:118-133 | the five headed sections in order; the trim takes only trailing spaces of the vision recon JSON |
| FinalDiagnosis.Post | app/api/triage/final-diagnosis/route.ts:16-207 | a blank description is a 400 "Missing description" before the vision check; a blank vision recon JSON is a 400 "Missing vision recon JSON"; an accepted request gets the shared chat reply; success implies both checks passed |
| FinalDiagnosis.FencedDiagnosisAccepted | app/api/triage/final-diagnosis/route.ts:170-197 | a diagnosis object wrapped in a fence tagged "json" in any case is returned, as the object itself when the fenced text does not parse |
| Pricing.NumberedSteps | app/api/triage/pricing/route.ts:41 | step `i` is rendered as "`i + 1`. step", one per step, in order |
| Pricing.StepNumbered | app/api/triage/pricing/route.ts:41 | each step's number reads back as its position counting from 1 |
| Pricing.StepsText | app/api/triage/pricing/route.ts:41 | missing or empty steps render nothing; otherwise the text opens with "1. " and the first step |
| Pricing.MaterialsText | app/api/triage/pricing/route.ts:43 | "Not specified" for no materials or one empty one; otherwise the materials joined by ", " |
| Pricing.DiagSummary | app/api/triage/pricing/route.ts:32-44 | the detail lines in order and, when the materials text is not blank, only that text losing trailing spaces; the summary opens with "T" of "Title:" and is trimmed |
| Pricing.ContextText | app/api/triage/pricing/route.ts:109 | an empty or missing description becomes "No extra job description beyond the diagnosis." |
| Pricing.UserContent | app/api/triage/pricing/route.ts:107-113 | the job description section then the diagnosis details, untouched by the final trim |
| Pricing.Post | app/api/triage/pricing/route.ts:17-187 | a missing diagnosis is a 400 "Missing diagnosis for pricing"; otherwise the shared chat reply |
| Pricing.ParsedReplyUnchanged | app/api/triage/pricing/route.ts:177 | whatever parsable text the model returns is the answer, with no check of its fields |
| PricingConsultant.UserContent | app/api/vision/analyze/route.ts:135-138 | a string body is sent as it is; any other value is pretty-printed |
| PricingConsultant.MissingFrom | app/api/vision/analyze/route.ts:220-230 | the first field from a position on that is `undefined`, or the end of the list |
| PricingConsultant.FirstMissing | app/api/vision/analyze/route.ts:220-230 | the first `undefined` field; the end of the list exactly when every field is defined |
| PricingConsultant.FirstUndefined | app/api/vision/analyze/route.ts:220-230 | the field loop stops at the first `undefined` field, and runs to the end when every field is defined |
| PricingConsultant.Verdict | app/api/vision/analyze/route.ts:205-250 | a `null` answer throws at the first field; the answer passes exactly when every field is defined and the breakdown is well formed, and is returned unchanged; otherwise the first missing field is named, and the breakdown error comes only after all fields are defined |
| PricingConsultant.Validate | app/api/vision/analyze/route.ts:205-250 | the route's checks, running the field loop, give the verdict |
| PricingConsultant.Post | app/api/vision/analyze/route.ts:5-257 | a falsy body is a 400 "No diagnosis or quote data provided"; empty content is a 500 "Empty response from Pricing model" with the provider body; a failed recovery is a 500 with `raw_original` and `raw_cleaned`; a recovered value goes to the verdict |
| PricingConsultant.BreakdownWellFormed | app/api/vision/analyze/route.ts:232-239 | a breakdown that passes the shape check is an object holding all five keys `scope_summary`, `baseline_costs`, `market_benchmarks`, `comparison_summary` and `markup_strategy` |
| PricingConsultant.MissingBreakdownIsAFieldError | app/api/vision/analyze/route.ts:220-248 | an absent breakdown is reported by the field check as the one missing field |
| Refine.IsImage | app/api/triage/refine/route.ts:45 | only an item with a content type of at least six characters is an image, and every type starting with "image/" as written is one |
| Refine.ImageMedia | app/api/triage/refine/route.ts:44-46 | the filter keeps exactly the items whose lower-cased type starts with "image/" |
| Refine.ImageMediaAppend | app/api/triage/refine/route.ts:44-46 | the filter keeps order: filtering a concatenation is concatenating the filtered parts |
| Refine.UntypedIsDropped | app/api/triage/refine/route.ts:45 | an item with no content type is never sent as an image |
| Refine.UpperCaseTypeIsImage | app/api/triage/refine/route.ts:45 | the type test ignores case: "IMAGE/PNG" is an image |
| Refine.Content | app/api/triage/refine/route.ts:49-101 | one text part, then one image part per kept image carrying its URL, in order; length 1 + the number of images |
| Refine.PromptText | app/api/triage/refine/route.ts:52-92 | the instructions, then the job description, the Q&A and the tenant text under their headings; the trim takes only trailing spaces of a non-blank tenant text |
| Refine.NoQuestionsRendered | app/api/triage/refine/route.ts:88 | an empty checklist is rendered as "No Q&A provided." |
| Refine.Post | app/api/triage/refine/route.ts:14-154 | only an empty or missing description is a 400; a `null` provider body is a 500 "Server error in refine"; empty content is a 500 "Invalid AI response"; the answer is the direct parse, with no cleaning, or a 500 "Invalid JSON from AI" with the raw text |
| Refine.BlankDescriptionAccepted | app/api/triage/refine/route.ts:24-29 | a whitespace-only description is not refused as missing |
| CaseUpdate.CategoryOf | app/api/cases/update/route.ts:8 | the category, or "General" when it is falsy; never empty |
| CaseUpdate.SummaryPart | app/api/cases/update/route.ts:9-11 | the first 60 characters of the summary (all of a shorter one), or "No summary" when it is falsy |
| CaseUpdate.GenerateTitle | app/api/cases/update/route.ts:5-14 | "Untitled Case" for a falsy triage; otherwise the category, ": " and the summary part, so at most 62 characters longer than the category |
| CaseUpdate.LongSummaryCut | app/api/cases/update/route.ts:9-13 | a summary longer than 60 characters loses everything after its 60th |
| CaseUpdate.TitleRule | app/api/cases/update/route.ts:35-37 | a truthy triage sets the title from it, replacing any title sent; every other key keeps its value; without a truthy triage nothing changes |
| CaseUpdate.TitleRuleIdempotent | app/api/cases/update/route.ts:35-37 | applying the title rule to its own result changes nothing |
| CaseUpdate.PrepareUpdate | app/api/cases/update/route.ts:18-37 | a missing id is a 400 "Missing case ID" whatever the updates; missing or non-object updates are a 400 "Invalid updates object"; otherwise the updates after the title rule |
| HomePage.TriageRequest | app/page.tsx:27-44 | a blank description sends nothing; any other is sent exactly as typed |
| HomePage.OrDefault | app/page.tsx:65-68 | a property that is present is kept; a missing one takes the default |
| HomePage.ResultOf | app/page.tsx:63-69 | hazards and questions default to `[]` and the diagnosis to `{}`, so all three are truthy; category and summary are taken as they are |
| HomePage.RunTriage | app/page.tsx:26-75 | a blank description shows "Please paste a job description first."; a failed status shows "Server error: status – text"; a `null` body shows the engine's error; a result is shown exactly for a non-`null` body |
| HomePage.CategoryColor | app/page.tsx:77-85 | the colour is one of five; plumb wins over electric, electric over carp, carp over hvac/heat/cool; pink and gray each hold exactly in their case |
| HomePage.NothingInEmpty | app/page.tsx:78 | nothing is found in an empty category |
| HomePage.MissingCategoryIsGray | app/page.tsx:77-85 | a missing category is gray |
| HomePage.ToLowerIdempotent | app/page.tsx:78 | lower-casing twice is lower-casing once |
| HomePage.ColorIgnoresCase | app/page.tsx:77-85 | a category and its lower-cased form get the same colour |
| HomePage.PlumbingWinsOverElectrical | app/page.tsx:79-80 | "Plumbing and Electrical" is blue |
| HomePage.Scaled | app/page.tsx:93-96 | a confidence up to 1 ends up at most 100; a non-negative one never shrinks and stays non-negative; one above 1 is kept as it is |
| HomePage.Round | app/page.tsx:97 | `Math.round` is within a half of its argument, halves upwards |
| HomePage.Clamp | app/page.tsx:97 | the clamp is within 0..100 and keeps values already there |
| HomePage.FormatConfidence | app/page.tsx:87-105 | a missing or NaN confidence is "Unknown" at 0; otherwise the percent is the clamped rounding of the scaled value, in 0..100, and the label is the percent, "%" and its band |
| HomePage.FractionAsPercent | app/page.tsx:94-97 | a confidence in 0..1 is shown as its rounded percentage |
| HomePage.OneAndAHalfIsTwoPercent | app/page.tsx:93-97 | 1.5 is read as a percentage and shows 2% |
| HomePage.NegativeIsZero | app/page.tsx:94-97 | a negative confidence shows 0% |
| HomePage.Band | app/page.tsx:98-102 | the band is " (High)" exactly from 80, " (Medium)" exactly from 60 below 80, and " (Low)" exactly below 60 |
| HomePage.BandsByPercent | app/page.tsx:98-102 | the label ends in " (High)" exactly from 80, " (Medium)" exactly from 60 below 80, " (Low)" exactly below 60 |
| HomePage.BandSuffix | app/page.tsx:98-102 | the same for any text ending in "%" followed by the band word |
| HomePage.NotEndsWith | app/page.tsx:98-102 | a text that differs from a suffix at one of its positions does not end with it |
| HomePage.LabelReadsBack | app/page.tsx:98 | the label opens with digits that read back as the percent, followed by "%" |
| HomePage.MonotoneWithinScale | app/page.tsx:93-97 | within each reading (fraction or percentage), a larger confidence never shows a smaller percent |

## Left out

- The calls to the language models (OpenRouter and HuggingFace), their model names, temperatures and token limits, and the prose of every system prompt are foreign network I/O and fixed text. The provider's reply is a parameter, and each prompt's fixed instructions are a parameter or left out.
- `JSON.parse` and `JSON.stringify` are a parse oracle and a pretty-printer given as parameters. The JSON grammar is not modelled.
- Reads of a property of `null` other than the provider's reply and the parsed answer are not modelled; in the source each throws into the route's `catch`. These are a `null` request body (`body.description` in app/api/triage/final-diagnosis/route.ts:20 and app/api/triage/refine/route.ts:18, `body.diagnosis` in app/api/triage/pricing/route.ts:21), destructuring a `null` body in app/api/cases/update/route.ts:18, a `null` checklist item (`q.id` in app/api/triage/final-diagnosis/route.ts:44 and app/api/triage/refine/route.ts:34) and a `null` media item (`m.contentType` in app/api/triage/refine/route.ts:45). The request datatypes have no value for them.
- `req.json()` failing on a malformed body, and the `catch` replies for exceptions other than reading a property of `null`, are not modelled.
- All Supabase persistence is left out. This covers case creation, listing and paging, and the `.update()` call with its error and `{ case: data }` replies: it is a database client that is not shown.
- The file upload route (blob storage), `lib/prompts.ts` (a string constant) and the React rendering and state setters of the pages are left out.
- The case status chain and the cascade of invalidations are not implemented by any of the modelled code.
- `HomePage.FormatConfidence`: the confidence is a real number, and a missing, `null` or NaN confidence is `None`. IEEE floating-point rounding is not modelled, and `Math.round` is taken as `floor(x + 0.5)`.
- `HomePage.RunTriage`: a failed `fetch` and an unreadable body are not modelled, and `rawJson` display is UI.
- `Text.ToLower`: only ASCII letters are lower-cased. This is exact for the fixed patterns matched ("image/", "plumb", "json", …) but not for other letters of a category or content type.
- Strings are sequences of characters; UTF-16 code units and surrogate pairs in `slice` are not modelled.
- `CaseUpdate.GenerateTitle`: a truthy category or summary must be a string. JavaScript's coercion of other values in the template, and `slice` on a non-string, are not modelled.
- `CaseUpdate.PrepareUpdate`: `typeof updates === "object"` is modelled as an object or an array. The title rule is applied to a copy of the dictionary, so the caller's aliasing of `updates` is not modelled.
- `Replies.ContentText`: the chat content must be a string when it is truthy. A truthy non-string content is not modelled; the routes would pass it to `JSON.parse` as is.
- `TriageRoute.TriagePost`: the model text must be a string. A non-string `generated_text` would make `indexOf` throw, and that is not modelled.
- `Pricing.DiagSummary`: the scalar fields of the diagnosis (labour minutes, material cost, severity, urgency) are taken as the text the template prints. Number formatting is not modelled.
- `PricingConsultant.Validate`: it is stated for any non-empty list of required fields, and `PricingConsultant.Post` passes the route's fixed list.
- The pricing consultant's catch answers `e.message || "Server error in pricing analysis"`. Only the `null`-answer case is modelled, and the message is never empty there.
- Object keys inherited from the prototype (`answers["constructor"]` and the like) are not modelled; a missing key is `undefined`.
