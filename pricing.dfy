/** The pricing route (app/api/triage/pricing/route.ts): it renders one
    chosen diagnosis as text for the model and returns the model's JSON,
    recovered with the shared cleaning step and otherwise unchecked. */
module Pricing {
  import opened Wrappers
  import opened Text
  import opened Json
  import opened Replies
  import opened Prompts
  import Cleaning

  /** The diagnosis the client sends. The scalar fields are kept as the
      template prints them; the two lists may be missing. */
  datatype Diagnosis = Diagnosis(
    title: string,
    description: string,
    tradeRequired: string,
    laborMinutes: string,
    materialCost: string,
    severity: string,
    urgencyHours: string,
    repairSteps: Option<seq<string>>,
    materials: Option<seq<string>>)

  /** The request body; `diagnosis` is None when it is missing or falsy. */
  datatype Request = Request(diagnosis: Option<Diagnosis>, description: Option<string>)

  /** `steps.map((s, i) => `${i + 1}. ${s}`)`: step `i` on a line numbered
      `i + 1`, in the original order. */
  function NumberedSteps(steps: seq<string>): (r: seq<string>)
    ensures |r| == |steps|
    ensures forall i :: 0 <= i < |steps| ==> r[i] == Decimal(i + 1) + ". " + steps[i]
  {
    seq(|steps|, i requires 0 <= i < |steps| => Decimal(i + 1) + ". " + steps[i])
  }

  /** The number in front of each step reads back as that step's position,
      counting from 1. */
  lemma StepNumbered(steps: seq<string>, i: nat)
    requires i < |steps|
    ensures StartsWith(NumberedSteps(steps)[i], Decimal(i + 1) + ". ")
    ensures DigitsValue(Decimal(i + 1)) == i + 1
  {
    DecimalRoundTrip(i + 1);
  }

  /** The numbered steps, one per line; missing steps render nothing. */
  function StepsText(steps: Option<seq<string>>): (r: string)
    ensures steps.None? || steps.value == [] ==> r == ""
    ensures steps.Some? && steps.value != [] ==> StartsWith(r, "1. " + steps.value[0])
  {
    Join(NumberedSteps(steps.GetOr([])), "\n")
  }

  /** The materials joined by ", ", or "Not specified" when that join is
      empty (no materials, or a single empty one). */
  function MaterialsText(materials: Option<seq<string>>): (r: string)
    ensures materials.None? || materials.value == [] || materials.value == [""] ==> r == "Not specified"
    ensures materials.Some? && materials.value != [] && materials.value != [""] ==>
              r == Join(materials.value, ", ") && r != ""
  {
    JoinIsEmpty(materials.GetOr([]), ", ");
    Or(Join(materials.GetOr([]), ", "), "Not specified")
  }

  /** The summary's lines up to the materials text. */
  function DetailLines(d: Diagnosis): seq<string> {
    [ "Title: " + d.title,
      "Description: " + d.description,
      "Trade required: " + d.tradeRequired,
      "Estimated labour minutes: " + d.laborMinutes,
      "Estimated material cost: " + d.materialCost,
      "Severity: " + d.severity,
      "Urgency (hours): " + d.urgencyHours,
      "Repair steps:",
      StepsText(d.repairSteps),
      "Materials needed:" ]
  }

  /** `diagSummary`: the diagnosis's fields one per line, trimmed as a whole.
      Only the materials text can lose trailing spaces; a summary always
      opens with the title line. */
  function DiagSummary(d: Diagnosis): (r: string)
    ensures !AllSpace(MaterialsText(d.materials)) ==>
              r == Lines(DetailLines(d) + [TrimEnd(MaterialsText(d.materials))])
    ensures r != [] && r[0] == 'T' && IsTrimmed(r)
  {
    var m := MaterialsText(d.materials);
    var r := Trim("\n" + Lines(DetailLines(d) + [m]) + "\n");
    assert DetailLines(d)[0][0] == 'T';
    assert !AllSpace(m) ==> r == Lines(DetailLines(d) + [TrimEnd(m)]) by {
      if !AllSpace(m) { TrimLines(DetailLines(d), m); }
    }
    TrimOpens(Lines(DetailLines(d) + [m]));
    r
  }

  const NoDescription: string := "No extra job description beyond the diagnosis."

  /** The job description section: the request's description, or the stock
      sentence when it is missing or empty. */
  function ContextText(req: Request): (r: string)
    ensures req.description.GetOr("") == "" ==> r == NoDescription
    ensures req.description.GetOr("") != "" ==> r == req.description.value
  {
    Or(req.description.GetOr(""), NoDescription)
  }

  /** The user message's first section. */
  function Front(req: Request): seq<Section> {
    [Section("JOB DESCRIPTION (context)", ContextText(req))]
  }

  /** The user message's two sections. */
  function Inputs(req: Request, d: Diagnosis): seq<Section> {
    Front(req) + [Section("DIAGNOSIS DETAILS", DiagSummary(d))]
  }

  /** `userContent`: the job description section, then the diagnosis
      summary, which the final trim leaves whole. */
  function UserContent(req: Request, d: Diagnosis): (r: string)
    ensures r == Sections(Inputs(req, d))
  {
    TrimmedInputs(req, d);
    Trim("\n" + Sections(Inputs(req, d)) + "\n")
  }

  lemma TrimmedInputs(req: Request, d: Diagnosis)
    ensures Trim("\n" + Sections(Inputs(req, d)) + "\n") == Sections(Inputs(req, d))
  {
    TrimSectionsTrimmed(Front(req), Section("DIAGNOSIS DETAILS", DiagSummary(d)));
  }

  const ServerError: string := "Server error in pricing route"

  /** `POST`, given the provider's reply `data` to the message built from
      `UserContent`. A missing diagnosis is refused before anything else;
      a parsed reply is returned as it is, with no check of its fields. */
  function Post(req: Request, data: Value, parse: Parser): (r: Reply)
    requires ChatShaped(data)
    ensures req.diagnosis.None? ==> r == Err(400, "Missing diagnosis for pricing", map[])
    ensures req.diagnosis.Some? ==> r == Cleaning.CleanedChatReply(data, parse, ServerError)
  {
    if req.diagnosis.None? then Err(400, "Missing diagnosis for pricing", map[])
    else Cleaning.CleanedChatReply(data, parse, ServerError)
  }

  /** Whatever object text the model returns, parsed, is the route's answer. */
  lemma ParsedReplyUnchanged(req: Request, text: string, parse: Parser)
    requires req.diagnosis.Some? && text != "" && parse(text).Some?
    ensures Post(req, ChatReplyWith(text), parse) == Ok(parse(text).value)
  {
    ContentOfChatReply(text);
  }
}
