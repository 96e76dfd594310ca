/** The final-diagnosis route (app/api/triage/final-diagnosis/route.ts): it
    checks the request, renders the triage summary, the checklist Q&A and the
    other inputs into one user message, and recovers the model's JSON with
    the shared cleaning step. */
module FinalDiagnosis {
  import opened Wrappers
  import opened Text
  import opened Json
  import opened Replies
  import opened Checklist
  import opened Prompts
  import Cleaning

  /** The earlier triage result as the request carries it; every field may
      be missing. */
  datatype Triage = Triage(
    category: Option<string>,
    hazards: Option<seq<string>>,
    summary: Option<string>,
    checklist: Option<seq<Question>>)

  /** `body.triage || {}` when the request has no triage. */
  const NoTriage: Triage := Triage(None, None, None, None)

  /** The request body's fields; a missing `answers` is `{}`. */
  datatype Request = Request(
    description: Option<string>,
    triage: Option<Triage>,
    answers: map<string, string>,
    tenantText: Option<string>,
    visionReconRaw: Option<string>)

  function TriageOf(req: Request): Triage {
    req.triage.GetOr(NoTriage)
  }

  /** `body.description || ""` */
  function DescriptionOf(req: Request): string {
    req.description.GetOr("")
  }

  /** `body.vision_recon_raw || ""` */
  function VisionOf(req: Request): string {
    req.visionReconRaw.GetOr("")
  }

  /** The triage summary's three defaulted values. */
  function CategoryLine(t: Triage): string { Or(t.category.GetOr(""), "Unknown") }
  function SummaryLine(t: Triage): string { Or(t.summary.GetOr(""), "No summary") }
  function HazardsLine(t: Triage): string { Or(Join(t.hazards.GetOr([]), ", "), "None listed") }

  /** An empty or missing hazard list reads "None listed". */
  lemma NoHazardsListed(t: Triage)
    requires t.hazards.None? || t.hazards.value == []
    ensures HazardsLine(t) == "None listed"
  {
  }

  /** Hazards are listed in order, separated by ", ". */
  lemma HazardsJoined(t: Triage)
    requires t.hazards.Some? && |t.hazards.value| >= 2
    ensures HazardsLine(t) == t.hazards.value[0] + ", " + Join(t.hazards.value[1..], ", ")
  {
  }

  /** The summary's text up to the hazard list: the category line, the
      summary line and the hazards label. */
  function SummaryLabel(t: Triage): (r: string)
    ensures r != [] && r[0] == 'C' && r[|r| - 1] == ':'
  {
    "Category: " + CategoryLine(t) + "\nSummary: " + SummaryLine(t) + "\nHazards:"
  }

  /** `triageSummaryText`: the three lines, trimmed as a whole. The category
      and summary lines always come through whole; the hazards line loses
      only trailing spaces of the hazard text. */
  function SummaryText(t: Triage): (r: string)
    ensures StartsWith(r, SummaryLabel(t))
    ensures !AllSpace(HazardsLine(t)) ==> r == SummaryLabel(t) + " " + TrimEnd(HazardsLine(t))
  {
    var p := SummaryLabel(t);
    var h := HazardsLine(t);
    TrimKeepsLabel(p, h);
    assert !AllSpace(h) ==> Trim("\n" + p + " " + h + "\n") == p + " " + TrimEnd(h) by {
      if !AllSpace(h) { TrimLabelled(p, h); }
    }
    Trim("\n" + p + " " + h + "\n")
  }

  /** `qaText`: the checklist's Q&A blocks, or "No structured Q&A available."
      exactly when the checklist is missing or empty. */
  function QaSection(t: Triage, answers: map<string, string>): (r: string)
    ensures r == "No structured Q&A available." <==> t.checklist.GetOr([]) == []
    ensures t.checklist.GetOr([]) != [] ==> r == QaText(t.checklist.value, answers)
  {
    var qs := t.checklist.GetOr([]);
    assert qs != [] ==> QaText(qs, answers)[0] == 'Q' by {
      if qs != [] { QaTextOpens(qs, answers); }
    }
    Or(QaText(qs, answers), "No structured Q&A available.")
  }

  function TenantSection(req: Request): string {
    Or(req.tenantText.GetOr(""), "No extra tenant text provided.")
  }

  /** The user message's sections before the vision recon JSON. */
  function Front(req: Request): seq<Section> {
    [ Section("JOB DESCRIPTION", DescriptionOf(req)),
      Section("TRIAGE SUMMARY", SummaryText(TriageOf(req))),
      Section("DISPATCHER Q&A", QaSection(TriageOf(req), req.answers)),
      Section("TENANT REPLY TEXT", TenantSection(req)) ]
  }

  /** The user message's sections, in order, before the final trim. */
  function Inputs(req: Request, vision: string): seq<Section> {
    Front(req) + [Section("VISION RECON JSON", vision)]
  }

  /** `userContent`: every input under its heading, in order; the trim takes
      nothing but the trailing spaces of the vision recon JSON, which the
      route has checked is not blank. */
  function UserContent(req: Request): (r: string)
    ensures !AllSpace(VisionOf(req)) ==> r == Sections(Inputs(req, TrimEnd(VisionOf(req))))
  {
    var v := VisionOf(req);
    var r := Trim("\n" + Sections(Inputs(req, v)) + "\n");
    assert !AllSpace(v) ==> r == Sections(Inputs(req, TrimEnd(v))) by {
      if !AllSpace(v) {
        TrimmedInputs(req, v);
      }
    }
    r
  }

  lemma TrimmedInputs(req: Request, v: string)
    requires !AllSpace(v)
    ensures Trim("\n" + Sections(Inputs(req, v)) + "\n") == Sections(Inputs(req, TrimEnd(v)))
  {
    var front, last := Front(req), Section("VISION RECON JSON", v);
    assert front[0].heading[0] == 'J';
    TrimSections(front, last);
    assert Inputs(req, v) == front + [last];
    assert Inputs(req, TrimEnd(v)) == front + [Section(last.heading, TrimEnd(v))];
  }

  /** Neither the description nor the vision recon JSON is blank. */
  predicate Accepted(req: Request) {
    !AllSpace(DescriptionOf(req)) && !AllSpace(VisionOf(req))
  }

  const ServerError: string := "Server error in final diagnosis"

  /** `POST`, given the provider's reply `data` to the message built from
      `UserContent(req)`. The description is checked before the vision recon
      JSON; both checks trim. */
  function Post(req: Request, data: Value, parse: Parser): (r: Reply)
    requires ChatShaped(data)
    ensures AllSpace(DescriptionOf(req)) ==> r == Err(400, "Missing description", map[])
    ensures !AllSpace(DescriptionOf(req)) && AllSpace(VisionOf(req)) ==>
              r == Err(400, "Missing vision recon JSON", map[])
    ensures Accepted(req) ==> r == Cleaning.CleanedChatReply(data, parse, ServerError)
    ensures r.Ok? ==> Accepted(req)
  {
    TrimIsBlank(DescriptionOf(req));
    TrimIsBlank(VisionOf(req));
    if Trim(DescriptionOf(req)) == "" then Err(400, "Missing description", map[])
    else if Trim(VisionOf(req)) == "" then Err(400, "Missing vision recon JSON", map[])
    else Cleaning.CleanedChatReply(data, parse, ServerError)
  }

  /** A model that wraps its JSON object in a "```json" fence still has the
      object returned, whether or not the fenced text parses as it is. */
  lemma FencedDiagnosisAccepted(req: Request, tag: string, j: string, parse: Parser)
    requires Accepted(req) && Cleaning.JsonTag(tag)
    requires |j| >= 2 && j[0] == '{' && j[|j| - 1] == '}' && Cleaning.NoFence(j)
    requires parse(j).Some?
    ensures Post(req, ChatReplyWith(Cleaning.Fenced(tag, j)), parse).Ok?
    ensures parse(Cleaning.Fenced(tag, j)).None? ==>
              Post(req, ChatReplyWith(Cleaning.Fenced(tag, j)), parse) == Ok(parse(j).value)
  {
    ContentOfChatReply(Cleaning.Fenced(tag, j));
    Cleaning.FencedObjectRecovered(tag, j, parse);
  }
}
