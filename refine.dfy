/** The refine route (app/api/triage/refine/route.ts): it sends the job
    description, the checklist Q&A, the tenant's reply and the photos to a
    vision model as one multimodal message, and parses the answer as it is,
    with no cleaning step. */
module Refine {
  import opened Wrappers
  import opened Text
  import opened Json
  import opened Replies
  import opened Checklist
  import opened Prompts

  /** An uploaded file: its URL and, when known, its MIME type. */
  datatype MediaItem = MediaItem(url: string, contentType: Option<string>)

  /** The request body; missing lists and `answers` are empty. */
  datatype Request = Request(
    description: Option<string>,
    checklist: seq<Question>,
    answers: map<string, string>,
    tenantText: Option<string>,
    media: seq<MediaItem>)

  /** `(m.contentType || "").toLowerCase().startsWith("image/")` */
  predicate IsImage(m: MediaItem): (r: bool)
    ensures r ==> m.contentType.Some? && |m.contentType.value| >= 6
    ensures m.contentType.Some? && StartsWith(m.contentType.value, "image/") ==> r
  {
    var t := m.contentType.GetOr("");
    assert StartsWith(t, "image/") ==> StartsWith(ToLower(t), "image/") by {
      if StartsWith(t, "image/") {
        forall i | 0 <= i < 6 ensures ToLower(t)[i] == "image/"[i] {
          assert t[i] == "image/"[i];
        }
      }
    }
    StartsWith(ToLower(t), "image/")
  }

  /** `media.filter(IsImage)`: exactly the images, in their original order. */
  function ImageMedia(media: seq<MediaItem>): (r: seq<MediaItem>)
    ensures |r| <= |media|
    ensures forall m :: m in r <==> m in media && IsImage(m)
    decreases |media|
  {
    if media == [] then []
    else
      var rest := ImageMedia(media[1..]);
      assert forall m :: m in media <==> m == media[0] || m in media[1..];
      if IsImage(media[0]) then [media[0]] + rest else rest
  }

  /** The filter keeps order: filtering two lists one after the other is
      filtering each and putting the results one after the other. */
  lemma {:induction false} ImageMediaAppend(a: seq<MediaItem>, b: seq<MediaItem>)
    ensures ImageMedia(a + b) == ImageMedia(a) + ImageMedia(b)
    decreases |a|
  {
    if a == [] {
      assert a + b == b;
    } else {
      assert (a + b)[1..] == a[1..] + b;
      ImageMediaAppend(a[1..], b);
    }
  }

  /** An item with no content type is never sent as an image. */
  lemma UntypedIsDropped(url: string)
    ensures !IsImage(MediaItem(url, None))
  {
  }

  /** The type test ignores case: "IMAGE/PNG" is an image. */
  lemma UpperCaseTypeIsImage(url: string)
    ensures IsImage(MediaItem(url, Some("IMAGE/PNG")))
  {
    var l := ToLower("IMAGE/PNG");
    assert l[..6] == "image/" by {
      forall i | 0 <= i < 6 ensures l[i] == "image/"[i] {
      }
    }
  }

  /** A part of the multimodal message. */
  datatype Part = TextPart(text: string) | ImageUrlPart(url: string)

  /** `content`: the text part, then one image part per image, each carrying
      that image's URL, in order. */
  function Content(text: string, images: seq<MediaItem>): (r: seq<Part>)
    ensures |r| == 1 + |images|
    ensures r[0] == TextPart(text)
    ensures forall i :: 0 <= i < |images| ==> r[i + 1] == ImageUrlPart(images[i].url)
  {
    [TextPart(text)] + seq(|images|, i requires 0 <= i < |images| => ImageUrlPart(images[i].url))
  }

  /** The request's parts before the tenant text. */
  function Front(req: Request): seq<Section> {
    [ Section("JOB DESCRIPTION", req.description.GetOr("")),
      Section("DISPATCHER Q&A", Or(QaText(req.checklist, req.answers), "No Q&A provided.")) ]
  }

  /** The request's parts after the fixed instructions, in order. */
  function Inputs(req: Request, tenant: string): seq<Section> {
    Front(req) + [Section("TENANT REPLY TEXT", tenant)]
  }

  /** `tenantText || "No additional tenant reply text provided."` */
  function TenantText(req: Request): string {
    Or(req.tenantText.GetOr(""), "No additional tenant reply text provided.")
  }

  /** The text part before the trim. */
  function Untrimmed(instructions: string, req: Request, tenant: string): string {
    instructions + "\n\n" + Sections(Inputs(req, tenant))
  }

  /** The text part: the fixed instructions, then the job description, the
      Q&A (or "No Q&A provided." for an empty checklist) and the tenant
      text, trimmed as a whole; the trim takes only trailing spaces of a
      non-blank tenant text. */
  function PromptText(instructions: string, req: Request): (r: string)
    requires instructions != [] && !IsSpace(instructions[0])
    ensures !AllSpace(TenantText(req)) ==> r == Untrimmed(instructions, req, TrimEnd(TenantText(req)))
  {
    var t := TenantText(req);
    var r := Trim("\n" + Untrimmed(instructions, req, t) + "\n        ");
    assert !AllSpace(t) ==> r == Untrimmed(instructions, req, TrimEnd(t)) by {
      if !AllSpace(t) { TrimmedPrompt(instructions, req, t); }
    }
    r
  }

  lemma TrimmedPrompt(instructions: string, req: Request, t: string)
    requires instructions != [] && !IsSpace(instructions[0])
    requires !AllSpace(t)
    ensures Trim("\n" + Untrimmed(instructions, req, t) + "\n        ") ==
            Untrimmed(instructions, req, TrimEnd(t))
  {
    var h := instructions + "\n\n" + LeadIn(Front(req), "TENANT REPLY TEXT");
    SplitAtTenant(instructions, req, t);
    SplitAtTenant(instructions, req, TrimEnd(t));
    var pad := "\n        ";
    PadIsBlank();
    assert h[0] == instructions[0];
    assert Untrimmed(instructions, req, t) == h + t;
    TrimAfterHeadingPadded(Untrimmed(instructions, req, t), h, t, pad);
  }

  lemma PadIsBlank()
    ensures AllSpace("\n        ")
  {
    var pad := "\n        ";
    forall i | 0 <= i < |pad| ensures IsSpace(pad[i]) {
      assert pad[i] == '\n' || pad[i] == ' ';
    }
  }

  lemma SplitAtTenant(instructions: string, req: Request, t: string)
    ensures Untrimmed(instructions, req, t) ==
            instructions + "\n\n" + LeadIn(Front(req), "TENANT REPLY TEXT") + t
  {
    SectionsLast(Front(req), Section("TENANT REPLY TEXT", t));
  }

  /** An empty checklist is rendered as "No Q&A provided.". */
  lemma NoQuestionsRendered(req: Request)
    requires req.checklist == []
    ensures Inputs(req, TenantText(req))[1].body == "No Q&A provided."
  {
  }

  /** `POST`, given the provider's reply `data` to the message
      `Content(PromptText(...), ImageMedia(req.media))`. Only an empty or
      missing description is refused: there is no trim here. */
  function Post(req: Request, data: Value, parse: Parser): (r: Reply)
    requires ChatShaped(data)
    ensures req.description.GetOr("") == "" ==> r == Err(400, "Missing description", map[])
    ensures req.description.GetOr("") != "" && data == Null ==>
              r == Err(500, "Server error in refine", map["details" := Str(NullReadMessage("choices"))])
    ensures req.description.GetOr("") != "" && data != Null && ContentText(data) == "" ==>
              r == Err(500, "Invalid AI response", map["details" := data])
    ensures r.Ok? <==> req.description.GetOr("") != "" && data != Null && ContentText(data) != "" &&
                       parse(ContentText(data)).Some?
    ensures r.Ok? ==> r.body == parse(ContentText(data)).value
    ensures req.description.GetOr("") != "" && data != Null && ContentText(data) != "" &&
            parse(ContentText(data)).None? ==>
              r == Err(500, "Invalid JSON from AI", map["raw" := Str(ContentText(data))])
  {
    if req.description.GetOr("") == "" then Err(400, "Missing description", map[])
    else if data == Null then Err(500, "Server error in refine", map["details" := Str(NullReadMessage("choices"))])
    else
      var content := ContentText(data);
      if content == "" then Err(500, "Invalid AI response", map["details" := data])
      else
        match parse(content)
        case Some(v) => Ok(v)
        case None => Err(500, "Invalid JSON from AI", map["raw" := Str(content)])
  }

  /** A whitespace-only description is accepted. */
  lemma BlankDescriptionAccepted(req: Request, data: Value, parse: Parser)
    requires req.description == Some(" ") && ChatShaped(data)
    ensures Post(req, data, parse) != Err(400, "Missing description", map[])
  {
    assert req.description.GetOr("") != "";
    if data != Null && ContentText(data) == "" {
      assert Post(req, data, parse).error == "Invalid AI response";
    }
  }
}
