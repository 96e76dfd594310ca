/** The case-update route (app/api/cases/update/route.ts): it checks the
    case id and the updates, and gives a case whose triage is updated a
    title derived from that triage before the updates go to the database. */
module CaseUpdate {
  import opened Wrappers
  import opened Text
  import opened Json
  import opened Replies

  /** The triage fields the title is made of are text when they are truthy. */
  predicate TitleShaped(triage: Value) {
    Textual(Member(triage, "category")) && Textual(Member(triage, "summary"))
  }

  /** `triage.category || "General"`: never empty. */
  function CategoryOf(triage: Value): (r: string)
    requires TitleShaped(triage)
    ensures r != ""
    ensures Present(Member(triage, "category")) ==> Str(r) == Member(triage, "category").value
    ensures !Present(Member(triage, "category")) ==> r == "General"
  {
    Or(TextOf(Member(triage, "category")), "General")
  }

  /** `triage.summary ? triage.summary.slice(0, 60) : "No summary"`: the
      first 60 characters of a summary, all of a shorter one. */
  function SummaryPart(triage: Value): (r: string)
    requires TitleShaped(triage)
    ensures |r| <= 60
    ensures Present(Member(triage, "summary")) ==>
              var s := Member(triage, "summary").value.s;
              StartsWith(s, r) && |r| == if |s| < 60 then |s| else 60
    ensures !Present(Member(triage, "summary")) ==> r == "No summary"
  {
    var s := TextOf(Member(triage, "summary"));
    if s == "" then "No summary"
    else if |s| < 60 then s
    else s[..60]
  }

  /** `generateTitleFromTriage`: "Untitled Case" for a falsy triage, else
      the category and the cut summary around ": ", so never more than 62
      characters longer than the category. */
  function GenerateTitle(triage: Value): (r: string)
    requires TitleShaped(triage)
    ensures !Truthy(triage) ==> r == "Untitled Case"
    ensures Truthy(triage) ==> StartsWith(r, CategoryOf(triage) + ": ")
    ensures Truthy(triage) ==> r[|CategoryOf(triage)| + 2..] == SummaryPart(triage)
    ensures Truthy(triage) ==> |r| <= |CategoryOf(triage)| + 62
  {
    if !Truthy(triage) then "Untitled Case"
    else
      var c := CategoryOf(triage) + ": ";
      var r := c + SummaryPart(triage);
      assert r[..|c|] == c;
      r
  }

  /** A summary longer than 60 characters loses everything after its 60th. */
  lemma LongSummaryCut(category: string, summary: string)
    requires category != [] && |summary| > 60
    ensures GenerateTitle(Obj(map["category" := Str(category), "summary" := Str(summary)])) ==
            category + ": " + summary[..60]
  {
    var t := Obj(map["category" := Str(category), "summary" := Str(summary)]);
    assert Member(t, "summary") == Some(Str(summary));
    assert Member(t, "category") == Some(Str(category));
  }

  /** An updates object whose truthy triage can be titled. */
  predicate Titleable(fields: map<string, Value>) {
    "triage" in fields && Truthy(fields["triage"]) ==> TitleShaped(fields["triage"])
  }

  /** `if (updates.triage) updates.title = generateTitleFromTriage(updates.triage)`:
      a truthy triage sets the title from it, replacing any title the caller
      sent; every other key keeps its value, and without a truthy triage
      nothing changes. */
  function TitleRule(fields: map<string, Value>): (r: map<string, Value>)
    requires Titleable(fields)
    ensures forall k :: k != "title" ==> (k in r <==> k in fields)
    ensures forall k :: k != "title" && k in fields ==> r[k] == fields[k]
    ensures Present(Member(Obj(fields), "triage")) ==>
              "title" in r && r["title"] == Str(GenerateTitle(fields["triage"]))
    ensures !Present(Member(Obj(fields), "triage")) ==> r == fields
  {
    if "triage" in fields && Truthy(fields["triage"]) then
      fields["title" := Str(GenerateTitle(fields["triage"]))]
    else fields
  }

  /** Sending the prepared updates again changes nothing more: the triage
      is kept, so the same title is derived. */
  lemma TitleRuleIdempotent(fields: map<string, Value>)
    requires Titleable(fields)
    ensures Titleable(TitleRule(fields))
    ensures TitleRule(TitleRule(fields)) == TitleRule(fields)
  {
    var r := TitleRule(fields);
    if "triage" in fields && Truthy(fields["triage"]) {
      assert r["triage"] == fields["triage"];
      assert r["title" := Str(GenerateTitle(r["triage"]))] == r;
    }
  }

  /** `typeof updates === "object"` for a truthy value: an object or an array. */
  predicate IsObject(v: Value) {
    v.Obj? || v.Arr?
  }

  /** The checks and the title rule of `POST`, given the request body's `id`
      and `updates`: the reply is the value handed to the database update.
      The id is checked first; an array passes the object test and, having
      no `triage`, goes through unchanged. */
  method PrepareUpdate(id: Option<Value>, updates: Option<Value>) returns (r: Reply)
    requires updates.Some? && updates.value.Obj? ==> Titleable(updates.value.fields)
    ensures !Present(id) ==> r == Err(400, "Missing case ID", map[])
    ensures Present(id) && !(Present(updates) && IsObject(updates.value)) ==>
              r == Err(400, "Invalid updates object", map[])
    ensures r.Ok? <==> Present(id) && Present(updates) && IsObject(updates.value)
    ensures r.Ok? && updates.value.Arr? ==> r.body == updates.value
    ensures r.Ok? && updates.value.Obj? ==> r.body == Obj(TitleRule(updates.value.fields))
  {
    if !Present(id) {
      return Err(400, "Missing case ID", map[]);
    }
    if !Present(updates) || !IsObject(updates.value) {
      return Err(400, "Invalid updates object", map[]);
    }
    var u := updates.value;
    if u.Obj? {
      var fields := u.fields;
      if Present(Member(u, "triage")) {
        fields := fields["title" := Str(GenerateTitle(fields["triage"]))];
      }
      u := Obj(fields);
    }
    return Ok(u);
  }
}
