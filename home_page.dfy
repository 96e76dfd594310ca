/** The logic of the triage page (app/page.tsx) apart from its rendering:
    the guard before a triage request, how the reply fills the result, the
    category colour and the confidence label. */
module HomePage {
  import opened Wrappers
  import opened Text
  import opened Json

  const EmptyDescription: string := "Please paste a job description first."

  /** The body `runTriage` posts, or None when the guard stops it: a blank
      description sends nothing, any other is sent exactly as typed, with
      its spaces. */
  function TriageRequest(description: string): (r: Option<Value>)
    ensures r.None? <==> AllSpace(description)
    ensures r.Some? ==> r.value == Obj(map["description" := Str(description)])
  {
    TrimIsBlank(description);
    if Trim(description) == "" then None
    else Some(Obj(map["description" := Str(description)]))
  }

  /** What the page keeps from a triage reply. */
  datatype TriageResult = TriageResult(
    category: Option<Value>,
    hazards: Value,
    questions: Value,
    summary: Option<Value>,
    diagnosis: Value)

  /** `v || fallback` for a property that may be `undefined`. */
  function OrDefault(o: Option<Value>, fallback: Value): (r: Value)
    ensures Present(o) ==> r == o.value
    ensures !Present(o) ==> r == fallback
  {
    if Present(o) then o.value else fallback
  }

  /** The result built from a reply `data` that is not `null`: the lists
      default to `[]` and the diagnosis to `{}`, so all three are always
      truthy; category and summary are taken as they are. */
  function ResultOf(data: Value): (r: TriageResult)
    ensures Truthy(r.hazards) && Truthy(r.questions) && Truthy(r.diagnosis)
    ensures !Present(Member(data, "hazards")) ==> r.hazards == Arr([])
    ensures !Present(Member(data, "questions")) ==> r.questions == Arr([])
    ensures !Present(Member(data, "diagnosis")) ==> r.diagnosis == Obj(map[])
    ensures Present(Member(data, "hazards")) ==> r.hazards == Member(data, "hazards").value
    ensures Present(Member(data, "questions")) ==> r.questions == Member(data, "questions").value
    ensures Present(Member(data, "diagnosis")) ==> r.diagnosis == Member(data, "diagnosis").value
    ensures r.category == Member(data, "category") && r.summary == Member(data, "summary")
  {
    TriageResult(
      Member(data, "category"),
      OrDefault(Member(data, "hazards"), Arr([])),
      OrDefault(Member(data, "questions"), Arr([])),
      Member(data, "summary"),
      OrDefault(Member(data, "diagnosis"), Obj(map[])))
  }

  /** The triage endpoint's answer: a failed status with its text, or a
      JSON body. A failed `fetch` and an unreadable body are not modelled. */
  datatype Response = NotOk(status: nat, text: string) | Body(data: Value)

  /** The page after `runTriage`: an error message, or a result. */
  datatype Outcome = Error(message: string) | Shown(result: TriageResult)

  /** `runTriage`, given the endpoint's answer to `TriageRequest(description)`.
      Reading `category` of a `null` body throws, and the catch shows the
      error's message. */
  function RunTriage(description: string, res: Response): (r: Outcome)
    ensures AllSpace(description) ==> r == Error(EmptyDescription)
    ensures !AllSpace(description) && res.NotOk? ==>
              r == Error("Server error: " + Decimal(res.status) + " \U{2013} " + res.text)
    ensures !AllSpace(description) && res == Body(Null) ==> r == Error(NullReadMessage("category"))
    ensures r.Shown? <==> !AllSpace(description) && res.Body? && res.data != Null
    ensures r.Shown? ==> r.result == ResultOf(res.data)
  {
    if TriageRequest(description).None? then Error(EmptyDescription)
    else
      match res
      case NotOk(status, text) => Error("Server error: " + Decimal(status) + " \U{2013} " + text)
      case Body(data) =>
        if data == Null then Error(NullReadMessage("category")) else Shown(ResultOf(data))
  }

  const Blue: string := "#2563eb"
  const Yellow: string := "#eab308"
  const Green: string := "#16a34a"
  const Pink: string := "#ec4899"
  const Gray: string := "#6b7280"

  /** `getCategoryColor`: the first trade word found in the lower-cased
      category picks the colour; plumbing wins over electrical, electrical
      over carpentry, carpentry over heating and cooling. */
  function CategoryColor(category: Option<string>): (r: string)
    ensures r in {Blue, Yellow, Green, Pink, Gray}
    ensures var c := ToLower(category.GetOr(""));
            && (Contains(c, "plumb") ==> r == Blue)
            && (!Contains(c, "plumb") && Contains(c, "electric") ==> r == Yellow)
            && (!Contains(c, "plumb") && !Contains(c, "electric") && Contains(c, "carp") ==> r == Green)
            && (r == Pink <==> !Contains(c, "plumb") && !Contains(c, "electric") && !Contains(c, "carp") &&
                               (Contains(c, "hvac") || Contains(c, "heat") || Contains(c, "cool")))
            && (r == Gray <==> !Contains(c, "plumb") && !Contains(c, "electric") && !Contains(c, "carp") &&
                               !Contains(c, "hvac") && !Contains(c, "heat") && !Contains(c, "cool"))
  {
    var c := ToLower(category.GetOr(""));
    if Contains(c, "plumb") then Blue
    else if Contains(c, "electric") then Yellow
    else if Contains(c, "carp") then Green
    else if Contains(c, "hvac") || Contains(c, "heat") || Contains(c, "cool") then Pink
    else Gray
  }

  /** Nothing is found in an empty text. */
  lemma NothingInEmpty(p: string)
    requires p != ""
    ensures !Contains("", p)
  {
  }

  /** A missing category is gray. */
  lemma MissingCategoryIsGray()
    ensures CategoryColor(None) == Gray
  {
    assert ToLower("") == "";
    NothingInEmpty("plumb");
    NothingInEmpty("electric");
    NothingInEmpty("carp");
    NothingInEmpty("hvac");
    NothingInEmpty("heat");
    NothingInEmpty("cool");
  }

  /** Lower-casing twice is lower-casing once. */
  lemma ToLowerIdempotent(s: string)
    ensures ToLower(ToLower(s)) == ToLower(s)
  {
  }

  /** The colour ignores case: a category and its lower-cased form get the
      same colour. */
  lemma ColorIgnoresCase(category: string)
    ensures CategoryColor(Some(category)) == CategoryColor(Some(ToLower(category)))
  {
    ToLowerIdempotent(category);
  }

  /** A category naming two trades gets the colour of the earlier one in
      the precedence order. */
  lemma PlumbingWinsOverElectrical()
    ensures CategoryColor(Some("Plumbing and Electrical")) == Blue
  {
    var c := ToLower("Plumbing and Electrical");
    assert c[..5] == "plumb";
  }

  /** The confidence the page shows: a label and a percentage. */
  datatype Confidence = Confidence(caption: string, percent: int)

  /** `Math.round`: to the nearest integer, halves upwards. */
  function Round(x: real): (r: int)
    ensures r as real - 0.5 <= x < r as real + 0.5
  {
    (x + 0.5).Floor
  }

  /** A confidence at most 1 is a fraction and is scaled to a percentage;
      anything larger is taken as a percentage already. */
  function Scaled(c: real): (r: real)
    ensures c <= 1.0 ==> r <= 100.0
    ensures 0.0 <= c ==> 0.0 <= r && c <= r
    ensures c > 1.0 ==> r == c
  {
    if c <= 1.0 then c * 100.0 else c
  }

  /** `Math.max(0, Math.min(100, n))` */
  function Clamp(n: int): (r: nat)
    ensures r <= 100
    ensures 0 <= n <= 100 ==> r == n
    ensures n < 0 ==> r == 0
    ensures n > 100 ==> r == 100
  {
    if n < 0 then 0 else if n > 100 then 100 else n
  }

  /** The band word after the percentage. */
  function Band(percent: int): (r: string)
    ensures r == " (High)" <==> percent >= 80
    ensures r == " (Medium)" <==> 60 <= percent < 80
    ensures r == " (Low)" <==> percent < 60
  {
    if percent >= 80 then " (High)" else if percent >= 60 then " (Medium)" else " (Low)"
  }

  /** `formatConfidence`; None stands for a missing, `null` or NaN confidence. */
  function FormatConfidence(confidence: Option<real>): (r: Confidence)
    ensures confidence.None? ==> r == Confidence("Unknown", 0)
    ensures confidence.Some? ==>
              && 0 <= r.percent <= 100
              && r.percent == Clamp(Round(Scaled(confidence.value)))
              && r.caption == Decimal(r.percent) + "%" + Band(r.percent)
  {
    match confidence
    case None => Confidence("Unknown", 0)
    case Some(c) =>
      var percent := Clamp(Round(Scaled(c)));
      Confidence(Decimal(percent) + "%" + Band(percent), percent)
  }

  /** A fraction between 0 and 1 is shown as its rounded percentage. */
  lemma FractionAsPercent(c: real)
    requires 0.0 <= c <= 1.0
    ensures FormatConfidence(Some(c)).percent == Round(c * 100.0)
  {
  }

  /** A value just above 1 is read as a percentage: 1.5 is 2%, not 150%. */
  lemma OneAndAHalfIsTwoPercent()
    ensures FormatConfidence(Some(1.5)).percent == 2
  {
    assert Round(1.5) == 2;
  }

  /** A negative confidence shows 0%. */
  lemma NegativeIsZero(c: real)
    requires c < 0.0
    ensures FormatConfidence(Some(c)).percent == 0
  {
    assert Scaled(c) < 0.0;
  }

  /** The bands follow the percentage: High from 80, Medium from 60, else Low. */
  lemma BandsByPercent(c: real)
    ensures var r := FormatConfidence(Some(c));
            && (r.percent >= 80 <==> EndsWith(r.caption, " (High)"))
            && (60 <= r.percent < 80 <==> EndsWith(r.caption, " (Medium)"))
            && (r.percent < 60 <==> EndsWith(r.caption, " (Low)"))
  {
    var r := FormatConfidence(Some(c));
    BandSuffix(Decimal(r.percent) + "%", r.percent);
  }

  /** The same for any text ending in "%" followed by the band word. */
  lemma BandSuffix(d: string, p: int)
    requires d != [] && d[|d| - 1] == '%'
    ensures var l := d + Band(p);
            && (p >= 80 <==> EndsWith(l, " (High)"))
            && (60 <= p < 80 <==> EndsWith(l, " (Medium)"))
            && (p < 60 <==> EndsWith(l, " (Low)"))
  {
    var b := Band(p);
    var l := d + b;
    var n := |l|;
    assert l[n - |b|..] == b;
    if p >= 80 {
      NotEndsWith(l, " (Medium)", 2);
      NotEndsWith(l, " (Low)", 0);
    } else if p >= 60 {
      NotEndsWith(l, " (High)", 0);
      NotEndsWith(l, " (Low)", 0);
    } else {
      assert l[n - 7] == '%';
      NotEndsWith(l, " (High)", 0);
      NotEndsWith(l, " (Medium)", 2);
    }
  }

  /** A text whose `j`-th character from the suffix's start differs does
      not end with that suffix. */
  lemma NotEndsWith(s: string, suffix: string, j: nat)
    requires j < |suffix|
    requires |suffix| > |s| || s[|s| - |suffix| + j] != suffix[j]
    ensures !EndsWith(s, suffix)
  {
    if |suffix| <= |s| {
      assert s[|s| - |suffix|..][j] == s[|s| - |suffix| + j];
    }
  }

  /** The label's number reads back as the percentage. */
  lemma LabelReadsBack(c: real)
    ensures var r := FormatConfidence(Some(c));
            var digits := Decimal(r.percent);
            StartsWith(r.caption, digits) && r.caption[|digits|] == '%' &&
            DigitsValue(digits) == r.percent
  {
    var r := FormatConfidence(Some(c));
    DecimalRoundTrip(r.percent);
  }

  /** Within each reading (fractions, percentages), a larger confidence
      never shows a smaller percentage. */
  lemma MonotoneWithinScale(c1: real, c2: real)
    requires c1 <= c2
    requires c2 <= 1.0 || c1 > 1.0
    ensures FormatConfidence(Some(c1)).percent <= FormatConfidence(Some(c2)).percent
  {
    assert Scaled(c1) <= Scaled(c2);
    RoundMonotone(Scaled(c1), Scaled(c2));
  }

  lemma RoundMonotone(x: real, y: real)
    requires x <= y
    ensures Round(x) <= Round(y)
  {
  }
}
