/** The pricing-consultant route (app/api/vision/analyze/route.ts): it sends
    the client's diagnosis or quote data to the model, recovers the model's
    JSON with the shared cleaning step, and accepts the answer only when
    every required field is defined and the breakdown section is well formed. */
module PricingConsultant {
  import opened Wrappers
  import opened Json
  import opened Replies
  import Cleaning

  /** `typeof diagnosis === "string" ? diagnosis : JSON.stringify(diagnosis, null, 2)`,
      with the pretty-printer as a parameter. */
  function UserContent(body: Value, pretty: Value -> string): (r: string)
    ensures body.Str? ==> r == body.s
    ensures !body.Str? ==> r == pretty(body)
  {
    if body.Str? then body.s else pretty(body)
  }

  /** The fields the answer must define, in the order they are checked. */
  const RequiredFields: seq<string> := [
    "currency",
    "fair_range_low",
    "fair_range_high",
    "subcontractor_quote_incl_gst",
    "position_vs_market",
    "recommended_markup_percent",
    "recommended_markup_amount",
    "caf_recommended_sell_price",
    "caf_position_after_markup",
    "should_negotiate_or_change_subbie",
    "breakdown"
  ]

  /** `parsed[field] !== undefined`: a field that is present, even as `null`. */
  predicate Defined(parsed: Value, field: string) {
    Member(parsed, field).Some?
  }

  /** Every field of `fields` is defined. */
  predicate AllDefined(parsed: Value, fields: seq<string>) {
    forall k :: 0 <= k < |fields| ==> Defined(parsed, fields[k])
  }

  /** The position of the first field of `fields` from `i` on that is
      `undefined`, or `|fields|` when there is none. */
  function MissingFrom(parsed: Value, fields: seq<string>, i: nat): (k: nat)
    requires i <= |fields|
    ensures i <= k <= |fields|
    ensures forall j :: i <= j < k ==> Defined(parsed, fields[j])
    ensures k < |fields| ==> !Defined(parsed, fields[k])
    decreases |fields| - i
  {
    if i == |fields| then i
    else if !Defined(parsed, fields[i]) then i
    else MissingFrom(parsed, fields, i + 1)
  }

  /** The first field of `fields` that is `undefined`; `|fields|` exactly
      when every field is defined. */
  function FirstMissing(parsed: Value, fields: seq<string>): (k: nat)
    ensures k <= |fields|
    ensures k == |fields| <==> AllDefined(parsed, fields)
  {
    MissingFrom(parsed, fields, 0)
  }

  /** The required-field loop over `fields`: it stops at the first field
      that is `undefined`, or runs to the end when every field is defined. */
  method FirstUndefined(parsed: Value, fields: seq<string>) returns (k: nat)
    ensures k == FirstMissing(parsed, fields)
  {
    k := 0;
    while k < |fields|
      invariant k <= |fields|
      invariant MissingFrom(parsed, fields, k) == FirstMissing(parsed, fields)
    {
      if !Defined(parsed, fields[k]) {
        return;
      }
      k := k + 1;
    }
  }

  predicate IsString(o: Option<Value>) { o.Some? && o.value.Str? }
  predicate IsArray(o: Option<Value>) { o.Some? && o.value.Arr? }

  /** The breakdown is truthy, with string `scope_summary`,
      `comparison_summary` and `markup_strategy` and array `baseline_costs`
      and `market_benchmarks`. */
  predicate BreakdownWellFormed(parsed: Value): (r: bool)
    ensures r ==> var b := Member(parsed, "breakdown");
                  && b.Some? && b.value.Obj?
                  && {"scope_summary", "baseline_costs", "market_benchmarks",
                      "comparison_summary", "markup_strategy"} <= b.value.fields.Keys
  {
    var b := Member(parsed, "breakdown");
    && Present(b)
    && IsString(Member(b.value, "scope_summary"))
    && IsArray(Member(b.value, "baseline_costs"))
    && IsArray(Member(b.value, "market_benchmarks"))
    && IsString(Member(b.value, "comparison_summary"))
    && IsString(Member(b.value, "markup_strategy"))
  }

  function MissingField(field: string, parsed: Value): Reply {
    Err(500, "Pricing model response missing required field: " + field, map["raw" := parsed])
  }

  function BadBreakdown(parsed: Value): Reply {
    Err(500, "Pricing model response has invalid or incomplete breakdown section", map["raw" := parsed])
  }

  /** The checks on the parsed answer, with `fields` the required fields in
      order (the route passes `RequiredFields`). Reading a field of `null`
      throws, and the route's catch answers with the error's message. A field
      present as `null` passes the field check; a missing breakdown is
      reported by the field check, before the shape check runs. */
  function Verdict(parsed: Value, fields: seq<string>): (r: Reply)
    requires fields != []
    ensures parsed == Null ==> r == Err(500, NullReadMessage(fields[0]), map[])
    ensures r.Ok? <==> parsed != Null && AllDefined(parsed, fields) && BreakdownWellFormed(parsed)
    ensures r.Ok? ==> r.body == parsed
    ensures parsed != Null && !AllDefined(parsed, fields) ==>
              r == MissingField(fields[FirstMissing(parsed, fields)], parsed)
    ensures parsed != Null && AllDefined(parsed, fields) && !BreakdownWellFormed(parsed) ==> r == BadBreakdown(parsed)
  {
    if parsed == Null then Err(500, NullReadMessage(fields[0]), map[])
    else
      var k := FirstMissing(parsed, fields);
      if k < |fields| then MissingField(fields[k], parsed)
      else if !BreakdownWellFormed(parsed) then BadBreakdown(parsed)
      else Ok(parsed)
  }

  /** The route's checks, running the required-field loop. */
  method Validate(parsed: Value, fields: seq<string>) returns (r: Reply)
    requires fields != []
    ensures r == Verdict(parsed, fields)
  {
    if parsed == Null {
      return Err(500, NullReadMessage(fields[0]), map[]);
    }
    var k := FirstUndefined(parsed, fields);
    if k < |fields| {
      return MissingField(fields[k], parsed);
    }
    if !BreakdownWellFormed(parsed) {
      return BadBreakdown(parsed);
    }
    return Ok(parsed);
  }

  /** `POST`, given the request body and the provider's reply `data`. */
  method Post(body: Value, data: Value, parse: Parser) returns (r: Reply)
    requires ChatShaped(data)
    ensures !Truthy(body) ==> r == Err(400, "No diagnosis or quote data provided", map[])
    ensures Truthy(body) && ContentText(data) == "" ==>
              r == Err(500, "Empty response from Pricing model", map["details" := data])
    ensures Truthy(body) && ContentText(data) != "" ==>
              match Cleaning.ParseOrClean(ContentText(data), parse)
              case Unparsable(original, cleaned) =>
                r == Err(500, "Invalid JSON from Pricing model after cleaning",
                         map["raw_original" := Str(original), "raw_cleaned" := Str(cleaned)])
              case Parsed(v) => r == Verdict(v, RequiredFields)
  {
    if !Truthy(body) {
      return Err(400, "No diagnosis or quote data provided", map[]);
    }
    var raw := ContentText(data);
    if raw == "" {
      return Err(500, "Empty response from Pricing model", map["details" := data]);
    }
    match Cleaning.ParseOrClean(raw, parse)
    case Unparsable(original, cleaned) =>
      r := Err(500, "Invalid JSON from Pricing model after cleaning",
               map["raw_original" := Str(original), "raw_cleaned" := Str(cleaned)]);
    case Parsed(v) =>
      r := Validate(v, RequiredFields);
  }

  /** An answer whose breakdown is missing altogether is reported by the field
      check, naming "breakdown", when every other field is defined. */
  lemma MissingBreakdownIsAFieldError(parsed: Value)
    requires parsed != Null
    requires forall j :: 0 <= j < |RequiredFields| - 1 ==> Defined(parsed, RequiredFields[j])
    requires !Defined(parsed, "breakdown")
    ensures !AllDefined(parsed, RequiredFields)
    ensures forall k :: 0 <= k < |RequiredFields| && !Defined(parsed, RequiredFields[k]) ==>
              RequiredFields[k] == "breakdown"
  {
    assert RequiredFields[|RequiredFields| - 1] == "breakdown";
  }
}
