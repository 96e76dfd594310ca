/** The first-pass triage route (app/api/triage/route.ts): it sends the
    description to a HuggingFace text-generation model, takes the first
    non-empty generated text, cuts it to its outermost braces and parses it,
    repairing trailing commas and quotes when the first parse throws. */
module TriageRoute {
  import opened Wrappers
  import opened Text
  import opened Json
  import opened Replies
  import Cleaning

  /** `s.slice(a, b)` for `0 <= a, b <= |s|`: empty when `b <= a`. */
  function Slice(s: string, a: nat, b: nat): (r: string)
    requires a <= |s| && b <= |s|
    ensures a < b ==> r == s[a..b]
    ensures b <= a ==> r == ""
  {
    if a < b then s[a..b] else ""
  }

  /** `extractJson`: `None` is `null`. */
  function ExtractJson(text: string): (r: Option<string>)
    ensures r.None? <==> '{' !in text || '}' !in text
    ensures r.Some? && IndexOf(text, '{') < LastIndexOf(text, '}') ==>
              r.value == text[IndexOf(text, '{')..LastIndexOf(text, '}') + 1]
    ensures r.Some? && LastIndexOf(text, '}') < IndexOf(text, '{') ==> r.value == ""
    ensures r.Some? && r.value != "" ==> r.value[0] == '{' && r.value[|r.value| - 1] == '}'
  {
    var start := IndexOf(text, '{');
    var end := LastIndexOf(text, '}');
    if start == -1 || end == -1 then None
    else Some(Slice(text, start, end + 1))
  }

  /** Extracting again from an extraction changes nothing. */
  lemma ExtractJsonIdempotent(text: string)
    requires ExtractJson(text).Some? && ExtractJson(text).value != ""
    ensures ExtractJson(ExtractJson(text).value) == ExtractJson(text)
  {
    ExtractOfBraced(ExtractJson(text).value);
  }

  /** A text that opens with `{` and closes with `}` is its own extraction. */
  lemma ExtractOfBraced(e: string)
    requires e != [] && e[0] == '{' && e[|e| - 1] == '}'
    ensures ExtractJson(e) == Some(e)
  {
    assert IndexOf(e, '{') == 0;
    assert LastIndexOf(e, '}') == |e| - 1 by {
      assert e[|e|..] == [];
    }
    assert e[0..|e|] == e;
  }

  /** The cleaning block of the other routes and `extractJson` agree whenever
      the text has a `{` before its last `}`. */
  lemma CutAgreesWithExtract(text: string)
    requires '{' in text && IndexOf(text, '{') < LastIndexOf(text, '}')
    ensures ExtractJson(text) == Some(Cleaning.CutToBraces(text))
  {
    ExtractBetweenBraces(text);
    Cleaning.CutBetweenBraces(text);
  }

  lemma ExtractBetweenBraces(text: string)
    requires '{' in text && IndexOf(text, '{') < LastIndexOf(text, '}')
    ensures ExtractJson(text) == Some(text[IndexOf(text, '{')..LastIndexOf(text, '}') + 1])
  {
    assert LastIndexOf(text, '}') != -1;
  }

  /** A match of `/,(\s*[}\]])/` starts at position 0: a comma, spaces, then
      a closing brace or bracket. */
  predicate TrailingCommaAtStart(s: string) {
    s != [] && s[0] == ',' &&
    var n := SpaceRun(s[1..]);
    n + 1 < |s| && (s[n + 1] == '}' || s[n + 1] == ']')
  }

  /** `s.replace(/,(\s*[}\]])/g, "$1")`: one left-to-right pass that deletes
      each matched comma, keeps its spaces and closer, and resumes after the
      closer. */
  function StripTrailingCommas(s: string): (r: string)
    ensures |r| <= |s|
    decreases |s|
  {
    if s == [] then []
    else if TrailingCommaAtStart(s) then
      var n := SpaceRun(s[1..]);
      s[1..n + 2] + StripTrailingCommas(s[n + 2..])
    else [s[0]] + StripTrailingCommas(s[1..])
  }

  /** The regex read position by position: the character at a position is
      deleted exactly when it is a comma that a match starts with, and every
      other character is kept. */
  function DropTrailing(s: string): string
    decreases |s|
  {
    if s == [] then []
    else (if TrailingCommaAtStart(s) then [] else [s[0]]) + DropTrailing(s[1..])
  }

  /** The left-to-right pass deletes exactly the commas that start a match:
      resuming after the closer skips no match, since the skipped spaces and
      closer hold no comma. */
  lemma {:induction false} StripIsDrop(s: string)
    ensures StripTrailingCommas(s) == DropTrailing(s)
    decreases |s|
  {
    if s == [] {
    } else if TrailingCommaAtStart(s) {
      var n := SpaceRun(s[1..]);
      var m, t := s[1..n + 2], s[n + 2..];
      MatchHoldsNoComma(s);
      StripIsDrop(t);
      DropWithoutComma(m, t);
      assert s[1..] == m + t;
    } else {
      StripIsDrop(s[1..]);
    }
  }

  /** The spaces and the closer that a match keeps hold no comma. */
  lemma MatchHoldsNoComma(s: string)
    requires TrailingCommaAtStart(s)
    ensures ',' !in s[1..SpaceRun(s[1..]) + 2]
  {
    var n := SpaceRun(s[1..]);
    forall i | 1 <= i < n + 2 ensures s[i] != ',' {
      if i <= n {
        assert s[i] == s[1..][..n][i - 1];
      }
    }
  }

  /** Text with no comma in it is kept whole. */
  lemma {:induction false} DropWithoutComma(m: string, t: string)
    requires ',' !in m
    ensures DropTrailing(m + t) == m + DropTrailing(t)
    decreases |m|
  {
    if m == [] {
      assert m + t == t;
    } else {
      assert (m + t)[0] == m[0];
      assert (m + t)[1..] == m[1..] + t;
      DropWithoutComma(m[1..], t);
    }
  }

  /** The repair deletes commas and nothing else: with the commas taken out,
      its result and its input are the same text. */
  lemma {:induction false} StripTrailingCommasOnlyDeletesCommas(s: string)
    ensures WithoutCommas(StripTrailingCommas(s)) == WithoutCommas(s)
    decreases |s|
  {
    if s == [] {
    } else if TrailingCommaAtStart(s) {
      var n := SpaceRun(s[1..]);
      var mid, tail := s[1..n + 2], s[n + 2..];
      StripTrailingCommasOnlyDeletesCommas(tail);
      DeletedCommaStep(mid, tail, StripTrailingCommas(tail));
      assert StripTrailingCommas(s) == mid + StripTrailingCommas(tail);
      assert s == [','] + mid + tail;
    } else {
      var rest := s[1..];
      StripTrailingCommasOnlyDeletesCommas(rest);
      KeptCharStep(s[0], rest, StripTrailingCommas(rest));
      assert StripTrailingCommas(s) == [s[0]] + StripTrailingCommas(rest);
      assert s == [s[0]] + rest;
    }
  }

  lemma DeletedCommaStep(mid: string, tail: string, tail': string)
    requires WithoutCommas(tail') == WithoutCommas(tail)
    ensures WithoutCommas(mid + tail') == WithoutCommas([','] + mid + tail)
  {
    WithoutCommasAppend(mid, tail');
    assert [','] + mid + tail == [','] + (mid + tail);
    WithoutCommasAppend([','], mid + tail);
    WithoutCommasAppend(mid, tail);
  }

  lemma KeptCharStep(c: char, rest: string, rest': string)
    requires WithoutCommas(rest') == WithoutCommas(rest)
    ensures WithoutCommas([c] + rest') == WithoutCommas([c] + rest)
  {
    WithoutCommasAppend([c], rest');
    WithoutCommasAppend([c], rest);
  }

  /** The text with every comma taken out. */
  function WithoutCommas(s: string): string {
    if s == [] then [] else (if s[0] == ',' then [] else [s[0]]) + WithoutCommas(s[1..])
  }

  lemma {:induction false} WithoutCommasAppend(a: string, b: string)
    ensures WithoutCommas(a + b) == WithoutCommas(a) + WithoutCommas(b)
    decreases |a|
  {
    if a == [] {
      assert a + b == b;
    } else {
      assert (a + b)[1..] == a[1..] + b;
      WithoutCommasAppend(a[1..], b);
    }
  }

  /** A text without any trailing comma passes through unchanged. */
  lemma {:induction false} StripTrailingCommasNoMatch(s: string)
    requires forall i :: 0 <= i < |s| ==> !TrailingCommaAtStart(s[i..])
    ensures StripTrailingCommas(s) == s
    decreases |s|
  {
    if s != [] {
      assert s[0..] == s;
      forall i | 0 <= i < |s[1..]| ensures !TrailingCommaAtStart(s[1..][i..]) {
        assert s[1..][i..] == s[i + 1..];
      }
      StripTrailingCommasNoMatch(s[1..]);
    }
  }

  /** `k` commas in a row. */
  function Commas(k: nat): string {
    seq(k, _ => ',')
  }

  /** The pass is single: of a run of commas before a closer only the last is
      deleted, since a comma uncovered by a deletion is not looked at again. */
  lemma {:induction false} CommaRunKeepsAllButLast(k: nat, closer: char)
    requires closer == '}' || closer == ']'
    ensures StripTrailingCommas(Commas(k + 1) + [closer]) == Commas(k) + [closer]
    decreases k
  {
    var s := Commas(k + 1) + [closer];
    assert s[0] == ',';
    if k == 0 {
      assert s[1..] == [closer] && SpaceRun([closer]) == 0;
      assert TrailingCommaAtStart(s);
      assert s[1..2] == [closer] && s[2..] == [];
    } else {
      assert s[1] == ',' && SpaceRun(s[1..]) == 0;
      assert !TrailingCommaAtStart(s);
      assert s[1..] == Commas(k) + [closer];
      CommaRunKeepsAllButLast(k - 1, closer);
      assert [','] + Commas(k - 1) == Commas(k);
    }
  }

  /** `s.replace(/[targets]/g, with)` for a character class. */
  function ReplaceChars(s: string, targets: set<char>, with: char): (r: string)
    ensures |r| == |s|
    ensures forall i :: 0 <= i < |s| ==> r[i] == (if s[i] in targets then with else s[i])
  {
    seq(|s|, i requires 0 <= i < |s| => if s[i] in targets then with else s[i])
  }

  const LeftQuote: char := '\U{201C}'
  const RightQuote: char := '\U{201D}'

  /** The three repairs of `tryRepairJson`, in order. */
  function Repair(text: string): (r: string)
    ensures |r| == |StripTrailingCommas(text)|
    ensures forall i :: 0 <= i < |r| ==> r[i] != LeftQuote && r[i] != RightQuote && r[i] != '\''
    ensures forall i :: 0 <= i < |r| ==>
              var c := StripTrailingCommas(text)[i];
              r[i] == (if c == LeftQuote || c == RightQuote || c == '\'' then '"' else c)
  {
    var noCommas := StripTrailingCommas(text);
    var straight := ReplaceChars(noCommas, {LeftQuote, RightQuote}, '"');
    ReplaceChars(straight, {'\''}, '"')
  }

  /** The quote repair also rewrites apostrophes, including those inside
      string values ("don't" becomes "don"t"). */
  lemma ApostropheBecomesQuote(a: string, b: string)
    requires ',' !in a && ',' !in b
    ensures |Repair(a + "'" + b)| == |a| + 1 + |b|
    ensures Repair(a + "'" + b)[|a|] == '"'
  {
    var s := a + "'" + b;
    assert ',' !in s;
    StripTrailingCommasWithoutComma(s);
    assert s[|a|] == '\'';
  }

  lemma {:induction false} StripTrailingCommasWithoutComma(s: string)
    requires ',' !in s
    ensures StripTrailingCommas(s) == s
    decreases |s|
  {
    if s != [] {
      assert ',' !in s[1..];
      StripTrailingCommasWithoutComma(s[1..]);
    }
  }

  /** `tryRepairJson`: `None` is `null`; it never throws. */
  function TryRepairJson(text: string, parse: Parser): (r: Option<Value>)
    ensures parse(text).Some? ==> r == parse(text)
    ensures parse(text).None? ==> r == parse(Repair(text))
    ensures r.None? <==> parse(text).None? && parse(Repair(text)).None?
  {
    match parse(text)
    case Some(v) => Some(v)
    case None => parse(Repair(text))
  }

  /** The model text: `result[0]?.generated_text || result.generated_text ||
      result.text || ""` on a result that is not `null`. */
  function ModelText(result: Value): (r: Value)
    requires result != Null
    ensures Truthy(r) || r == Str("")
    ensures Present(ThenMember(First(result), "generated_text")) ==>
              r == ThenMember(First(result), "generated_text").value
    ensures !Present(ThenMember(First(result), "generated_text")) && Present(Member(result, "generated_text")) ==>
              r == Member(result, "generated_text").value
    ensures !Present(ThenMember(First(result), "generated_text")) && !Present(Member(result, "generated_text")) &&
            Present(Member(result, "text")) ==>
              r == Member(result, "text").value
    ensures r == Str("") <==>
              !Present(ThenMember(First(result), "generated_text")) && !Present(Member(result, "generated_text")) &&
              !Present(Member(result, "text"))
  {
    var first := ThenMember(First(result), "generated_text");
    if Present(first) then first.value
    else if Present(Member(result, "generated_text")) then Member(result, "generated_text").value
    else if Present(Member(result, "text")) then Member(result, "text").value
    else Str("")
  }

  /** HuggingFace's usual answer, `[{"generated_text": t}]`, yields `t`. */
  lemma ModelTextOfGeneration(t: string)
    requires t != ""
    ensures ModelText(Arr([Obj(map["generated_text" := Str(t)])])) == Str(t)
  {
  }

  /** The prompt: the fixed JSON-schema instructions, then the description. */
  function TriagePrompt(instructions: string, description: string): (r: string)
    ensures EndsWith(r, "\n\nTenant description:\n" + description + "\n")
  {
    "\n" + instructions + "\n\nTenant description:\n" + description + "\n"
  }

  /** What the HuggingFace endpoint answered: a non-2xx status with its body
      text, or a 2xx status with its JSON. */
  datatype HfReply =
    | HfFailure(status: nat, text: string)
    | HfSuccess(result: Value)

  /** The generation, when there is one, is text. */
  predicate TextualOutput(hf: HfReply) {
    hf.HfSuccess? && hf.result != Null ==> ModelText(hf.result).Str?
  }

  /** `POST` once the model has answered. None of its error replies sets a
      status, so every one of them goes out as HTTP 200. */
  function TriagePost(hf: HfReply, parse: Parser): (r: Reply)
    requires TextualOutput(hf)
    ensures r.Err? ==> r.status == 200
    ensures hf.HfFailure? ==> r == Err(200, "HF Error: " + Decimal(hf.status), map["details" := Str(hf.text)])
    ensures hf == HfSuccess(Null) ==> r == Err(200, "Server error", map["message" := Str(NullReadMessage("0"))])
    ensures hf.HfSuccess? && hf.result != Null ==>
              var text := ModelText(hf.result).s;
              var extracted := ExtractJson(text);
              && (extracted.None? || extracted.value == "" ==>
                    r == Err(200, "Could not extract JSON", map["raw" := Str(text)]))
              && (extracted.Some? && extracted.value != "" ==>
                    (r.Ok? <==> Present(TryRepairJson(extracted.value, parse))) &&
                    (r.Ok? ==> r.body == TryRepairJson(extracted.value, parse).value) &&
                    (r.Err? ==> r == Err(200, "Model returned broken JSON",
                                         map["extracted" := Str(extracted.value), "full" := Str(text)])))
  {
    match hf
    case HfFailure(status, text) => Err(200, "HF Error: " + Decimal(status), map["details" := Str(text)])
    case HfSuccess(result) =>
      if result == Null then Err(200, "Server error", map["message" := Str(NullReadMessage("0"))])
      else
        var text := ModelText(result).s;
        match ExtractJson(text)
        case None => Err(200, "Could not extract JSON", map["raw" := Str(text)])
        case Some(extracted) =>
          if extracted == "" then Err(200, "Could not extract JSON", map["raw" := Str(text)])
          else
            var repaired := TryRepairJson(extracted, parse);
            if !Present(repaired) then
              Err(200, "Model returned broken JSON", map["extracted" := Str(extracted), "full" := Str(text)])
            else Ok(repaired.value)
  }
}
