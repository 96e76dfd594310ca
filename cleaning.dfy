/** The cleaning block that the final-diagnosis, pricing and pricing-consultant
    routes share (app/api/triage/final-diagnosis/route.ts:170-194,
    app/api/triage/pricing/route.ts:150-175, app/api/vision/analyze/route.ts:176-203):
    parse the model's text; only if that throws, delete code fences, trim, cut
    the text to its braces and parse once more. */
module Cleaning {
  import opened Wrappers
  import opened Text
  import opened Json
  import opened Replies

  /** Three backticks start at position `i`. */
  predicate FenceAt(s: string, i: int) {
    0 <= i && i + 3 <= |s| && s[i] == '`' && s[i + 1] == '`' && s[i + 2] == '`'
  }

  predicate NoFence(s: string) {
    forall i :: 0 <= i < |s| ==> !FenceAt(s, i)
  }

  /** "```json", its letters in either case, starts at position `i`. */
  predicate JsonFenceAt(s: string, i: int) {
    && FenceAt(s, i) && i + 7 <= |s|
    && LowerChar(s[i + 3]) == 'j' && LowerChar(s[i + 4]) == 's'
    && LowerChar(s[i + 5]) == 'o' && LowerChar(s[i + 6]) == 'n'
  }

  /** `s.replace(/```json/gi, "")`: a left-to-right scan that deletes each
      match and resumes after it. */
  function StripJsonFences(s: string): (r: string)
    ensures |r| <= |s|
    decreases |s|
  {
    if s == [] then []
    else if JsonFenceAt(s, 0) then StripJsonFences(s[7..])
    else [s[0]] + StripJsonFences(s[1..])
  }

  /** `s.replace(/```/g, "")`. No three backticks survive it, even where a
      deletion brings backticks from both sides together. */
  function StripFences(s: string): (r: string)
    ensures |r| <= |s|
    ensures s != [] && !FenceAt(s, 0) ==> r != [] && r[0] == s[0]
    ensures NoFence(r)
    decreases |s|
  {
    if s == [] then []
    else if FenceAt(s, 0) then StripFences(s[3..])
    else
      var rest := StripFences(s[1..]);
      var r := [s[0]] + rest;
      assert !FenceAt(r, 0) by {
        if s[0] == '`' && |s| > 1 && s[1] == '`' {
          assert !FenceAt(s[1..], 0);
          if |s| > 2 {
            assert s[2] != '`';
            assert !FenceAt(s[2..], 0);
            assert rest == [s[1]] + StripFences(s[2..]);
          }
        }
      }
      assert forall i :: 1 <= i < |r| ==> (FenceAt(r, i) ==> FenceAt(rest, i - 1));
      r
  }

  /** A match at position `i` of the tail is a match at `i + 1` of the text. */
  lemma FencesOfTail(s: string, i: int)
    requires s != [] && 0 <= i
    ensures FenceAt(s[1..], i) ==> FenceAt(s, i + 1)
    ensures JsonFenceAt(s[1..], i) ==> JsonFenceAt(s, i + 1)
  {
    assert forall k | 0 <= k < |s| - 1 :: s[1..][k] == s[k + 1];
  }

  /** A scan that finds no "```json" match starting inside `x` copies `x`
      unchanged; other fences ("```", "```python") in `x` are kept. */
  lemma {:induction false} StripJsonFencesKeeps(x: string, y: string)
    requires forall i :: 0 <= i < |x| ==> !JsonFenceAt(x + y, i)
    ensures StripJsonFences(x + y) == x + StripJsonFences(y)
    decreases |x|
  {
    if x != [] {
      assert !JsonFenceAt(x + y, 0);
      assert (x + y)[1..] == x[1..] + y;
      forall i | 0 <= i < |x[1..]| ensures !JsonFenceAt(x[1..] + y, i) {
        FencesOfTail(x + y, i);
      }
      StripJsonFencesKeeps(x[1..], y);
    } else {
      assert x + y == y;
    }
  }

  /** Each "```json" is deleted whatever the case of its letters ("```JSON",
      "```Json", …), and the scan goes on after it. */
  lemma StripJsonFenceAnyCase(x: string, tag: string, y: string)
    requires JsonTag(tag)
    requires forall i :: 0 <= i < |x| ==> !JsonFenceAt(x + "```" + tag + y, i)
    ensures StripJsonFences(x + "```" + tag + y) == x + StripJsonFences(y)
  {
    var w := "```" + tag + y;
    assert x + "```" + tag + y == x + w;
    StripJsonFencesKeeps(x, w);
    assert JsonFenceAt(w, 0) by {
      assert w[3..7] == tag;
      assert ToLower(tag)[0] == LowerChar(tag[0]) && ToLower(tag)[1] == LowerChar(tag[1]);
      assert ToLower(tag)[2] == LowerChar(tag[2]) && ToLower(tag)[3] == LowerChar(tag[3]);
    }
    assert w[7..] == y;
  }

  /** Each "```" is deleted, and the scan goes on after it: an untagged
      fence comes out like a tagged one. */
  lemma StripFencesDeletes(x: string, y: string)
    requires forall i :: 0 <= i < |x| ==> !FenceAt(x + "```" + y, i)
    ensures StripFences(x + "```" + y) == x + StripFences(y)
  {
    var w := "```" + y;
    assert x + "```" + y == x + w;
    StripFencesKeeps(x, w);
    assert FenceAt(w, 0);
    assert w[3..] == y;
  }

  lemma {:induction false} StripFencesKeeps(x: string, y: string)
    requires forall i :: 0 <= i < |x| ==> !FenceAt(x + y, i)
    ensures StripFences(x + y) == x + StripFences(y)
    decreases |x|
  {
    if x != [] {
      assert !FenceAt(x + y, 0);
      assert (x + y)[1..] == x[1..] + y;
      forall i | 0 <= i < |x[1..]| ensures !FenceAt(x[1..] + y, i) {
        FencesOfTail(x + y, i);
      }
      assert StripFences(x + y) == [x[0]] + StripFences(x[1..] + y);
      StripFencesKeeps(x[1..], y);
      assert [x[0]] + x[1..] == x;
    } else {
      assert x + y == y;
    }
  }

  /** The text after both fence deletions and `trim()`. */
  function Unfenced(raw: string): (r: string)
    ensures NoFence(r) && IsTrimmed(r)
  {
    var u := StripFences(StripJsonFences(raw));
    TrimIsInfix(u);
    InfixOfUnfenced(Trim(u), u);
    Trim(u)
  }

  /** `if (firstBrace > 0) cleaned = cleaned.slice(firstBrace)`. */
  function FromFirstBrace(t: string): (r: string)
    ensures '{' in t ==> r == t[IndexOf(t, '{')..]
    ensures '{' !in t ==> r == t
  {
    var f := IndexOf(t, '{');
    if f > 0 then t[f..] else t
  }

  /** `if (lastBrace > 0) cleaned = cleaned.slice(0, lastBrace + 1)`. */
  function ToLastBrace(t: string): (r: string)
    ensures LastIndexOf(t, '}') > 0 ==> r == t[..LastIndexOf(t, '}') + 1]
    ensures LastIndexOf(t, '}') <= 0 ==> r == t
  {
    var l := LastIndexOf(t, '}');
    if l > 0 then t[..l + 1] else t
  }

  /** The brace cut: the text from its first `{` through the last `}` after
      it (see `CutBetweenBraces`); a text with no `{` is cut only after its
      last `}`, and a `}` at position 0 cuts nothing. */
  function CutToBraces(t: string): (r: string)
    ensures '{' in t ==> r != [] && r[0] == '{'
    ensures '{' !in t && '}' !in t ==> r == t
  {
    ToLastBrace(FromFirstBrace(t))
  }

  /** The cut is one contiguous block of the text. */
  lemma CutIsInfix(t: string)
    ensures IsInfix(CutToBraces(t), t)
  {
    var t1 := FromFirstBrace(t);
    var r := ToLastBrace(t1);
    var start := if '{' in t then IndexOf(t, '{') else 0;
    assert t1 == t[start..];
    var l := LastIndexOf(t1, '}');
    if l > 0 {
      SliceOfSuffix(t, start, start + l + 1);
      assert r == t[start..start + l + 1];
    } else {
      assert r == t[start..|t|];
    }
  }

  /** When the last `}` comes after the first `{`, the cut is exactly the
      text between them. */
  lemma CutBetweenBraces(t: string)
    requires '{' in t && LastIndexOf(t, '}') > IndexOf(t, '{')
    ensures CutToBraces(t) == t[IndexOf(t, '{')..LastIndexOf(t, '}') + 1]
  {
    var start := IndexOf(t, '{');
    assert FromFirstBrace(t) == t[start..];
    ToLastBraceOfSuffix(t, start, LastIndexOf(t, '}'));
  }

  lemma ToLastBraceOfSuffix(t: string, start: nat, l: nat)
    requires start < l == LastIndexOf(t, '}')
    ensures ToLastBrace(t[start..]) == t[start..l + 1]
  {
    var t1 := t[start..];
    LastIndexOfSuffix(t, '}', start);
    assert ToLastBrace(t1) == t1[..l - start + 1];
    SliceOfSuffix(t, start, l + 1);
  }

  lemma SliceOfSuffix(t: string, a: nat, b: nat)
    requires a <= b <= |t|
    ensures t[a..][..b - a] == t[a..b]
  {
  }

  lemma LastIndexOfSuffix(t: string, c: char, k: nat)
    requires k <= |t| && LastIndexOf(t, c) >= k
    ensures LastIndexOf(t[k..], c) == LastIndexOf(t, c) - k
  {
    var l := LastIndexOf(t, c);
    var l' := LastIndexOf(t[k..], c);
    assert t[k..][l - k] == c;
    assert t[k + l'] == c;
  }

  /** The text the second `JSON.parse` sees. */
  function Clean(raw: string): (r: string)
    ensures NoFence(r)
    ensures IsInfix(r, Unfenced(raw))
    ensures '{' in Unfenced(raw) ==> r != [] && r[0] == '{'
  {
    var u := Unfenced(raw);
    var r := CutToBraces(u);
    CutIsInfix(u);
    InfixOfUnfenced(r, u);
    r
  }

  lemma InfixOfUnfenced(r: string, u: string)
    requires IsInfix(r, u) && NoFence(u)
    ensures NoFence(r)
  {
    var i, j :| 0 <= i <= j <= |u| && r == u[i..j];
    forall k | 0 <= k < |r| ensures !FenceAt(r, k) {
      assert !FenceAt(u, i + k);
    }
  }

  /** A language tag that spells "json" in any case. */
  predicate JsonTag(tag: string) {
    |tag| == 4 && ToLower(tag) == "json"
  }

  /** The wrapper a model puts around its JSON despite being told not to,
      with its language tag written `tag` ("json", "JSON", …). */
  function Fenced(tag: string, j: string): string {
    "```" + tag + "\n" + j + "\n```"
  }

  /** A JSON object text inside a "```json" fence, the tag in any case,
      cleans back to itself. */
  lemma CleanFenced(tag: string, j: string)
    requires JsonTag(tag)
    requires |j| >= 2 && j[0] == '{' && j[|j| - 1] == '}' && NoFence(j)
    ensures Clean(Fenced(tag, j)) == j
  {
    UnfencedFenced(tag, j);
    assert IndexOf(j, '{') == 0;
    assert LastIndexOf(j, '}') == |j| - 1;
    CutBetweenBraces(j);
    assert j[0..|j|] == j;
  }

  lemma UnfencedFenced(tag: string, j: string)
    requires JsonTag(tag)
    requires |j| >= 2 && j[0] == '{' && j[|j| - 1] == '}' && NoFence(j)
    ensures Unfenced(Fenced(tag, j)) == j
  {
    StripJsonOfFenced(tag, j);
    StripFencesOfBody(j);
    TrimOfPadded("\n", j, "\n");
  }

  /** The fence's inside, with the closing fence after it, holds no three
      backticks starting before the closing fence. */
  lemma FenceFreeInside(j: string)
    requires |j| >= 2 && j[0] == '{' && j[|j| - 1] == '}' && NoFence(j)
    ensures forall i :: 0 <= i < |"\n" + j + "\n"| ==> !FenceAt("\n" + j + "\n" + "```", i)
  {
    var x := "\n" + j + "\n";
    forall i | 0 <= i < |x| ensures !FenceAt(x + "```", i) {
      if 1 <= i <= |j| - 2 {
        assert (x + "```")[i + 1] == j[i];
        assert !FenceAt(j, i - 1) || i - 1 > |j| - 3;
      }
    }
  }

  lemma StripJsonOfFenced(tag: string, j: string)
    requires JsonTag(tag)
    requires |j| >= 2 && j[0] == '{' && j[|j| - 1] == '}' && NoFence(j)
    ensures StripJsonFences(Fenced(tag, j)) == "\n" + j + "\n" + "```"
  {
    var x := "\n" + j + "\n";
    assert Fenced(tag, j) == [] + "```" + tag + (x + "```");
    StripJsonFenceAnyCase([], tag, x + "```");
    FenceFreeInside(j);
    StripJsonFencesKeeps(x, "```");
    assert StripJsonFences("```") == "```" by {
      assert StripJsonFences("```") == "`" + StripJsonFences("``");
      assert StripJsonFences("``") == "`" + StripJsonFences("`");
      assert StripJsonFences("`") == "`" + StripJsonFences("");
    }
  }

  lemma StripFencesOfBody(j: string)
    requires |j| >= 2 && j[0] == '{' && j[|j| - 1] == '}' && NoFence(j)
    ensures StripFences("\n" + j + "\n" + "```") == "\n" + j + "\n"
  {
    var x := "\n" + j + "\n";
    FenceFreeInside(j);
    StripFencesKeeps(x, "```");
    assert StripFences("```") == "" by {
      assert FenceAt("```", 0);
      assert "```"[3..] == "";
    }
    assert x + "" == x;
  }

  /** Outcome of "parse, else clean and parse again". */
  datatype Recovered =
    | Parsed(value: Value)
    | Unparsable(original: string, cleaned: string)

  /** The direct parse wins whenever it succeeds; cleaning runs only after it
      throws, and a second failure reports the raw and the cleaned text. */
  function ParseOrClean(raw: string, parse: Parser): (r: Recovered)
    ensures parse(raw).Some? ==> r == Parsed(parse(raw).value)
    ensures parse(raw).None? && parse(Clean(raw)).Some? ==> r == Parsed(parse(Clean(raw)).value)
    ensures r.Unparsable? <==> parse(raw).None? && parse(Clean(raw)).None?
    ensures r.Unparsable? ==> r.original == raw && r.cleaned == Clean(raw) && NoFence(r.cleaned)
  {
    match parse(raw)
    case Some(v) => Parsed(v)
    case None =>
      var cleaned := Clean(raw);
      match parse(cleaned)
      case Some(v) => Parsed(v)
      case None => Unparsable(raw, cleaned)
  }

  /** A model that wraps a parsable object text in a fence still gets that
      object through, whether or not the fenced text itself parses. */
  lemma FencedObjectRecovered(tag: string, j: string, parse: Parser)
    requires JsonTag(tag)
    requires |j| >= 2 && j[0] == '{' && j[|j| - 1] == '}' && NoFence(j)
    requires parse(j).Some?
    ensures ParseOrClean(Fenced(tag, j), parse).Parsed?
    ensures parse(Fenced(tag, j)).None? ==> ParseOrClean(Fenced(tag, j), parse) == Parsed(parse(j).value)
  {
    CleanFenced(tag, j);
  }

  /** The chat handlers' reply once the provider has answered (final-diagnosis
      and pricing routes): empty content is a 500 before any parsing; a
      `null` provider body makes `data.choices` throw into the route's catch. */
  function CleanedChatReply(data: Value, parse: Parser, serverError: string): (r: Reply)
    requires ChatShaped(data)
    ensures data == Null ==> r == Err(500, serverError, map["details" := Str(NullReadMessage("choices"))])
    ensures data != Null && ContentText(data) == "" ==> r == Err(500, "Invalid AI response", map["details" := data])
    ensures r.Ok? <==> data != Null && ContentText(data) != "" && ParseOrClean(ContentText(data), parse).Parsed?
    ensures r.Ok? ==> r.body == ParseOrClean(ContentText(data), parse).value
    ensures data != Null && ContentText(data) != "" && ParseOrClean(ContentText(data), parse).Unparsable? ==>
              r == Err(500, "Invalid JSON from AI after cleaning",
                       map["raw_original" := Str(ContentText(data)), "raw_cleaned" := Str(Clean(ContentText(data)))])
  {
    if data == Null then Err(500, serverError, map["details" := Str(NullReadMessage("choices"))])
    else
      var raw := ContentText(data);
      if raw == "" then Err(500, "Invalid AI response", map["details" := data])
      else
        match ParseOrClean(raw, parse)
        case Parsed(v) => Ok(v)
        case Unparsable(o, c) =>
          Err(500, "Invalid JSON from AI after cleaning", map["raw_original" := Str(o), "raw_cleaned" := Str(c)])
  }
}
