/** The dispatcher's checklist answers as the final-diagnosis and refine
    routes render them for the model (app/api/triage/final-diagnosis/route.ts:41-51,
    app/api/triage/refine/route.ts:32-41): one "Q: … / A: …" block per
    checklist question, in checklist order, blocks separated by a blank line. */
module Checklist {
  import opened Wrappers
  import opened Text

  /** A follow-up question of the triage checklist (its optional `reason`
      plays no part in the rendering). */
  datatype Question = Question(id: string, question: string)

  const Unknown: string := "Unknown / not provided"

  /** The sentinel the UI stores for "I don't know". */
  const DontKnow: string := "I_DONT_KNOW"

  /** `answers[id]`: `undefined` (None) when the question was not answered. */
  function Lookup(answers: map<string, string>, id: string): Option<string> {
    if id in answers then Some(answers[id]) else None
  }

  /** The answer as rendered: a missing, blank or "I_DONT_KNOW" answer reads
      "Unknown / not provided"; any other answer is rendered trimmed. The
      sentinel is compared before trimming, so a padded sentinel is kept. */
  function NormaliseAnswer(ans: Option<string>): (r: string)
    ensures r != "" && IsTrimmed(r)
    ensures ans.None? || AllSpace(ans.value) || ans.value == DontKnow ==> r == Unknown
    ensures ans.Some? && !AllSpace(ans.value) && ans.value != DontKnow ==> r == Trim(ans.value)
  {
    assert ans.Some? ==> (Trim(ans.value) == [] <==> AllSpace(ans.value)) by {
      if ans.Some? { TrimIsBlank(ans.value); }
    }
    if ans.None? || ans.value == "" || Trim(ans.value) == "" || ans.value == DontKnow then
      assert IsTrimmed(Unknown) by {
        assert Unknown[0] == 'U' && !IsSpace('U');
        assert Unknown[|Unknown| - 1] == 'd' && !IsSpace('d');
      }
      Unknown
    else Trim(ans.value)
  }

  /** " I_DONT_KNOW " is not the sentinel: it is trimmed and shown as an answer. */
  lemma PaddedSentinelIsAnAnswer()
    ensures NormaliseAnswer(Some(" " + DontKnow + " ")) == DontKnow
  {
    TrimOfPadded(" ", DontKnow, " ");
  }

  function QaBlock(q: Question, answers: map<string, string>): (r: string) {
    "Q: " + q.question + "\nA: " + NormaliseAnswer(Lookup(answers, q.id))
  }

  /** One block per question, in the checklist's order. */
  function QaBlocks(qs: seq<Question>, answers: map<string, string>): (r: seq<string>)
    ensures |r| == |qs|
    ensures forall i :: 0 <= i < |qs| ==> r[i] == QaBlock(qs[i], answers)
  {
    seq(|qs|, i requires 0 <= i < |qs| => QaBlock(qs[i], answers))
  }

  /** The joined Q&A text, before any fallback is applied. It is empty
      exactly when the checklist is: that is when the routes fall back to
      their "no Q&A" wording. */
  function QaText(qs: seq<Question>, answers: map<string, string>): (r: string)
    ensures r == "" <==> qs == []
  {
    var blocks := QaBlocks(qs, answers);
    JoinIsEmpty(blocks, "\n\n");
    assert |qs| == 1 ==> blocks[0][0] == 'Q';
    Join(blocks, "\n\n")
  }

  lemma QaTextOpens(qs: seq<Question>, answers: map<string, string>)
    requires qs != []
    ensures StartsWith(QaText(qs, answers), QaBlock(qs[0], answers))
    ensures QaText(qs, answers)[0] == 'Q'
  {
    if |qs| >= 2 {
      QaTextInOrder(qs, answers);
    }
  }

  /** The first question's block opens the text, followed by a blank line and
      the rest of the checklist in order. */
  lemma QaTextInOrder(qs: seq<Question>, answers: map<string, string>)
    requires |qs| >= 2
    ensures QaText(qs, answers) == QaBlock(qs[0], answers) + "\n\n" + QaText(qs[1..], answers)
  {
    assert QaBlocks(qs, answers)[1..] == QaBlocks(qs[1..], answers);
  }
}
