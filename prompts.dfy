/** The shape of the user messages the routes assemble: headed sections
    ("HEADING:" on a line of its own, then the text) separated by blank lines. */
module Prompts {
  import opened Text

  datatype Section = Section(heading: string, body: string)

  function Render(s: Section): string {
    s.heading + ":\n" + s.body
  }

  /** The sections in order, a blank line between two of them. */
  function Sections(ss: seq<Section>): (r: string)
    decreases |ss|
  {
    if ss == [] then ""
    else if |ss| == 1 then Render(ss[0])
    else Render(ss[0]) + "\n\n" + Sections(ss[1..])
  }

  /** Rendering puts the first heading at the very start and the last
      section's text at the very end. */
  lemma {:induction false} SectionsEnds(ss: seq<Section>)
    requires ss != []
    ensures StartsWith(Sections(ss), ss[0].heading + ":\n")
    ensures EndsWith(Sections(ss), ss[|ss| - 1].body)
    decreases |ss|
  {
    if |ss| > 1 {
      SectionsEnds(ss[1..]);
      var rest := Sections(ss[1..]);
      var b := ss[|ss| - 1].body;
      assert Sections(ss) == Render(ss[0]) + "\n\n" + rest;
      assert Sections(ss)[|Sections(ss)| - |b|..] == rest[|rest| - |b|..];
    }
  }

  /** Appending a section adds a blank line and that section. */
  lemma {:induction false} SectionsSnoc(ss: seq<Section>, s: Section)
    requires ss != []
    ensures Sections(ss + [s]) == Sections(ss) + "\n\n" + Render(s)
    decreases |ss|
  {
    if |ss| == 1 {
      assert ss + [s] == [ss[0], s];
    } else {
      var t := ss + [s];
      assert t[1..] == ss[1..] + [s];
      SectionsSnoc(ss[1..], s);
      var a, b, c := Render(ss[0]), Sections(ss[1..]), Render(s);
      assert Sections(t) == a + "\n\n" + (b + "\n\n" + c);
      assert Sections(ss) == a + "\n\n" + b;
    }
  }

  /** Everything the sections render to before the last section's text. */
  function LeadIn(front: seq<Section>, heading: string): string {
    Sections(front) + "\n\n" + heading + ":\n"
  }

  lemma SectionsLast(front: seq<Section>, last: Section)
    requires front != [] && front[0].heading != []
    ensures Sections(front + [last]) == LeadIn(front, last.heading) + last.body
    ensures LeadIn(front, last.heading)[0] == front[0].heading[0]
  {
    SectionsSnoc(front, last);
    SectionsEnds(front);
  }

  /** Trimming the rendered sections between line breaks takes only the
      trailing spaces of the last section's text, when that text is not blank. */
  lemma TrimSections(front: seq<Section>, last: Section)
    requires front != [] && front[0].heading != [] && !IsSpace(front[0].heading[0])
    requires !AllSpace(last.body)
    ensures Trim("\n" + Sections(front + [last]) + "\n") ==
            Sections(front + [Section(last.heading, TrimEnd(last.body))])
  {
    SectionsLast(front, last);
    SectionsLast(front, Section(last.heading, TrimEnd(last.body)));
    TrimAfterHeadingLine(Sections(front + [last]), LeadIn(front, last.heading), last.body);
  }

  /** The same when the last section's text is already trimmed: the trim
      then changes nothing. */
  lemma TrimSectionsTrimmed(front: seq<Section>, last: Section)
    requires front != [] && front[0].heading != [] && !IsSpace(front[0].heading[0])
    requires last.body != [] && IsTrimmed(last.body)
    ensures Trim("\n" + Sections(front + [last]) + "\n") == Sections(front + [last])
  {
    var b := last.body;
    assert !AllSpace(b) by {
      assert !IsSpace(b[0]);
    }
    TrimSections(front, last);
    TrimEndOfSpaces(b, "");
    assert b + "" == b;
    assert Section(last.heading, TrimEnd(b)) == last;
  }

  /** Lines of text, one after the other. */
  function Lines(ls: seq<string>): string {
    Join(ls, "\n")
  }

  /** Trimming lines between line breaks takes only the trailing spaces of
      the last line, when that line is not blank. */
  lemma TrimLines(front: seq<string>, last: string)
    requires front != [] && front[0] != [] && !IsSpace(front[0][0])
    requires !AllSpace(last)
    ensures Trim("\n" + Lines(front + [last]) + "\n") == Lines(front + [TrimEnd(last)])
  {
    JoinSnoc(front, last, "\n");
    JoinSnoc(front, TrimEnd(last), "\n");
    var h := Lines(front) + "\n";
    assert h[0] == front[0][0];
    TrimAfterHeadingLine(Lines(front + [last]), h, last);
  }
}
