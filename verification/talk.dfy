/** A proposed conference talk, one row of the wiki table, and the text of the
    issue body it is rendered to. */
module Talks {
  import opened Wrappers
  import opened Lines

  /** The five columns of a row of the talk table. */
  datatype Talk = Talk(
    title: string,
    audience: string,
    format: string,
    suggestedBy: string,
    presenter: string)

  /** The labels that open the four attribution lines of the body. */
  const SuggestedByLabel: string := "Suggested by: "
  const PresenterLabel: string := "Presenter: "
  const FormatLabel: string := "Format: "
  const AudienceLabel: string := "Audience: "

  /** The issue body of a talk: its title, a blank line, then one labelled
      line each for who suggested it, who presents it, its format and its
      audience, in that order, with no newline after the last line. Every
      field is copied verbatim. */
  function Render(t: Talk): (body: string)
    ensures t.title <= body
    ensures |body| == |t.title| + |t.suggestedBy| + |t.presenter| + |t.format| + |t.audience| + 48
    ensures body[|body| - |t.audience|..] == t.audience
  {
    t.title + "\n" + "\n" + SuggestedByLabel + t.suggestedBy + "\n" + PresenterLabel + t.presenter
      + "\n" + FormatLabel + t.format + "\n" + AudienceLabel + t.audience
  }

  /** No field of the talk contains a line break. */
  predicate NoNewlines(t: Talk) {
    && '\n' !in t.title
    && '\n' !in t.audience
    && '\n' !in t.format
    && '\n' !in t.suggestedBy
    && '\n' !in t.presenter
  }

  /** The rest of `line` after `heading`, if `line` starts with it. */
  function StripLabel(heading: string, line: string): (rest: Option<string>)
    ensures rest.Some? <==> heading <= line
    ensures rest.Some? ==> line == heading + rest.value
  {
    if heading <= line then Some(line[|heading|..]) else None
  }

  /** Reads a talk back from an issue body: six lines, the second one empty and
      the last four starting with their labels in template order. */
  function ParseBody(body: string): (t: Option<Talk>)
    ensures t.Some? ==> NoNewlines(t.value)
  {
    var lines := Split(body, '\n');
    if |lines| != 6 || lines[1] != "" then None
    else
      match (StripLabel(SuggestedByLabel, lines[2]), StripLabel(PresenterLabel, lines[3]),
             StripLabel(FormatLabel, lines[4]), StripLabel(AudienceLabel, lines[5]))
      case (Some(suggestedBy), Some(presenter), Some(format), Some(audience)) =>
        assert lines[2] == SuggestedByLabel + suggestedBy;
        assert lines[3] == PresenterLabel + presenter;
        assert lines[4] == FormatLabel + format;
        assert lines[5] == AudienceLabel + audience;
        Some(Talk(lines[0], audience, format, suggestedBy, presenter))
      case _ => None
  }

  /** The six lines of a body: the title, an empty line and the four
      labelled attribution lines. */
  function BodyLines(t: Talk): seq<string> {
    [t.title, "", SuggestedByLabel + t.suggestedBy, PresenterLabel + t.presenter,
     FormatLabel + t.format, AudienceLabel + t.audience]
  }

  /** The six lines glued with line breaks, from the last line backwards. */
  function Stacked(ls: seq<string>): string
    requires |ls| == 6
  {
    ls[0] + "\n" + (ls[1] + "\n" + (ls[2] + "\n" + (ls[3] + "\n" + (ls[4] + "\n" + ls[5]))))
  }

  /** Six lines joined by line breaks, spelled out. */
  lemma JoinSix(ls: seq<string>)
    requires |ls| == 6
    ensures Join(ls, '\n') == Stacked(ls)
  {
    assert Join(ls[4..][1..], '\n') == ls[5] by { assert ls[4..][1..] == [ls[5]]; }
    JoinCons(ls[4..], '\n');
    assert ls[3..][1..] == ls[4..];
    JoinCons(ls[3..], '\n');
    assert ls[2..][1..] == ls[3..];
    JoinCons(ls[2..], '\n');
    assert ls[1..][1..] == ls[2..];
    JoinCons(ls[1..], '\n');
    JoinCons(ls, '\n');
  }

  /** The body is its six lines joined by line breaks. */
  lemma RenderIsJoin(t: Talk)
    ensures Render(t) == Join(BodyLines(t), '\n')
  {
    assert Render(t) == Stacked(BodyLines(t));
    JoinSix(BodyLines(t));
  }

  /** The body of a talk whose fields hold no line break is exactly six lines:
      the title, an empty line and the four labelled attribution lines. */
  lemma RenderLines(t: Talk)
    requires NoNewlines(t)
    ensures Split(Render(t), '\n') == BodyLines(t)
  {
    var ls := BodyLines(t);
    assert '\n' !in SuggestedByLabel && '\n' !in PresenterLabel;
    assert '\n' !in FormatLabel && '\n' !in AudienceLabel;
    forall k | 0 <= k < 6 ensures '\n' !in ls[k] {
    }
    RenderIsJoin(t);
    SplitJoin(ls, '\n');
  }

  /** Reading back the body of a talk whose fields hold no line break gives
      the talk. */
  lemma ParseRender(t: Talk)
    requires NoNewlines(t)
    ensures ParseBody(Render(t)) == Some(t)
  {
    RenderLines(t);
    var lines := Split(Render(t), '\n');
    assert lines[2][|SuggestedByLabel|..] == t.suggestedBy;
    assert lines[3][|PresenterLabel|..] == t.presenter;
    assert lines[4][|FormatLabel|..] == t.format;
    assert lines[5][|AudienceLabel|..] == t.audience;
  }

  /** Whatever a body reads back as renders to that same body. */
  lemma RenderParse(body: string)
    requires ParseBody(body).Some?
    ensures Render(ParseBody(body).value) == body
  {
    var lines := Split(body, '\n');
    var t := ParseBody(body).value;
    JoinSplit(body, '\n');
    assert lines == BodyLines(t);
    RenderIsJoin(t);
  }

  /** Talks whose fields hold no line break have distinct bodies. */
  lemma RenderInjective(t1: Talk, t2: Talk)
    requires NoNewlines(t1) && NoNewlines(t2)
    requires Render(t1) == Render(t2)
    ensures t1 == t2
  {
    ParseRender(t1);
    ParseRender(t2);
  }

  /** Without that restriction different talks can share a body: a line
      break in the audience can imitate the end of the format line, for any
      texts standing in for the fields. */
  lemma RenderAmbiguousWithNewlines(title: string, suggestedBy: string, presenter: string,
                                    format: string, x: string, y: string)
    ensures var t1 := Talk(title, x + "\n" + AudienceLabel + y, format, suggestedBy, presenter);
            var t2 := Talk(title, y, format + "\n" + AudienceLabel + x, suggestedBy, presenter);
            t1 != t2 && Render(t1) == Render(t2)
  {
    var t1 := Talk(title, x + "\n" + AudienceLabel + y, format, suggestedBy, presenter);
    var t2 := Talk(title, y, format + "\n" + AudienceLabel + x, suggestedBy, presenter);
    assert |t1.audience| != |t2.audience|;
    var front := title + "\n" + "\n" + SuggestedByLabel + suggestedBy + "\n" + PresenterLabel
      + presenter + "\n" + FormatLabel + format;
    assert Render(t1) == front + "\n" + AudienceLabel + x + "\n" + AudienceLabel + y;
    assert Render(t2) == front + "\n" + AudienceLabel + x + "\n" + AudienceLabel + y;
  }
}
