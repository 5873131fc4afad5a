/**
  Personalising the template's README: the first mention of the template's
  name becomes the project name, and every line that introduces the template
  ("Template project ...") is removed.
*/
module Readme {
  import opened JsString

  /** The template repository's name, as it appears in its README. */
  const TemplateName: string := "uix-starter"

  /** The phrase that starts the template-only lines of the README. */
  const Marker: string := "Template project"

  const Newline: char := '\n'

  /** A line that only makes sense in the template itself. */
  predicate IsTemplateLine(line: string)
  {
    StartsWith(line, Marker)
  }

  /**
    The line filter: the kept lines are exactly the input lines that are not
    template lines.
  */
  function KeepLines(lines: seq<string>): (r: seq<string>)
    ensures forall k :: 0 <= k < |r| ==> !IsTemplateLine(r[k])
    ensures forall k :: 0 <= k < |r| ==> r[k] in lines
    ensures forall k :: 0 <= k < |lines| && !IsTemplateLine(lines[k]) ==> lines[k] in r
    ensures |r| <= |lines|
  {
    if |lines| == 0 then []
    else if IsTemplateLine(lines[0]) then KeepLines(lines[1..])
    else [lines[0]] + KeepLines(lines[1..])
  }

  /** Filtering never duplicates a line: the kept lines are a sub-multiset of the input. */
  lemma {:induction false} KeepLinesSubMultiset(lines: seq<string>)
    ensures multiset(KeepLines(lines)) <= multiset(lines)
  {
    if |lines| > 0 {
      KeepLinesSubMultiset(lines[1..]);
      assert lines == [lines[0]] + lines[1..];
    }
  }

  /** A single line is kept exactly when it is not a template line. */
  lemma KeepLinesSingle(line: string)
    ensures KeepLines([line]) == if IsTemplateLine(line) then [] else [line]
  {
  }

  /** Filtering works line by line, so it keeps the lines' relative order. */
  lemma {:induction false} KeepLinesAppend(a: seq<string>, b: seq<string>)
    ensures KeepLines(a + b) == KeepLines(a) + KeepLines(b)
  {
    if |a| > 0 {
      KeepLinesAppend(a[1..], b);
      assert (a + b)[0] == a[0];
      assert (a + b)[1..] == a[1..] + b;
      if IsTemplateLine(a[0]) {
        assert KeepLines(a + b) == KeepLines(a[1..] + b);
        assert KeepLines(a) == KeepLines(a[1..]);
      } else {
        assert KeepLines(a + b) == [a[0]] + KeepLines(a[1..] + b);
        assert KeepLines(a) == [a[0]] + KeepLines(a[1..]);
      }
    } else {
      assert a + b == b;
    }
  }

  /** Without template lines nothing is dropped. */
  lemma {:induction false} KeepLinesNone(lines: seq<string>)
    requires forall k :: 0 <= k < |lines| ==> !IsTemplateLine(lines[k])
    ensures KeepLines(lines) == lines
  {
    if |lines| > 0 {
      KeepLinesNone(lines[1..]);
      assert [lines[0]] + lines[1..] == lines;
    }
  }

  /** The lines of a text, in JavaScript's `split("\n")` sense. */
  function Lines(text: string): seq<string>
  {
    Split(text, Newline)
  }

  /** Split into lines, drop the template lines, join again. */
  function StripTemplateLines(text: string): string
  {
    Join(KeepLines(Lines(text)), Newline)
  }

  /** The README text that the script writes back: the first mention of the
      template replaced by the project name, then the template lines stripped. */
  function Personalize(readme: string, projectName: string): string
  {
    StripTemplateLines(ReplaceFirst(readme, TemplateName, projectName))
  }

  /**
    The lines of the stripped text are exactly the text's lines that are not
    template lines, in their order; with every line dropped the text is empty,
    which is the one line "".
  */
  lemma StripTemplateLinesLines(text: string)
    ensures var kept := KeepLines(Lines(text));
      Lines(StripTemplateLines(text)) == if kept == [] then [""] else kept
  {
    var kept := KeepLines(Lines(text));
    if kept != [] {
      SplitJoin(kept, Newline);
    }
  }

  /** No line of the stripped text is a template line. */
  lemma NoTemplateLineLeft(text: string)
    ensures forall k :: 0 <= k < |Lines(StripTemplateLines(text))| ==>
      !IsTemplateLine(Lines(StripTemplateLines(text))[k])
  {
    StripTemplateLinesLines(text);
    assert !IsTemplateLine("");
  }

  /** A text without template lines is written back unchanged. */
  lemma StripWithoutTemplateLines(text: string)
    requires forall k :: 0 <= k < |Lines(text)| ==> !IsTemplateLine(Lines(text)[k])
    ensures StripTemplateLines(text) == text
  {
    KeepLinesNone(Lines(text));
    JoinSplit(text, Newline);
  }

  /** Stripping the template lines a second time changes nothing. */
  lemma StripIdempotent(text: string)
    ensures StripTemplateLines(StripTemplateLines(text)) == StripTemplateLines(text)
  {
    NoTemplateLineLeft(text);
    StripWithoutTemplateLines(StripTemplateLines(text));
  }

  /** No line of the personalised README is a template line. */
  lemma PersonalizeNoTemplateLine(readme: string, projectName: string)
    ensures forall k :: 0 <= k < |Lines(Personalize(readme, projectName))| ==>
      !IsTemplateLine(Lines(Personalize(readme, projectName))[k])
  {
    NoTemplateLineLeft(ReplaceFirst(readme, TemplateName, projectName));
  }

  /**
    With a project name free of `$`, the personalised README is the original
    with its first "uix-starter" replaced by the name, minus the template
    lines; a README without "uix-starter" is only stripped.
  */
  lemma PersonalizeLiteral(readme: string, projectName: string, i: nat)
    requires '$' !in projectName
    requires IsFirstOccurrence(readme, TemplateName, i)
    ensures Personalize(readme, projectName)
      == StripTemplateLines(readme[..i] + projectName + readme[i + |TemplateName|..])
  {
    ReplaceFirstLiteral(readme, TemplateName, projectName, i);
  }

  /** A README that never names the template is only stripped. */
  lemma PersonalizeWithoutTemplateName(readme: string, projectName: string)
    requires Absent(readme, TemplateName)
    ensures Personalize(readme, projectName) == StripTemplateLines(readme)
  {
  }

  /**
    JavaScript's replacement patterns reach the README: a project named
    "$&" leaves "uix-starter" in place.
  */
  lemma PersonalizeDollarAmpersand(readme: string)
    ensures Personalize(readme, "$&") == StripTemplateLines(readme)
  {
    match IndexOf(readme, TemplateName)
    case None =>
    case Some(i) =>
      var before, after := readme[..i], readme[i + |TemplateName|..];
      SubstitutionMatched(TemplateName, before, after);
      assert readme[i..i + |TemplateName|] == TemplateName;
      assert before + TemplateName + after == readme;
  }
}
