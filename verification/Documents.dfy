/** From a document's text to its chunks (split_sections, chunk_document). */
module Documents {
  import opened Collections
  import opened Options
  import opened Text
  import opened Tokens
  import opened Chunker
  import opened Packing

  // ----- Lines and headings -----

  /** `text.split("\n")` */
  function Lines(s: string): (lines: seq<string>)
    ensures lines != []
  {
    if s == "" then [""]
    else
      var rest := Lines(s[1..]);
      if s[0] == '\n' then [""] + rest else [[s[0]] + rest[0]] + rest[1..]
  }

  /** The length of the leading run of one character, counted up to a limit. */
  function Run(s: string, c: char, limit: nat): (n: nat)
    ensures n <= |s| && n <= limit
  {
    if limit == 0 || s == "" || s[0] != c then 0 else 1 + Run(s[1..], c, limit - 1)
  }

  /** Up to three blanks and then three back-ticks or tildes. */
  predicate Fence(line: string) {
    var rest := line[Run(line, ' ', 3)..];
    "```" <= rest || "~~~" <= rest
  }

  predicate AllOf(s: string, c: char) {
    forall i :: 0 <= i < |s| ==> s[i] == c
  }

  ghost predicate FencedBehind(line: string, n: nat) {
    n <= 3 && n <= |line| && AllOf(line[..n], ' ') && ("```" <= line[n..] || "~~~" <= line[n..])
  }

  /** A line is a fence exactly when its marks stand behind at most three blanks. */
  lemma {:induction false} FencesAreRead(line: string)
    ensures Fence(line) <==> exists n: nat :: FencedBehind(line, n)
  {
    RunIsOf(line, ' ', 3);
    if Fence(line) {
      assert FencedBehind(line, Run(line, ' ', 3));
    }
    if n: nat :| FencedBehind(line, n) {
      assert line == line[..n] + line[n..] && line[n..][0] != ' ';
      RunOf(line[..n], line[n..], ' ', 3);
    }
  }

  /** The lines hold no line break, and joined by line breaks they are the text. */
  lemma {:induction false} LinesAreTheText(s: string)
    ensures Join(Lines(s), "\n") == s && forall i :: 0 <= i < |Lines(s)| ==> '\n' !in Lines(s)[i]
  {
    if s != "" {
      var rest := Lines(s[1..]);
      LinesAreTheText(s[1..]);
      if s[0] == '\n' {
        JoinBehind("", rest, "\n");
        assert s == "" + ("\n" + s[1..]);
      } else {
        JoinStartingWith(s[0], rest, "\n");
      }
    }
  }

  lemma {:induction false} FourTexts(x: string, separator: string, before: string, last: string)
    ensures (x + (separator + before)) + separator + last == x + (separator + (before + separator + last))
  {
  }

  lemma {:induction false} JoinBehind(x: string, rest: seq<string>, separator: string)
    requires rest != []
    ensures Join([x] + rest, separator) == x + (separator + Join(rest, separator))
  {
    var all, n := [x] + rest, |rest| - 1;
    assert all[..|all| - 1] == [x] + rest[..n];
    if n == 0 {
      assert all[..1] == [x];
      assert Join(all, separator) == Join([x], separator) + separator + rest[0];
    } else {
      var before := Join(rest[..n], separator);
      JoinBehind(x, rest[..n], separator);
      assert Join(all, separator) == (x + (separator + before)) + separator + rest[n];
      FourTexts(x, separator, before, rest[n]);
    }
  }

  lemma {:induction false} JoinStartingWith(c: char, lines: seq<string>, separator: string)
    requires lines != []
    ensures Join([[c] + lines[0]] + lines[1..], separator) == [c] + Join(lines, separator)
  {
    var all := [[c] + lines[0]] + lines[1..];
    if |lines| > 1 {
      var n := |lines| - 1;
      assert all[..n] == [[c] + lines[..n][0]] + lines[..n][1..];
      JoinStartingWith(c, lines[..n], separator);
      assert Join(all, separator) == Join(all[..n], separator) + separator + lines[n];
    }
  }

  function DropTrailing(s: string, c: char): (r: string)
    ensures r <= s
  {
    if s != "" && s[|s| - 1] == c then DropTrailing(s[..|s| - 1], c) else s
  }

  function StripEnd(s: string, al: Alphabet): string { s[..SolidEnd(s, |s|, al.space)] }

  /**
    * The title of a heading line: up to three blanks, one to six '#', whitespace, the title, and optional closing
    * '#'s. None for any other line, and for a heading without a title.
    */
  function Heading(line: string, al: Alphabet): Option<string> {
    var indented := line[Run(line, ' ', 3)..];
    var level := Run(indented, '#', 7);
    var after := indented[level..];
    if 1 <= level <= 6 && after != "" && al.space(after[0]) then
      var rest := after[SpacesEnd(after, 0, al.space)..];
      var title := StripEnd(DropTrailing(StripEnd(rest, al), '#'), al);
      if title == "" then None else Some(Strip(title, al.space))
    else None
  }

  function Hashes(n: nat): (s: string)
    ensures |s| == n && forall i :: 0 <= i < n ==> s[i] == '#'
  {
    if n == 0 then "" else ['#'] + Hashes(n - 1)
  }

  lemma {:induction false} RunOfHashes(n: nat, rest: string, limit: nat)
    requires n < limit && (rest == "" || rest[0] != '#')
    ensures Run(Hashes(n) + rest, '#', limit) == n
  {
    if n == 0 {
      assert Hashes(n) + rest == rest;
    } else {
      assert (Hashes(n) + rest)[1..] == Hashes(n - 1) + rest;
      RunOfHashes(n - 1, rest, limit - 1);
    }
  }

  lemma {:induction false} ManyHashes(n: nat, rest: string, limit: nat)
    requires n >= limit
    ensures Run(Hashes(n) + rest, '#', limit) == limit
  {
    if limit > 0 {
      assert (Hashes(n) + rest)[1..] == Hashes(n - 1) + rest;
      ManyHashes(n - 1, rest, limit - 1);
    }
  }

  /** A text that neither starts nor ends with whitespace, nor ends with '#'. */
  ghost predicate PlainTitle(title: string, al: Alphabet) {
    title != "" && !al.space(title[0]) && !al.space(title[|title| - 1]) && title[|title| - 1] != '#'
  }

  lemma {:induction false} PlainStaysPlain(title: string, al: Alphabet)
    requires PlainTitle(title, al)
    ensures StripEnd(title, al) == title && DropTrailing(title, '#') == title && Strip(title, al.space) == title
  {
    assert SolidEnd(title, |title|, al.space) == |title| && SpacesEnd(title, 0, al.space) == 0;
    assert title[..|title|] == title && title[0..|title|] == title;
  }

  /** One to six '#'s, a blank and a plain title are a heading with that title; seven or more are none. */
  lemma {:induction false} HeadingsAreRead(level: nat, title: string, al: Alphabet)
    requires al.Valid() && PlainTitle(title, al) && level >= 1
    ensures Heading(Hashes(level) + (" " + title), al) == if level <= 6 then Some(title) else None
  {
    var line := Hashes(level) + (" " + title);
    assert line[0] == '#' && line[0..] == line;
    if level <= 6 {
      RunOfHashes(level, " " + title, 7);
      assert line[level..] == " " + title;
      SpacesEndSkips(" ", title, 0, al.space);
      assert SpacesEnd(title, 0, al.space) == 0;
      assert (" " + title)[1..] == title;
      PlainStaysPlain(title, al);
    } else {
      ManyHashes(level, " " + title, 7);
    }
  }

  // ----- A heading is the pattern, with the shortest of its titles -----

  /** The line reads as the pattern, with this title. */
  ghost predicate ReadsAsHeading(line: string, blanks: string, marks: string, gap: string, title: string, w: string,
                                 closing: string, end: string, al: Alphabet)
  {
    && AllOf(blanks, ' ') && |blanks| <= 3 && AllOf(marks, '#') && 1 <= |marks| <= 6
    && gap != "" && AllSpace(gap, al.space) && AllSpace(w, al.space) && AllOf(closing, '#') && AllSpace(end, al.space)
    && line == blanks + (marks + (gap + (title + (w + (closing + end)))))
  }

  lemma {:induction false} RunOf(run: string, rest: string, c: char, limit: nat)
    requires AllOf(run, c) && |run| <= limit && (|run| == limit || rest == "" || rest[0] != c)
    ensures Run(run + rest, c, limit) == |run| && (run + rest)[|run|..] == rest
  {
    if run == "" {
      assert run + rest == rest;
    } else {
      assert (run + rest)[1..] == run[1..] + rest;
      RunOf(run[1..], rest, c, limit - 1);
    }
  }

  lemma {:induction false} RunIsOf(s: string, c: char, limit: nat)
    ensures AllOf(s[..Run(s, c, limit)], c)
    ensures var n := Run(s, c, limit); n < limit && n < |s| ==> s[n] != c
  {
    if limit > 0 && s != "" && s[0] == c {
      var n := Run(s[1..], c, limit - 1);
      RunIsOf(s[1..], c, limit - 1);
      assert s[..n + 1] == [s[0]] + s[1..][..n];
    }
  }

  lemma {:induction false} StripEndSkips(s: string, w: string, al: Alphabet)
    requires AllSpace(w, al.space)
    ensures StripEnd(s + w, al) == StripEnd(s, al)
  {
    if w == "" {
      assert s + w == s;
    } else {
      var v := w[..|w| - 1];
      assert (s + w)[|s + w| - 1] == w[|w| - 1] && s + w == (s + v) + [w[|w| - 1]];
      EndShrinks(s + v, w[|w| - 1], al);
      StripEndSkips(s, v, al);
    }
  }

  lemma {:induction false} EndShrinks(s: string, c: char, al: Alphabet)
    requires al.space(c)
    ensures StripEnd(s + [c], al) == StripEnd(s, al)
  {
    SolidEndInPrefix(s, [c], |s|, al.space);
    var e := SolidEnd(s, |s|, al.space);
    assert (s + [c])[..e] == s[..e];
  }

  lemma {:induction false} SolidEndInPrefix(s: string, t: string, n: nat, space: Spaces)
    requires n <= |s|
    ensures SolidEnd(s + t, n, space) == SolidEnd(s, n, space)
  {
    if n > 0 && space(s[n - 1]) { SolidEndInPrefix(s, t, n - 1, space); }
  }

  lemma {:induction false} TrailingDropped(s: string, marks: string)
    requires AllOf(marks, '#')
    ensures DropTrailing(s + marks, '#') == DropTrailing(s, '#')
  {
    if marks == "" {
      assert s + marks == s;
    } else {
      var fewer := marks[..|marks| - 1];
      assert (s + marks)[..|s + marks| - 1] == s + fewer;
      TrailingDropped(s, fewer);
    }
  }

  /** What is left of the text behind the gap. */
  function TitleOf(rest: string, al: Alphabet): string {
    StripEnd(DropTrailing(StripEnd(rest, al), '#'), al)
  }

  /** No reading of the rest leaves a shorter title. */
  lemma {:induction false} TitleIsShortest(title: string, w: string, closing: string, end: string, al: Alphabet)
    requires AllSpace(w, al.space) && AllOf(closing, '#') && AllSpace(end, al.space) && !al.space('#')
    ensures |TitleOf(title + (w + (closing + end)), al)| <= |title|
  {
    var x := title + w;
    assert title + (w + (closing + end)) == (x + closing) + end;
    StripEndSkips(x + closing, end, al);
    StripEndSkips(title, w, al);
    if closing == "" {
      assert x + closing == x;
    } else {
      var y := x + closing;
      assert y[|y| - 1] == '#' && SolidEnd(y, |y|, al.space) == |y| && StripEnd(y, al) == y;
      TrailingDropped(x, closing);
      if w != "" {
        assert x[|x| - 1] == w[|w| - 1] && DropTrailing(x, '#') == x;
      } else {
        assert x == title;
      }
    }
  }

  /** The rest is its title, whitespace, closing marks and whitespace. */
  lemma {:induction false} TitleIsAReading(rest: string, al: Alphabet)
    returns (w: string, closing: string, end: string)
    ensures AllSpace(w, al.space) && AllOf(closing, '#') && AllSpace(end, al.space)
    ensures rest == TitleOf(rest, al) + (w + (closing + end))
    ensures TitleOf(rest, al) != "" ==> !al.space(TitleOf(rest, al)[|TitleOf(rest, al)| - 1])
  {
    var t1 := StripEnd(rest, al);
    var t2 := DropTrailing(t1, '#');
    end := StripEndSplits(rest, al);
    DroppedAreMarks(t1);
    closing := t1[|t2|..];
    w := StripEndSplits(t2, al);
    Nested(TitleOf(rest, al), w, closing, end, t2, t1);
  }

  lemma {:induction false} StripEndSplits(s: string, al: Alphabet) returns (end: string)
    ensures s == StripEnd(s, al) + end && AllSpace(end, al.space)
    ensures StripEnd(s, al) != "" ==> !al.space(StripEnd(s, al)[|StripEnd(s, al)| - 1])
  {
    SolidEndIsTheEnd(s, |s|, al.space);
    var e := SolidEnd(s, |s|, al.space);
    end := s[e..];
    assert s[e..|s|] == end && s == s[..e] + end;
  }

  lemma {:induction false} Nested(a: string, b: string, c: string, d: string, ab: string, abc: string)
    requires ab == a + b && abc == ab + c
    ensures abc + d == a + (b + (c + d))
  {
  }

  lemma {:induction false} DroppedAreMarks(s: string)
    ensures AllOf(s[|DropTrailing(s, '#')|..], '#') && s == DropTrailing(s, '#') + s[|DropTrailing(s, '#')|..]
  {
    if s != "" && s[|s| - 1] == '#' {
      var t := s[..|s| - 1];
      DroppedAreMarks(t);
      var k := |DropTrailing(t, '#')|;
      assert s[k..] == t[k..] + "#";
    }
  }

  /** The title of what stands behind the marks. */
  function TitleBehind(behind: string, al: Alphabet): string {
    TitleOf(behind[SpacesEnd(behind, 0, al.space)..], al)
  }

  /** The text behind a gap, with the gap's whitespace taken as far as it goes. */
  lemma {:induction false} RestBehindTheGap(gap: string, behind: string, al: Alphabet)
    requires AllSpace(gap, al.space)
    ensures (gap + behind)[SpacesEnd(gap + behind, 0, al.space)..] == behind[SpacesEnd(behind, 0, al.space)..]
  {
    SpacesEndSkips(gap, behind, 0, al.space);
    DropBehind(gap, behind, SpacesEnd(behind, 0, al.space));
  }

  /** With its leading whitespace taken away, a text still has a reading, of a title no longer than before. */
  lemma {:induction false} ReadingBehindSpaces(title: string, w: string, closing: string, end: string, al: Alphabet)
    requires AllSpace(w, al.space) && AllOf(closing, '#') && AllSpace(end, al.space) && !al.space('#')
    ensures var behind := title + (w + (closing + end));
      |TitleBehind(behind, al)| <= |title|
  {
    var tail := w + (closing + end);
    var behind := title + tail;
    var k := SpacesEnd(title, 0, al.space);
    SpacesEndIsTheEnd(title, 0, al.space);
    assert title[0..k] == title[..k];
    if k < |title| {
      SpacesEndInside(title, tail, 0, al.space);
      assert behind[k..] == title[k..] + tail;
      TitleIsShortest(title[k..], w, closing, end, al);
    } else {
      RestBehindTheGap(title, tail, al);
      NoTitleBehindSpaces(w, closing, end, al);
    }
  }

  lemma {:induction false} NoTitleBehindSpaces(w: string, closing: string, end: string, al: Alphabet)
    requires AllSpace(w, al.space) && AllOf(closing, '#') && AllSpace(end, al.space) && !al.space('#')
    ensures TitleBehind(w + (closing + end), al) == ""
  {
    if closing == "" {
      AllSpacesLeaveNothing(w + end, al);
      assert w + (closing + end) == w + end;
    } else {
      RestBehindTheGap(w, closing + end, al);
      assert (closing + end)[0] == '#' && SpacesEnd(closing + end, 0, al.space) == 0;
      assert (closing + end)[0..] == closing + end == "" + ("" + (closing + end));
      TitleIsShortest("", "", closing, end, al);
    }
  }

  lemma {:induction false} SpacesEndInside(s: string, t: string, p: nat, space: Spaces)
    requires p <= |s| && SpacesEnd(s, p, space) < |s|
    ensures SpacesEnd(s + t, p, space) == SpacesEnd(s, p, space)
    decreases |s| - p
  {
    if p < |s| && space(s[p]) { SpacesEndInside(s, t, p + 1, space); }
  }

  lemma {:induction false} AllSpacesLeaveNothing(s: string, al: Alphabet)
    requires AllSpace(s, al.space)
    ensures TitleOf(s[SpacesEnd(s, 0, al.space)..], al) == ""
  {
    SpacesEndSkips(s, "", 0, al.space);
    assert s + "" == s && s[|s|..] == "";
  }

  /**
    * Whenever a line reads as the pattern, it is a heading with a title no longer than the reading's, or the shortest
    * title is empty and the line is none.
    */
  lemma {:induction false} HeadingIsTheShortestReading(line: string, blanks: string, marks: string, gap: string,
                                                       title: string, w: string, closing: string, end: string,
                                                       al: Alphabet)
    requires al.Valid() && !al.space('#') && ReadsAsHeading(line, blanks, marks, gap, title, w, closing, end, al)
    ensures match Heading(line, al)
      case Some(shortest) => |shortest| <= |title|
      case None => line == blanks + (marks + (gap + line[|blanks| + |marks| + |gap|..]))
                   && TitleBehind(line[|blanks| + |marks| + |gap|..], al) == ""
  {
    var behind := title + (w + (closing + end));
    HeadingBehind(blanks, marks, gap, behind, al);
    ReadingBehindSpaces(title, w, closing, end, al);
    StripIsNoLonger(TitleBehind(behind, al), al);
  }

  /** Blanks, marks and a gap make a heading of the title behind them, if there is one. */
  lemma {:induction false} HeadingBehind(blanks: string, marks: string, gap: string, behind: string, al: Alphabet)
    requires AllOf(blanks, ' ') && |blanks| <= 3 && AllOf(marks, '#') && 1 <= |marks| <= 6
    requires gap != "" && AllSpace(gap, al.space) && !al.space('#')
    ensures var line, title := blanks + (marks + (gap + behind)), TitleBehind(behind, al);
      && line[|blanks| + |marks| + |gap|..] == behind
      && Heading(line, al) == if title == "" then None else Some(Strip(title, al.space))
  {
    var after := gap + behind;
    assert after[0] == gap[0] && (marks + after)[0] == '#';
    RunOf(blanks, marks + after, ' ', 3);
    RunOf(marks, after, '#', 7);
    RestBehindTheGap(gap, behind, al);
  }

  lemma {:induction false} StripIsNoLonger(s: string, al: Alphabet)
    ensures |Strip(s, al.space)| <= |s|
  {
  }

  /** What stands behind the marks of a heading: a gap and a reading of its title. */
  lemma {:induction false} BehindTheMarks(after: string, al: Alphabet)
    returns (gap: string, title: string, w: string, closing: string, end: string)
    requires after != "" && al.space(after[0]) && TitleBehind(after, al) != ""
    ensures gap != "" && AllSpace(gap, al.space) && AllSpace(w, al.space) && AllOf(closing, '#')
      && AllSpace(end, al.space)
    ensures title == TitleBehind(after, al) == Strip(TitleBehind(after, al), al.space)
      && after == gap + (title + (w + (closing + end)))
  {
    var k := SpacesEnd(after, 0, al.space);
    SpacesEndIsTheEnd(after, 0, al.space);
    assert after[0..k] == after[..k];
    gap, title := after[..k], TitleBehind(after, al);
    w, closing, end := TitleIsAReading(after[k..], al);
    assert title[0] == after[k..][0] == after[k];
    TitleStaysStripped(title, al);
    assert after == gap + after[k..];
  }

  /** A heading reads as the pattern, with its title. */
  lemma {:induction false} HeadingIsAReading(line: string, al: Alphabet)
    returns (blanks: string, marks: string, gap: string, w: string, closing: string, end: string)
    requires Heading(line, al).Some?
    ensures Heading(line, al).value != ""
    ensures ReadsAsHeading(line, blanks, marks, gap, Heading(line, al).value, w, closing, end, al)
  {
    var n := Run(line, ' ', 3);
    var indented := line[n..];
    var level := Run(indented, '#', 7);
    RunIsOf(line, ' ', 3);
    RunIsOf(indented, '#', 7);
    blanks, marks := line[..n], indented[..level];
    var title;
    gap, title, w, closing, end := BehindTheMarks(indented[level..], al);
    HeadAndTail(line, n);
    HeadAndTail(indented, level);
  }

  lemma {:induction false} HeadAndTail(s: string, n: nat)
    requires n <= |s|
    ensures s == s[..n] + s[n..]
  {
  }

  lemma {:induction false} TitleStaysStripped(title: string, al: Alphabet)
    requires title != "" && !al.space(title[0]) && !al.space(title[|title| - 1])
    ensures Strip(title, al.space) == title
  {
    assert SolidEnd(title, |title|, al.space) == |title| && SpacesEnd(title, 0, al.space) == 0;
    assert title[0..|title|] == title;
  }

  /** A line without a '#' is no heading. */
  lemma {:induction false} NoHashNoHeading(line: string, al: Alphabet)
    requires forall i :: 0 <= i < |line| ==> line[i] != '#'
    ensures Heading(line, al) == None
  {
    var indented := line[Run(line, ' ', 3)..];
    assert forall i :: 0 <= i < |indented| ==> indented[i] == line[Run(line, ' ', 3) + i];
    assert Run(indented, '#', 7) == 0;
  }

  // ----- Sections -----

  datatype Section = Section(labelNo: nat, title: string, body: string)

  datatype Splitting = Splitting(sections: seq<Section>, labelNo: nat, title: string, bodyLines: seq<string>,
    inFence: bool)

  const START := Splitting([], 0, "", [], false)

  /** Closing the section under way; one without a body is dropped, but its number stays used. */
  function Flushed(sp: Splitting, al: Alphabet): seq<Section> {
    var body := Strip(Join(sp.bodyLines, "\n"), al.space);
    if body == "" then sp.sections else sp.sections + [Section(sp.labelNo, sp.title, body)]
  }

  function HeadingOf(sp: Splitting, line: string, al: Alphabet): Option<string> {
    if sp.inFence != Fence(line) then None else Heading(line, al)
  }

  function NextLine(sp: Splitting, line: string, al: Alphabet): Splitting {
    Behind(sp, line, HeadingOf(sp, line, al), al).(inFence := sp.inFence != Fence(line))
  }

  /** A heading starts a new section, and any other line goes on with the last one. */
  function Behind(sp: Splitting, line: string, heading: Option<string>, al: Alphabet): Splitting {
    match heading
    case Some(title) => sp.(sections := Flushed(sp, al), labelNo := sp.labelNo + 1, title := title, bodyLines := [])
    case None => sp.(bodyLines := sp.bodyLines + [line])
  }

  function SplitLines(lines: seq<string>, al: Alphabet): Splitting {
    if lines == [] then START else NextLine(SplitLines(lines[..|lines| - 1], al), lines[|lines| - 1], al)
  }

  function SectionsOf(text: string, al: Alphabet): seq<Section> {
    Flushed(SplitLines(Lines(text), al), al)
  }

  /** One turn of the loop. */
  method ReadLine(sections: seq<Section>, labelNo: nat, title: string, bodyLines: seq<string>, inFence: bool,
                  line: string, al: Alphabet)
    returns (sections': seq<Section>, labelNo': nat, title': string, bodyLines': seq<string>, inFence': bool)
    ensures Splitting(sections', labelNo', title', bodyLines', inFence')
         == NextLine(Splitting(sections, labelNo, title, bodyLines, inFence), line, al)
  {
    sections', labelNo', title', bodyLines', inFence' := sections, labelNo, title, bodyLines, inFence;
    if Fence(line) {
      inFence' := !inFence;
    }
    var heading := if inFence' then None else Heading(line, al);
    if heading.Some? {
      sections' := Flushed(Splitting(sections, labelNo, title, bodyLines, inFence), al);
      labelNo' := labelNo + 1;
      title', bodyLines' := heading.value, [];
    } else {
      bodyLines' := bodyLines + [line];
    }
  }

  /** split_sections */
  method SplitSections(text: string, al: Alphabet) returns (sections: seq<Section>)
    ensures sections == SectionsOf(text, al)
  {
    var lines := Lines(text);
    var labelNo: nat, title, bodyLines, inFence := 0, "", [], false;
    sections := [];
    for n := 0 to |lines|
      invariant Splitting(sections, labelNo, title, bodyLines, inFence) == SplitLines(lines[..n], al)
    {
      SplitLinesNext(lines, n, al);
      sections, labelNo, title, bodyLines,
        inFence := ReadLine(sections, labelNo, title, bodyLines, inFence, lines[n], al);
    }
    assert lines[..|lines|] == lines;
    sections := Flushed(Splitting(sections, labelNo, title, bodyLines, inFence), al);
  }

  lemma {:induction false} SplitLinesNext(lines: seq<string>, n: nat, al: Alphabet)
    requires n < |lines|
    ensures SplitLines(lines[..n + 1], al) == NextLine(SplitLines(lines[..n], al), lines[n], al)
  {
    assert lines[..n + 1][..n] == lines[..n];
  }

  /** The lines that are no headings. */
  function BodyLines(lines: seq<string>, al: Alphabet): seq<string> {
    if lines == [] then []
    else
      var before := lines[..|lines| - 1];
      BodyLines(before, al) + if HeadingOf(SplitLines(before, al), lines[|lines| - 1], al).Some? then []
        else [lines[|lines| - 1]]
  }

  function BodyToks(sections: seq<Section>, al: Alphabet): seq<string> {
    if sections == [] then [] else BodyToks(sections[..|sections| - 1], al) + Toks(sections[|sections| - 1].body, al)
  }

  lemma {:induction false} FlushedKeepsToks(sp: Splitting, al: Alphabet)
    requires al.Valid()
    ensures BodyToks(Flushed(sp, al), al) == BodyToks(sp.sections, al) + ToksOfAll(sp.bodyLines, al)
  {
    var joined := Join(sp.bodyLines, "\n");
    var body := Strip(joined, al.space);
    ToksOfJoin(sp.bodyLines, "\n", al);
    ToksOfStrip(joined, al);
    if body == "" {
      assert BodyToks(sp.sections, al) + [] == BodyToks(sp.sections, al);
    } else {
      var more := sp.sections + [Section(sp.labelNo, sp.title, body)];
      assert more[..|sp.sections|] == sp.sections;
    }
  }

  lemma {:induction false} SplittingKeepsToks(lines: seq<string>, al: Alphabet)
    requires al.Valid()
    ensures var sp := SplitLines(lines, al);
      BodyToks(sp.sections, al) + ToksOfAll(sp.bodyLines, al) == ToksOfAll(BodyLines(lines, al), al)
  {
    if lines != [] {
      var before, line := lines[..|lines| - 1], lines[|lines| - 1];
      var sp := SplitLines(before, al);
      SplittingKeepsToks(before, al);
      LineKeepsToks(sp, line, HeadingOf(sp, line, al), BodyLines(before, al), al);
    }
  }

  lemma {:induction false} LineKeepsToks(sp: Splitting, line: string, heading: Option<string>, kept: seq<string>,
                                         al: Alphabet)
    requires al.Valid() && BodyToks(sp.sections, al) + ToksOfAll(sp.bodyLines, al) == ToksOfAll(kept, al)
    ensures var next := Behind(sp, line, heading, al);
      BodyToks(next.sections, al) + ToksOfAll(next.bodyLines, al) ==
      ToksOfAll(kept + if heading.Some? then [] else [line], al)
  {
    if heading.Some? {
      FlushedKeepsToks(sp, al);
      assert kept + [] == kept && ToksOfAll(kept, al) + [] == ToksOfAll(kept, al);
    } else {
      BodyLineKeepsToks(BodyToks(sp.sections, al), sp.bodyLines, line, kept, al);
    }
  }

  lemma {:induction false} BodyLineKeepsToks(toks: seq<string>, bodyLines: seq<string>, line: string,
                                             kept: seq<string>, al: Alphabet)
    requires toks + ToksOfAll(bodyLines, al) == ToksOfAll(kept, al)
    ensures toks + ToksOfAll(bodyLines + [line], al) == ToksOfAll(kept + [line], al)
  {
    ToksOfAllSnoc(bodyLines, line, al);
    ToksOfAllSnoc(kept, line, al);
    ConcatIsAssociative(toks, ToksOfAll(bodyLines, al), Toks(line, al));
  }

  /** The sections' bodies hold exactly the tokens of the lines that are no headings, in order. */
  lemma {:induction false} SectionsKeepToks(text: string, al: Alphabet)
    requires al.Valid()
    ensures BodyToks(SectionsOf(text, al), al) == ToksOfAll(BodyLines(Lines(text), al), al)
  {
    SplittingKeepsToks(Lines(text), al);
    FlushedKeepsToks(SplitLines(Lines(text), al), al);
  }

  ghost predicate InOrder(sections: seq<Section>) {
    && (forall i, j :: 0 <= i < j < |sections| ==> sections[i].labelNo < sections[j].labelNo)
    && (forall i :: 0 <= i < |sections| ==> sections[i].body != "")
  }

  ghost predicate IncreasingBelow(sections: seq<Section>, n: nat) {
    InOrder(sections) && forall i :: 0 <= i < |sections| ==> sections[i].labelNo < n
  }

  lemma {:induction false} FlushedIncreasing(sp: Splitting, al: Alphabet)
    requires IncreasingBelow(sp.sections, sp.labelNo)
    ensures IncreasingBelow(Flushed(sp, al), sp.labelNo + 1)
  {
  }

  lemma {:induction false} LinesNumberInOrder(lines: seq<string>, al: Alphabet)
    ensures IncreasingBelow(SplitLines(lines, al).sections, SplitLines(lines, al).labelNo)
  {
    if lines != [] {
      LinesNumberInOrder(lines[..|lines| - 1], al);
      FlushedIncreasing(SplitLines(lines[..|lines| - 1], al), al);
    }
  }

  /** Section numbers increase, so a document's sections have distinct labels; none has an empty body. */
  lemma {:induction false} SectionsAreNumberedInOrder(text: string, al: Alphabet)
    ensures InOrder(SectionsOf(text, al))
  {
    var sp := SplitLines(Lines(text), al);
    LinesNumberInOrder(Lines(text), al);
    FlushedIncreasing(sp, al);
  }

  // ----- Chunks -----

  /** A chunk, with the piece it shows. */
  datatype Chunk = Chunk(labelNo: nat, title: string, piece: Piece, index: nat)

  function ChunkText(title: string, piece: string): string {
    if title == "" then piece else title + ("\n\n" + piece)
  }

  predicate HasWord(s: string, al: Alphabet) {
    exists i :: 0 <= i < |s| && al.word(s[i])
  }

  function Budget(section: Section, maxTokens: nat, al: Alphabet): (b: nat)
    ensures b >= 1
  {
    Max(maxTokens - |Toks(section.title, al)|, 1)
  }

  function Overlap(budget: nat, overlapTokens: nat): (o: nat)
    requires budget >= 1
    ensures o < budget
  {
    Min(overlapTokens, budget - 1)
  }

  function SectionPiecesOf(section: Section, maxTokens: nat, overlapTokens: nat, al: Alphabet): seq<Piece>
    requires al.Valid()
  {
    var budget := Budget(section, maxTokens, al);
    PiecesOfSection(section.body, budget, Overlap(budget, overlapTokens), al)
  }

  /** The pieces that hold a word, as chunks numbered on from index. */
  function ChunksOfPieces(section: Section, pieces: seq<Piece>, index: nat, al: Alphabet): seq<Chunk> {
    if pieces == [] then []
    else if HasWord(pieces[0].text, al) then
      [Chunk(section.labelNo, section.title, pieces[0], index)] + ChunksOfPieces(section, pieces[1..], index + 1, al)
    else ChunksOfPieces(section, pieces[1..], index, al)
  }

  /** chunk_document */
  function ChunksOf(sections: seq<Section>, maxTokens: nat, overlapTokens: nat, al: Alphabet): seq<Chunk>
    requires al.Valid()
  {
    if sections == [] then []
    else
      var before, last := ChunksOf(sections[..|sections| - 1], maxTokens, overlapTokens, al), sections[|sections| - 1];
      before + ChunksOfPieces(last, SectionPiecesOf(last, maxTokens, overlapTokens, al), |before|, al)
  }

  /** The chunk shows, under the section's number and title, one of the pieces that hold a word. */
  ghost predicate ShowsPieceOf(c: Chunk, section: Section, pieces: seq<Piece>, al: Alphabet) {
    c.labelNo == section.labelNo && c.title == section.title && c.piece in pieces && HasWord(c.piece.text, al)
  }

  lemma {:induction false} PieceChunksShowTheirSection(section: Section, pieces: seq<Piece>, index: nat, al: Alphabet)
    ensures forall c :: c in ChunksOfPieces(section, pieces, index, al) ==> ShowsPieceOf(c, section, pieces, al)
  {
    if pieces != [] {
      PieceChunksShowTheirSection(section, pieces[1..], index + 1, al);
      PieceChunksShowTheirSection(section, pieces[1..], index, al);
    }
  }

  /** Every chunk stands under the number and title of the section whose piece it shows. */
  lemma {:induction false} ChunksShowTheirSection(sections: seq<Section>, maxTokens: nat, overlapTokens: nat,
                                                  al: Alphabet, c: Chunk)
    returns (k: nat)
    requires al.Valid() && c in ChunksOf(sections, maxTokens, overlapTokens, al)
    ensures k < |sections| &&
      ShowsPieceOf(c, sections[k], SectionPiecesOf(sections[k], maxTokens, overlapTokens, al), al)
  {
    var before, last := sections[..|sections| - 1], sections[|sections| - 1];
    if c in ChunksOf(before, maxTokens, overlapTokens, al) {
      k := ChunksShowTheirSection(before, maxTokens, overlapTokens, al, c);
    } else {
      k := |before|;
      PieceChunksShowTheirSection(last, SectionPiecesOf(last, maxTokens, overlapTokens, al),
                                  |ChunksOf(before, maxTokens, overlapTokens, al)|, al);
    }
  }

  lemma {:induction false} PieceHasItsChunk(section: Section, pieces: seq<Piece>, index: nat, p: Piece, al: Alphabet)
    returns (c: Chunk)
    requires p in pieces && HasWord(p.text, al)
    ensures c in ChunksOfPieces(section, pieces, index, al) && c.piece == p && ShowsPieceOf(c, section, pieces, al)
  {
    if pieces[0] == p {
      c := ChunksOfPieces(section, pieces, index, al)[0];
    } else {
      c := PieceHasItsChunk(section, pieces[1..], if HasWord(pieces[0].text, al) then index + 1 else index, p, al);
    }
  }

  /** Every piece of a section that holds a word has its chunk. */
  lemma {:induction false} EveryPieceHasItsChunk(sections: seq<Section>, maxTokens: nat, overlapTokens: nat,
                                                 al: Alphabet, k: nat, p: Piece)
    returns (c: Chunk)
    requires al.Valid() && k < |sections| && HasWord(p.text, al)
    requires p in SectionPiecesOf(sections[k], maxTokens, overlapTokens, al)
    ensures c in ChunksOf(sections, maxTokens, overlapTokens, al) && c.piece == p
    ensures ShowsPieceOf(c, sections[k], SectionPiecesOf(sections[k], maxTokens, overlapTokens, al), al)
  {
    var n := |sections| - 1;
    if k < n {
      c := EveryPieceHasItsChunk(sections[..n], maxTokens, overlapTokens, al, k, p);
    } else {
      c := PieceHasItsChunk(sections[n], SectionPiecesOf(sections[n], maxTokens, overlapTokens, al),
                            |ChunksOf(sections[..n], maxTokens, overlapTokens, al)|, p, al);
    }
  }

  // ----- No chunk is too long -----

  ghost predicate Fits(c: Chunk, maxTokens: nat, al: Alphabet) {
    |Toks(ChunkText(c.title, c.piece.text), al)| <= Max(maxTokens, |Toks(c.title, al)| + 1)
  }

  ghost predicate AllFit(chunks: seq<Chunk>, maxTokens: nat, al: Alphabet) {
    forall i :: 0 <= i < |chunks| ==> Fits(chunks[i], maxTokens, al)
  }

  lemma {:induction false} ToksOfChunkText(title: string, piece: string, al: Alphabet)
    requires al.Valid()
    ensures Toks(ChunkText(title, piece), al) == Toks(title, al) + Toks(piece, al)
  {
    if title == "" {
      assert [] + Toks(piece, al) == Toks(piece, al);
    } else {
      ToksAcrossSpace(title, "\n\n", piece, al);
    }
  }

  lemma {:induction false} PieceChunksFit(section: Section, pieces: seq<Piece>, index: nat, maxTokens: nat,
                                          al: Alphabet)
    requires al.Valid() && Bounded(pieces, Budget(section, maxTokens, al), al)
    ensures AllFit(ChunksOfPieces(section, pieces, index, al), maxTokens, al)
  {
    if pieces != [] {
      ToksOfChunkText(section.title, pieces[0].text, al);
      assert Bounded(pieces[1..], Budget(section, maxTokens, al), al);
      PieceChunksFit(section, pieces[1..], if HasWord(pieces[0].text, al) then index + 1 else index, maxTokens, al);
    }
  }

  /** Every chunk has at most maxTokens tokens, or one more than its title when the title leaves less room than that. */
  lemma {:induction false} ChunksFit(sections: seq<Section>, maxTokens: nat, overlapTokens: nat, al: Alphabet)
    requires al.Valid()
    ensures AllFit(ChunksOf(sections, maxTokens, overlapTokens, al), maxTokens, al)
  {
    if sections != [] {
      var last := sections[|sections| - 1];
      var budget := Budget(last, maxTokens, al);
      ChunksFit(sections[..|sections| - 1], maxTokens, overlapTokens, al);
      SectionPiecesAccount(last.body, budget, Overlap(budget, overlapTokens), al);
      PieceChunksFit(last, SectionPiecesOf(last, maxTokens, overlapTokens, al),
                     |ChunksOf(sections[..|sections| - 1], maxTokens, overlapTokens, al)|, maxTokens, al);
    }
  }

  ghost predicate NumberedFrom(chunks: seq<Chunk>, index: nat) {
    forall i :: 0 <= i < |chunks| ==> chunks[i].index == index + i
  }

  lemma {:induction false} PieceChunksAreNumbered(section: Section, pieces: seq<Piece>, index: nat, al: Alphabet)
    ensures NumberedFrom(ChunksOfPieces(section, pieces, index, al), index)
  {
    if pieces != [] {
      if HasWord(pieces[0].text, al) {
        PieceChunksAreNumbered(section, pieces[1..], index + 1, al);
      } else {
        PieceChunksAreNumbered(section, pieces[1..], index, al);
      }
    }
  }

  /** Chunk numbers are positions, so no two chunks of a document are alike in all that their ids are made from. */
  lemma {:induction false} ChunksAreNumbered(sections: seq<Section>, maxTokens: nat, overlapTokens: nat, al: Alphabet)
    requires al.Valid()
    ensures NumberedFrom(ChunksOf(sections, maxTokens, overlapTokens, al), 0)
  {
    if sections != [] {
      var before := ChunksOf(sections[..|sections| - 1], maxTokens, overlapTokens, al);
      ChunksAreNumbered(sections[..|sections| - 1], maxTokens, overlapTokens, al);
      PieceChunksAreNumbered(sections[|sections| - 1],
        SectionPiecesOf(sections[|sections| - 1], maxTokens, overlapTokens, al), |before|, al);
    }
  }

  // ----- No word is lost -----

  /** The tokens that are words. */
  function Words(toks: seq<string>, al: Alphabet): seq<string> {
    if toks == [] then []
    else if toks[0] != "" && al.word(toks[0][0]) then [toks[0]] + Words(toks[1..], al)
    else Words(toks[1..], al)
  }

  lemma {:induction false} WordsOfConcat(a: seq<string>, b: seq<string>, al: Alphabet)
    ensures Words(a + b, al) == Words(a, al) + Words(b, al)
  {
    if a == [] {
      assert a + b == b;
    } else {
      assert (a + b)[1..] == a[1..] + b;
      WordsOfConcat(a[1..], b, al);
    }
  }

  lemma {:induction false} NoWordsWithoutWord(s: string, al: Alphabet)
    requires !HasWord(s, al)
    ensures Words(Toks(s, al), al) == []
    decreases |s|
  {
    if s != "" {
      var n := if al.space(s[0]) then 1 else TokenLen(s, al);
      assert forall i :: 0 <= i < |s| - n ==> s[n..][i] == s[n + i];
      NoWordsWithoutWord(s[n..], al);
      if !al.space(s[0]) {
        var tok, rest := s[..n], Toks(s[n..], al);
        assert tok[0] == s[0];
        assert ([tok] + rest)[1..] == rest;
      }
    }
  }

  lemma {:induction false} FewerWords(toks: seq<string>, n: nat, al: Alphabet)
    requires n <= |toks| && Words(toks, al) == []
    ensures Words(toks[n..], al) == []
  {
    assert toks == toks[..n] + toks[n..];
    WordsOfConcat(toks[..n], toks[n..], al);
  }

  /** The words that the chunks show for the first time. */
  function ChunkWords(chunks: seq<Chunk>, al: Alphabet): seq<string> {
    if chunks == [] then [] else Words(NewToks(chunks[0].piece, al), al) + ChunkWords(chunks[1..], al)
  }

  lemma {:induction false} ChunkWordsOfConcat(a: seq<Chunk>, b: seq<Chunk>, al: Alphabet)
    ensures ChunkWords(a + b, al) == ChunkWords(a, al) + ChunkWords(b, al)
  {
    if a == [] {
      assert a + b == b;
    } else {
      assert (a + b)[1..] == a[1..] + b;
      ChunkWordsOfConcat(a[1..], b, al);
    }
  }

  lemma {:induction false} PieceChunksKeepWords(section: Section, pieces: seq<Piece>, index: nat, al: Alphabet)
    ensures ChunkWords(ChunksOfPieces(section, pieces, index, al), al) == Words(Restored(pieces, al), al)
  {
    if pieces != [] {
      var p, rest := pieces[0], pieces[1..];
      WordsOfConcat(NewToks(p, al), Restored(rest, al), al);
      if HasWord(p.text, al) {
        PieceChunksKeepWords(section, rest, index + 1, al);
        var c, more := Chunk(section.labelNo, section.title, p, index), ChunksOfPieces(section, rest, index + 1, al);
        assert ([c] + more)[1..] == more;
      } else {
        PieceChunksKeepWords(section, rest, index, al);
        NoWordsWithoutWord(p.text, al);
        if p.skip <= |Toks(p.text, al)| {
          FewerWords(Toks(p.text, al), p.skip, al);
        }
        assert [] + Words(Restored(rest, al), al) == Words(Restored(rest, al), al);
      }
    }
  }

  lemma {:induction false} ChunksKeepWords(sections: seq<Section>, maxTokens: nat, overlapTokens: nat, al: Alphabet)
    requires al.Valid()
    ensures ChunkWords(ChunksOf(sections, maxTokens, overlapTokens, al), al) == Words(BodyToks(sections, al), al)
  {
    if sections != [] {
      var init, last := sections[..|sections| - 1], sections[|sections| - 1];
      var before, budget := ChunksOf(init, maxTokens, overlapTokens, al), Budget(last, maxTokens, al);
      var pieces := SectionPiecesOf(last, maxTokens, overlapTokens, al);
      ChunksKeepWords(init, maxTokens, overlapTokens, al);
      SectionPiecesAccount(last.body, budget, Overlap(budget, overlapTokens), al);
      PieceChunksKeepWords(last, pieces, |before|, al);
      ChunkWordsOfConcat(before, ChunksOfPieces(last, pieces, |before|, al), al);
      WordsOfConcat(BodyToks(init, al), Toks(last.body, al), al);
    }
  }

  /** Every word outside the headings appears in some chunk, in document order and, the overlaps dropped, once. */
  lemma {:induction false} NoWordIsLost(text: string, maxTokens: nat, overlapTokens: nat, al: Alphabet)
    requires al.Valid()
    ensures ChunkWords(ChunksOf(SectionsOf(text, al), maxTokens, overlapTokens, al), al)
         == Words(ToksOfAll(BodyLines(Lines(text), al), al), al)
  {
    ChunksKeepWords(SectionsOf(text, al), maxTokens, overlapTokens, al);
    SectionsKeepToks(text, al);
  }

  // ----- The loops of chunk_document -----

  function ChunkTexts(chunks: seq<Chunk>): (shown: seq<(nat, string, nat)>)
    ensures |shown| == |chunks|
    ensures forall i :: 0 <= i < |chunks| ==>
      shown[i] == (chunks[i].labelNo, ChunkText(chunks[i].title, chunks[i].piece.text), chunks[i].index)
  {
    seq(|chunks|,
      i requires 0 <= i < |chunks| => (chunks[i].labelNo, ChunkText(chunks[i].title, chunks[i].piece.text),
      chunks[i].index))
  }

  lemma {:induction false} ChunksOfMorePieces(section: Section, pieces: seq<Piece>, more: seq<Piece>, index: nat,
                                              al: Alphabet)
    ensures var c := ChunksOfPieces(section, pieces, index, al);
      ChunksOfPieces(section, pieces + more, index, al) == c + ChunksOfPieces(section, more, index + |c|, al)
  {
    if pieces == [] {
      assert pieces + more == more;
    } else {
      assert (pieces + more)[1..] == pieces[1..] + more;
      if HasWord(pieces[0].text, al) {
        ChunksOfMorePieces(section, pieces[1..], more, index + 1, al);
      } else {
        ChunksOfMorePieces(section, pieces[1..], more, index, al);
      }
    }
  }

  lemma {:induction false} OneMorePiece(section: Section, pieces: seq<Piece>, n: nat, index: nat, al: Alphabet)
    requires n < |pieces|
    ensures var c := ChunksOfPieces(section, pieces[..n], index, al);
      ChunksOfPieces(section, pieces[..n + 1], index, al) ==
      if HasWord(pieces[n].text, al) then c + [Chunk(section.labelNo, section.title, pieces[n], index + |c|)] else c
  {
    assert pieces[..n + 1] == pieces[..n] + [pieces[n]];
    ChunksOfMorePieces(section, pieces[..n], [pieces[n]], index, al);
    assert [pieces[n]][1..] == [];
  }

  lemma {:induction false} ShownOneMore(section: Section, pieces: seq<Piece>, n: nat, index: nat, al: Alphabet)
    requires n < |pieces|
    ensures var shown := ChunkTexts(ChunksOfPieces(section, pieces[..n], index, al));
      ChunkTexts(ChunksOfPieces(section, pieces[..n + 1], index, al)) == shown +
        if HasWord(pieces[n].text, al)
        then [(section.labelNo, ChunkText(section.title, pieces[n].text), index + |shown|)] else []
  {
    OneMorePiece(section, pieces, n, index, al);
  }

  /** The pieces of one section, each with its title in front unless it holds no word. */
  method ChunkSection(section: Section, maxTokens: nat, overlapTokens: nat, index: nat, al: Alphabet)
    returns (shown: seq<(nat, string, nat)>)
    requires al.Valid()
    ensures shown ==
      ChunkTexts(ChunksOfPieces(section, SectionPiecesOf(section, maxTokens, overlapTokens, al), index, al))
  {
    var budget := Budget(section, maxTokens, al);
    var texts := SectionPieces(section.body, budget, Overlap(budget, overlapTokens), al);
    ghost var pieces := SectionPiecesOf(section, maxTokens, overlapTokens, al);
    shown := [];
    for n := 0 to |texts|
      invariant shown == ChunkTexts(ChunksOfPieces(section, pieces[..n], index, al))
    {
      ShownOneMore(section, pieces, n, index, al);
      if HasWord(texts[n], al) {
        shown := shown + [(section.labelNo, ChunkText(section.title, texts[n]), index + |shown|)];
      }
    }
    assert pieces[..|pieces|] == pieces;
  }

  lemma {:induction false} ChunkTextsOfConcat(a: seq<Chunk>, b: seq<Chunk>)
    ensures ChunkTexts(a + b) == ChunkTexts(a) + ChunkTexts(b)
  {
  }

  lemma {:induction false} ChunksOfNext(sections: seq<Section>, n: nat, maxTokens: nat, overlapTokens: nat,
                                        al: Alphabet)
    requires al.Valid() && n < |sections|
    ensures var before := ChunksOf(sections[..n], maxTokens, overlapTokens, al);
      var more := ChunksOfPieces(sections[n], SectionPiecesOf(sections[n], maxTokens, overlapTokens, al), |before|, al);
      ChunkTexts(ChunksOf(sections[..n + 1], maxTokens, overlapTokens, al)) == ChunkTexts(before) + ChunkTexts(more)
  {
    assert sections[..n + 1][..n] == sections[..n];
    var before := ChunksOf(sections[..n], maxTokens, overlapTokens, al);
    ChunkTextsOfConcat(before,
      ChunksOfPieces(sections[n], SectionPiecesOf(sections[n], maxTokens, overlapTokens, al), |before|, al));
  }

  /** chunk_document: section number, text and position of every chunk. */
  method ChunkDocument(sections: seq<Section>, maxTokens: nat, overlapTokens: nat, al: Alphabet)
    returns (shown: seq<(nat, string, nat)>)
    requires al.Valid()
    ensures shown == ChunkTexts(ChunksOf(sections, maxTokens, overlapTokens, al))
  {
    shown := [];
    for n := 0 to |sections|
      invariant shown == ChunkTexts(ChunksOf(sections[..n], maxTokens, overlapTokens, al))
    {
      ChunksOfNext(sections, n, maxTokens, overlapTokens, al);
      var more := ChunkSection(sections[n], maxTokens, overlapTokens, |shown|, al);
      shown := shown + more;
    }
    assert sections[..|sections|] == sections;
  }
}
