/** What the sections of a document are, told by its lines alone (split_sections). */
module Sections {
  import opened Collections
  import opened Options
  import opened Text
  import opened Tokens
  import opened Chunker
  import opened Packing
  import opened GreedyPacking
  import opened Documents

  // ----- Which lines are headings -----

  /** How many of the lines open or close a fenced block. */
  ghost function Fences(lines: seq<string>): nat {
    if lines == [] then 0 else Fences(lines[..|lines| - 1]) + if Fence(lines[|lines| - 1]) then 1 else 0
  }

  /** Line by line, the title read there: a line is a heading only outside the fenced blocks. */
  ghost function TitlesRead(lines: seq<string>, al: Alphabet): (heads: seq<Option<string>>)
    ensures |heads| == |lines|
    ensures forall h :: 0 <= h < |lines| ==>
      heads[h] == if Fences(lines[..h + 1]) % 2 == 0 then Heading(lines[h], al) else None
  {
    seq(|lines|, h requires 0 <= h < |lines| =>
      if Fences(lines[..h + 1]) % 2 == 0 then Heading(lines[h], al) else None)
  }

  ghost predicate IsHead(heads: seq<Option<string>>, h: int) {
    0 <= h < |heads| && heads[h].Some?
  }

  ghost function HeadsBefore(heads: seq<Option<string>>, n: nat): nat {
    if n == 0 then 0 else HeadsBefore(heads, n - 1) + if IsHead(heads, n - 1) then 1 else 0
  }

  // ----- Which stretches of lines are sections -----

  /** Lines a to b: they start the document or follow a heading, end it or precede one, and hold none. */
  ghost predicate IsStretch(heads: seq<Option<string>>, a: int, b: int) {
    && 0 <= a <= b <= |heads|
    && (a == 0 || IsHead(heads, a - 1)) && (b == |heads| || IsHead(heads, b))
    && forall h :: a <= h < b ==> !IsHead(heads, h)
  }

  /** The title read at the line before a, or none at the start. */
  ghost function TitleAt(heads: seq<Option<string>>, a: nat): string {
    if IsHead(heads, a - 1) then heads[a - 1].value else ""
  }

  ghost function BodyOf(lines: seq<string>, a: nat, b: nat, al: Alphabet): string
    requires a <= b <= |lines|
  {
    Strip(Join(lines[a..b], "\n"), al.space)
  }

  /** Numbered by the headings up to the stretch, titled by the last of them, and holding the stretch. */
  ghost function SectionOf(lines: seq<string>, heads: seq<Option<string>>, a: nat, b: nat, al: Alphabet): Section
    requires a <= b <= |lines|
  {
    Section(HeadsBefore(heads, a), TitleAt(heads, a), BodyOf(lines, a, b, al))
  }

  /** The section is that of a stretch that ends before `end`. */
  ghost predicate FromSomeStretch(s: Section, lines: seq<string>, heads: seq<Option<string>>, end: nat, al: Alphabet)
    requires |heads| == |lines|
  {
    s.body != "" && exists a, b | IsStretch(heads, a, b) && b < end :: s == SectionOf(lines, heads, a, b, al)
  }

  /** The sections are those of the stretches that end before `end`, each of them that is not blank. */
  ghost predicate Cover(sections: seq<Section>, lines: seq<string>, heads: seq<Option<string>>, end: nat, al: Alphabet)
    requires |heads| == |lines|
  {
    && (forall s :: s in sections ==> FromSomeStretch(s, lines, heads, end, al))
    && forall a, b | IsStretch(heads, a, b) && b < end && BodyOf(lines, a, b, al) != "" ::
         SectionOf(lines, heads, a, b, al) in sections
  }

  // ----- The loop's variables, told by the lines read so far -----

  /** Where the stretch under way began. */
  ghost function LastStart(heads: seq<Option<string>>, n: nat): (a: nat)
    ensures a <= n
  {
    if n == 0 then 0 else if IsHead(heads, n - 1) then n else LastStart(heads, n - 1)
  }

  lemma {:induction false} LastStartIsTheStart(heads: seq<Option<string>>, n: nat)
    ensures var a := LastStart(heads, n);
      && (a == 0 || IsHead(heads, a - 1))
      && (forall h :: a <= h < n ==> !IsHead(heads, h))
      && HeadsBefore(heads, n) == HeadsBefore(heads, a)
  {
    if n > 0 && !IsHead(heads, n - 1) {
      LastStartIsTheStart(heads, n - 1);
    }
  }

  lemma {:induction false} StretchBeginsAtLastStart(heads: seq<Option<string>>, a: nat, b: nat)
    requires IsStretch(heads, a, b)
    ensures a == LastStart(heads, b)
  {
    LastStartIsTheStart(heads, b);
  }

  /** The stretch under way, its title and its number, apart from the fences. */
  ghost predicate Tracks(sp: Splitting, lines: seq<string>, heads: seq<Option<string>>, n: nat)
    requires n <= |lines|
  {
    var a := LastStart(heads, n);
    sp.bodyLines == lines[a..n] && sp.title == TitleAt(heads, a) && sp.labelNo == HeadsBefore(heads, a)
  }

  lemma {:induction false} FencesNext(lines: seq<string>, n: nat)
    requires n < |lines|
    ensures Fences(lines[..n + 1]) == Fences(lines[..n]) + if Fence(lines[n]) then 1 else 0
  {
    assert lines[..n + 1][..n] == lines[..n];
  }

  /** The loop reads at each line the title that is read there. */
  lemma {:induction false} TitleIsSeen(sp: Splitting, lines: seq<string>, n: nat, al: Alphabet)
    requires n < |lines| && (sp.inFence <==> Fences(lines[..n]) % 2 == 1)
    ensures NextLine(sp, lines[n], al).inFence <==> Fences(lines[..n + 1]) % 2 == 1
    ensures HeadingOf(sp, lines[n], al) == TitlesRead(lines, al)[n]
  {
    FencesNext(lines, n);
  }

  lemma {:induction false} InFenceByParity(lines: seq<string>, n: nat, al: Alphabet)
    requires n <= |lines|
    ensures SplitLines(lines[..n], al).inFence <==> Fences(lines[..n]) % 2 == 1
  {
    if n > 0 {
      InFenceByParity(lines, n - 1, al);
      SplitLinesNext(lines, n - 1, al);
      TitleIsSeen(SplitLines(lines[..n - 1], al), lines, n - 1, al);
    }
  }

  lemma {:induction false} TracksNext(sp: Splitting, lines: seq<string>, heads: seq<Option<string>>, n: nat,
                                      al: Alphabet)
    requires n < |lines| == |heads| && Tracks(sp, lines, heads, n)
    ensures Tracks(Behind(sp, lines[n], heads[n], al), lines, heads, n + 1)
  {
    LastStartIsTheStart(heads, n);
    if heads[n].Some? {
      assert lines[n + 1..n + 1] == [];
    } else {
      var a := LastStart(heads, n);
      assert lines[a..n + 1] == lines[a..n] + [lines[n]];
    }
  }

  /** Closing the stretch under way where it ends covers the stretches up to there. */
  lemma {:induction false} FlushCovers(sp: Splitting, lines: seq<string>, heads: seq<Option<string>>, n: nat,
                                       al: Alphabet)
    requires n <= |lines| == |heads| && Tracks(sp, lines, heads, n) && Cover(sp.sections, lines, heads, n, al)
    requires n == |lines| || IsHead(heads, n)
    ensures Cover(Flushed(sp, al), lines, heads, n + 1, al)
  {
    var a, closed := LastStart(heads, n), Flushed(sp, al);
    LastStartIsTheStart(heads, n);
    assert IsStretch(heads, a, n);
    var s := SectionOf(lines, heads, a, n, al);
    assert closed == if s.body == "" then sp.sections else sp.sections + [s];
    forall t | t in closed ensures FromSomeStretch(t, lines, heads, n + 1, al) {
      assert t in sp.sections ==> FromSomeStretch(t, lines, heads, n, al);
    }
    forall a', b | IsStretch(heads, a', b) && b < n + 1 && BodyOf(lines, a', b, al) != ""
      ensures SectionOf(lines, heads, a', b, al) in closed
    {
      StretchBeginsAtLastStart(heads, a', b);
      assert b < n || closed[|sp.sections|] == s;
    }
  }

  /** No stretch ends before a line that is no heading. */
  lemma {:induction false} NoStretchEndsHere(sections: seq<Section>, lines: seq<string>, heads: seq<Option<string>>,
                                             n: nat, al: Alphabet)
    requires n < |lines| == |heads| && !IsHead(heads, n) && Cover(sections, lines, heads, n, al)
    ensures Cover(sections, lines, heads, n + 1, al)
  {
    forall s | s in sections ensures FromSomeStretch(s, lines, heads, n + 1, al) {
      assert FromSomeStretch(s, lines, heads, n, al);
    }
    forall a, b | IsStretch(heads, a, b) && b < n + 1 && BodyOf(lines, a, b, al) != ""
      ensures SectionOf(lines, heads, a, b, al) in sections
    {
      assert b != n;
    }
  }

  lemma {:induction false} BehindCovers(sp: Splitting, lines: seq<string>, heads: seq<Option<string>>, n: nat,
                                        al: Alphabet)
    requires n < |lines| == |heads| && Tracks(sp, lines, heads, n) && Cover(sp.sections, lines, heads, n, al)
    ensures Cover(Behind(sp, lines[n], heads[n], al).sections, lines, heads, n + 1, al)
  {
    if heads[n].Some? {
      FlushCovers(sp, lines, heads, n, al);
    } else {
      NoStretchEndsHere(sp.sections, lines, heads, n, al);
    }
  }

  ghost predicate Going(sp: Splitting, lines: seq<string>, heads: seq<Option<string>>, n: nat, al: Alphabet)
    requires n <= |lines| == |heads|
  {
    Tracks(sp, lines, heads, n) && Cover(sp.sections, lines, heads, n, al)
  }

  lemma {:induction false} GoingOn(sp: Splitting, lines: seq<string>, heads: seq<Option<string>>, n: nat, f: bool,
                                   al: Alphabet)
    requires n < |lines| == |heads| && Going(sp, lines, heads, n, al)
    ensures Going(Behind(sp, lines[n], heads[n], al).(inFence := f), lines, heads, n + 1, al)
  {
    TracksNext(sp, lines, heads, n, al);
    BehindCovers(sp, lines, heads, n, al);
  }

  lemma {:induction false} LineGoesOn(lines: seq<string>, n: nat, al: Alphabet) returns (f: bool)
    requires n < |lines|
    ensures SplitLines(lines[..n + 1], al)
         == Behind(SplitLines(lines[..n], al), lines[n], TitlesRead(lines, al)[n], al).(inFence := f)
  {
    f := SplitLines(lines[..n + 1], al).inFence;
    InFenceByParity(lines, n, al);
    SplitLinesNext(lines, n, al);
    TitleIsSeen(SplitLines(lines[..n], al), lines, n, al);
  }

  lemma {:induction false} NothingTracked(lines: seq<string>, heads: seq<Option<string>>)
    ensures Tracks(START, lines, heads, 0)
  {
    assert LastStart(heads, 0) == 0 && lines[0..0] == [];
    assert HeadsBefore(heads, 0) == 0 && TitleAt(heads, 0) == "";
  }

  lemma {:induction false} NothingCovered(lines: seq<string>, heads: seq<Option<string>>, al: Alphabet)
    requires |heads| == |lines|
    ensures Cover([], lines, heads, 0, al)
  {
  }

  lemma {:induction false} NothingRead(lines: seq<string>, heads: seq<Option<string>>, al: Alphabet)
    requires |heads| == |lines|
    ensures Going(START, lines, heads, 0, al)
  {
    NothingTracked(lines, heads);
    NothingCovered(lines, heads, al);
  }

  lemma {:induction false} LoopCovers(lines: seq<string>, heads: seq<Option<string>>, n: nat, al: Alphabet)
    requires n <= |lines| && heads == TitlesRead(lines, al)
    ensures Going(SplitLines(lines[..n], al), lines, heads, n, al)
  {
    if n == 0 {
      NothingRead(lines, heads, al);
      assert lines[..0] == [];
    } else {
      var m := n - 1;
      LoopCovers(lines, heads, m, al);
      var f := LineGoesOn(lines, m, al);
      GoingOn(SplitLines(lines[..m], al), lines, heads, m, f, al);
    }
  }

  /**
    * Every section is the stretch of lines behind one heading, or behind the start, under that heading's title and
    * number, and every stretch that is not blank has its section.
    */
  lemma {:induction false} SectionsAreTheStretches(text: string, al: Alphabet)
    ensures Cover(SectionsOf(text, al), Lines(text), TitlesRead(Lines(text), al), |Lines(text)| + 1, al)
  {
    var lines := Lines(text);
    assert lines[..|lines|] == lines;
    LoopCovers(lines, TitlesRead(lines, al), |lines|, al);
    FlushCovers(SplitLines(lines, al), lines, TitlesRead(lines, al), |lines|, al);
  }

  // ----- How a section becomes pieces -----

  /** The title's tokens count against the budget, of which at least one is left and at least one is not repeated. */
  ghost predicate LeavesFor(title: nat, maxTokens: nat, overlapTokens: nat, budget: nat, overlap: nat) {
    && (if title < maxTokens then title + budget == maxTokens else budget == 1)
    && (if overlapTokens < budget then overlap == overlapTokens else overlap + 1 == budget)
  }

  /** Under what its title leaves of the budget, a section's paragraphs are packed greedily. */
  lemma {:induction false} SectionsArePackedGreedily(section: Section, maxTokens: nat, overlapTokens: nat, al: Alphabet)
    returns (budget: nat, overlap: nat, groups: seq<seq<string>>)
    requires al.Valid()
    ensures overlap < budget && LeavesFor(|Toks(section.title, al)|, maxTokens, overlapTokens, budget, overlap)
    ensures WellGrouped(groups, budget, al) && Flat(groups) == NonBlank(Paragraphs(section.body, al))
    ensures SectionPiecesOf(section, maxTokens, overlapTokens, al) == PiecesOfGroups(groups, budget, overlap, al)
  {
    budget := Budget(section, maxTokens, al);
    overlap := Overlap(budget, overlapTokens);
    groups := PiecesAreGreedyGroups(section.body, budget, overlap, al);
  }
}
