/** Packing a section's paragraphs into pieces under a token budget (_section_pieces). */
module Packing {
  import opened Collections
  import opened Options
  import opened Text
  import opened Tokens
  import opened Chunker

  // ----- Paragraphs -----

  /** The end of a run of blanks and tabs. */
  function BlankEnd(s: string, p: nat): (e: nat)
    requires p <= |s|
    ensures p <= e <= |s|
    decreases |s| - p
  {
    if p < |s| && (s[p] == ' ' || s[p] == '\t') then BlankEnd(s, p + 1) else p
  }

  /** A paragraph break at p: a newline, blanks or tabs, and another newline. */
  predicate BreaksAt(s: string, p: nat) {
    p < |s| && s[p] == '\n' && BlankEnd(s, p + 1) < |s| && s[BlankEnd(s, p + 1)] == '\n'
  }

  function FirstBreak(s: string, from: nat): (p: Option<nat>)
    requires from <= |s|
    ensures p.Some? ==> from <= p.value && BreaksAt(s, p.value)
    decreases |s| - from
  {
    if from == |s| then None
    else if BreaksAt(s, from) then Some(from)
    else FirstBreak(s, from + 1)
  }

  /** Split at every break, each part stripped. */
  function Paragraphs(s: string, al: Alphabet): seq<string>
    decreases |s|
  {
    match FirstBreak(s, 0)
    case None => [Strip(s, al.space)]
    case Some(p) => [Strip(s[..p], al.space)] + Paragraphs(s[BlankEnd(s, p + 1) + 1..], al)
  }

  lemma {:induction false} BlanksAreSpace(s: string, p: nat, al: Alphabet)
    requires al.Valid() && p <= |s|
    ensures AllSpace(s[p..BlankEnd(s, p)], al.space)
    decreases |s| - p
  {
    if p < |s| && (s[p] == ' ' || s[p] == '\t') {
      BlanksAreSpace(s, p + 1, al);
      assert s[p..BlankEnd(s, p)] == [s[p]] + s[p + 1..BlankEnd(s, p)];
    }
  }

  lemma {:induction false} BreakIsSpace(s: string, p: nat, al: Alphabet)
    requires al.Valid() && BreaksAt(s, p)
    ensures var e := BlankEnd(s, p + 1) + 1;
      AllSpace(s[p..e], al.space) && s[p..e] != "" && s == s[..p] + (s[p..e] + s[e..])
  {
    var e := BlankEnd(s, p + 1);
    BlanksAreSpace(s, p + 1, al);
    assert s[p..e + 1] == ['\n'] + s[p + 1..e] + ['\n'];
    InThree(s, p, e + 1);
  }

  lemma {:induction false} ToksOfAllCons(x: string, rest: seq<string>, al: Alphabet)
    ensures ToksOfAll([x] + rest, al) == Toks(x, al) + ToksOfAll(rest, al)
  {
    var all := [x] + rest;
    if rest == [] {
      assert all == [x] && all[..0] == [];
      assert ToksOfAll([x], al) == [] + Toks(x, al);
    } else {
      assert all[..|all| - 1] == [x] + rest[..|rest| - 1];
      ToksOfAllCons(x, rest[..|rest| - 1], al);
    }
  }

  // ----- The paragraphs are those between blank lines -----

  ghost predicate HoldsNoBreak(s: string) {
    forall p :: 0 <= p < |s| ==> !BreaksAt(s, p)
  }

  lemma {:induction false} FirstBreakIsFirst(s: string, from: nat, q: nat)
    requires from <= q < |s| && (FirstBreak(s, from).Some? ==> q < FirstBreak(s, from).value)
    ensures !BreaksAt(s, q)
    decreases |s| - from
  {
    if from < q { FirstBreakIsFirst(s, from + 1, q); }
  }

  /** Within a part of a text, a run of blanks that ends before the part does ends where it does in the text. */
  lemma {:induction false} BlankEndInside(s: string, a: nat, b: nat, p: nat)
    requires a <= b <= |s| && p <= b - a && BlankEnd(s[a..b], p) < b - a
    ensures BlankEnd(s, a + p) == a + BlankEnd(s[a..b], p)
    decreases b - a - p
  {
    assert s[a..b][p] == s[a + p];
    if s[a + p] == ' ' || s[a + p] == '\t' {
      BlankEndInside(s, a, b, p + 1);
    }
  }

  lemma {:induction false} PartHoldsNoBreak(s: string, a: nat, b: nat)
    requires a <= b <= |s| && forall q :: a <= q < b ==> !BreaksAt(s, q)
    ensures HoldsNoBreak(s[a..b])
  {
    forall p | 0 <= p < b - a ensures !BreaksAt(s[a..b], p) {
      assert !BreaksAt(s, a + p);
      if BreaksAt(s[a..b], p) {
        BlankEndInside(s, a, b, p + 1);
      }
    }
  }

  lemma {:induction false} StripHoldsNoBreak(s: string, al: Alphabet)
    requires HoldsNoBreak(s)
    ensures HoldsNoBreak(Strip(s, al.space))
  {
    var a, b := SpacesEnd(s, 0, al.space), SolidEnd(s, |s|, al.space);
    if a < b {
      PartHoldsNoBreak(s, a, b);
    }
  }

  lemma {:induction false} BeforeTheFirstBreak(s: string)
    ensures FirstBreak(s, 0).None? ==> HoldsNoBreak(s)
    ensures FirstBreak(s, 0).Some? ==> HoldsNoBreak(s[..FirstBreak(s, 0).value])
  {
    var end := if FirstBreak(s, 0).Some? then FirstBreak(s, 0).value else |s|;
    forall q | 0 <= q < end ensures !BreaksAt(s, q) {
      FirstBreakIsFirst(s, 0, q);
    }
    PartHoldsNoBreak(s, 0, end);
    assert s[0..end] == s[..end] && s[..|s|] == s;
  }

  /** No paragraph holds a blank line. */
  lemma {:induction false} ParagraphsHoldNoBreak(s: string, al: Alphabet)
    ensures forall i :: 0 <= i < |Paragraphs(s, al)| ==> HoldsNoBreak(Paragraphs(s, al)[i])
    decreases |s|
  {
    BeforeTheFirstBreak(s);
    match FirstBreak(s, 0)
    case None => StripHoldsNoBreak(s, al);
    case Some(p) =>
      StripHoldsNoBreak(s[..p], al);
      ParagraphsHoldNoBreak(s[BlankEnd(s, p + 1) + 1..], al);
  }

  /** From p to e a newline, blanks or tabs, and another newline. */
  ghost predicate IsBreak(s: string, p: int, e: int) {
    && 0 <= p && p + 2 <= e <= |s| && s[p] == '\n' && s[e - 1] == '\n'
    && forall i :: p < i < e - 1 ==> s[i] == ' ' || s[i] == '\t'
  }

  lemma {:induction false} BlankEndIs(s: string, p: nat, e: nat)
    requires p <= e < |s| && (forall i :: p <= i < e ==> s[i] == ' ' || s[i] == '\t') && s[e] == '\n'
    ensures BlankEnd(s, p) == e
    decreases e - p
  {
    if p < e { BlankEndIs(s, p + 1, e); }
  }

  lemma {:induction false} BlanksToTheEnd(s: string, p: nat)
    requires p <= |s|
    ensures forall i :: p <= i < BlankEnd(s, p) ==> s[i] == ' ' || s[i] == '\t'
    decreases |s| - p
  {
    if p < |s| && (s[p] == ' ' || s[p] == '\t') { BlanksToTheEnd(s, p + 1); }
  }

  lemma {:induction false} BreaksExactly(s: string, p: nat)
    ensures BreaksAt(s, p) ==> IsBreak(s, p, BlankEnd(s, p + 1) + 1)
    ensures forall e :: IsBreak(s, p, e) ==> BreaksAt(s, p) && e == BlankEnd(s, p + 1) + 1
  {
    if BreaksAt(s, p) { BlanksToTheEnd(s, p + 1); }
    forall e | IsBreak(s, p, e) ensures BreaksAt(s, p) && e == BlankEnd(s, p + 1) + 1 {
      BlankEndIs(s, p + 1, e - 1);
    }
  }

  ghost predicate FirstBreakFrom(s: string, p: int, e: int) {
    IsBreak(s, p, e) && forall q, f | IsBreak(s, q, f) :: p <= q
  }

  lemma {:induction false} FirstBreakIs(s: string, p: nat, e: nat)
    requires FirstBreakFrom(s, p, e)
    ensures FirstBreak(s, 0) == Some(p) && e == BlankEnd(s, p + 1) + 1
  {
    var first := FirstBreak(s, 0);
    BreaksExactly(s, p);
    if first.None? || p < first.value {
      FirstBreakIsFirst(s, 0, p);
    } else {
      BreaksExactly(s, first.value);
    }
  }

  /** A text without a blank line is one paragraph, stripped. */
  lemma {:induction false} OneParagraph(s: string, al: Alphabet)
    requires forall p, e :: !IsBreak(s, p, e)
    ensures Paragraphs(s, al) == [Strip(s, al.space)]
  {
    var first := FirstBreak(s, 0);
    if first.Some? {
      BreaksExactly(s, first.value);
      assert false;
    }
  }

  /** Any other text is split at its first blank line, and again behind that. */
  lemma {:induction false} ParagraphsSplitAtBreaks(s: string, p: nat, e: nat, al: Alphabet)
    requires FirstBreakFrom(s, p, e)
    ensures Paragraphs(s, al) == [Strip(s[..p], al.space)] + Paragraphs(s[e..], al)
  {
    FirstBreakIs(s, p, e);
    ParagraphsFrom(s, p, al);
  }

  // ----- Paragraphs and tokens -----

  lemma {:induction false} ToksAroundBreak(s: string, p: nat, al: Alphabet)
    requires al.Valid() && BreaksAt(s, p)
    ensures Toks(s, al) == Toks(s[..p], al) + Toks(s[BlankEnd(s, p + 1) + 1..], al)
  {
    var e := BlankEnd(s, p + 1) + 1;
    BreakIsSpace(s, p, al);
    ToksAcrossSpace(s[..p], s[p..e], s[e..], al);
  }

  lemma {:induction false} OnlyParagraph(s: string, al: Alphabet)
    requires al.Valid()
    ensures ToksOfAll([Strip(s, al.space)], al) == Toks(s, al)
  {
    ToksOfStrip(s, al);
    ToksOfOne(Strip(s, al.space), al);
  }

  lemma {:induction false} FirstParagraph(s: string, p: nat, rest: string, more: seq<string>, al: Alphabet)
    requires al.Valid() && BreaksAt(s, p) && rest == s[BlankEnd(s, p + 1) + 1..]
    requires ToksOfAll(more, al) == Toks(rest, al)
    ensures ToksOfAll([Strip(s[..p], al.space)] + more, al) == Toks(s, al)
  {
    ToksAroundBreak(s, p, al);
    ToksOfStrip(s[..p], al);
    ToksOfAllCons(Strip(s[..p], al.space), more, al);
  }

  lemma {:induction false} ToksOfOne(x: string, al: Alphabet)
    ensures ToksOfAll([x], al) == Toks(x, al)
  {
    assert [x][..0] == [];
    assert ToksOfAll([x], al) == [] + Toks(x, al);
  }

  lemma {:induction false} ParagraphsFrom(s: string, p: nat, al: Alphabet)
    requires FirstBreak(s, 0) == Some(p)
    ensures Paragraphs(s, al) == [Strip(s[..p], al.space)] + Paragraphs(s[BlankEnd(s, p + 1) + 1..], al)
  {
  }

  /** The paragraphs hold the text's tokens. */
  lemma {:induction false} ParagraphsKeepToks(s: string, al: Alphabet)
    requires al.Valid()
    ensures ToksOfAll(Paragraphs(s, al), al) == Toks(s, al)
    decreases |s|
  {
    match FirstBreak(s, 0)
    case None => OnlyParagraph(s, al);
    case Some(p) =>
      var rest := s[BlankEnd(s, p + 1) + 1..];
      ParagraphsKeepToks(rest, al);
      ParagraphsFrom(s, p, al);
      FirstParagraph(s, p, rest, Paragraphs(rest, al), al);
  }

  // ----- Packing -----

  const PARAGRAPH_SEPARATOR := "\n\n"

  function Packed(current: seq<string>): seq<Piece> {
    if current == [] then [] else [Piece(Join(current, PARAGRAPH_SEPARATOR), 0)]
  }

  /** The pieces of the paragraphs still to come, with some already gathered. */
  function Pack(paragraphs: seq<string>, current: seq<string>, currentTokens: nat, budget: nat, overlap: nat,
                al: Alphabet): seq<Piece>
    requires al.Valid() && overlap < budget
  {
    if paragraphs == [] then Packed(current)
    else
      var p, rest := paragraphs[0], paragraphs[1..];
      var tokens := |Toks(p, al)|;
      if p == "" then Pack(rest, current, currentTokens, budget, overlap, al)
      else if tokens > budget then Packed(current) + (WindowsOf(p, al, budget, overlap) + Pack(rest, [], 0, budget,
        overlap, al))
      else if currentTokens + tokens > budget then Packed(current) + Pack(rest, [p], tokens, budget, overlap, al)
      else Pack(rest, current + [p], currentTokens + tokens, budget, overlap, al)
  }

  lemma {:induction false} ToksOfJoin(current: seq<string>, separator: string, al: Alphabet)
    requires al.Valid() && separator != "" && AllSpace(separator, al.space)
    ensures Toks(Join(current, separator), al) == ToksOfAll(current, al)
  {
    if |current| == 1 {
      assert current[..0] == [] && [] + Toks(current[0], al) == Toks(current[0], al);
    } else if |current| > 1 {
      var before, last := current[..|current| - 1], current[|current| - 1];
      ToksOfJoin(before, separator, al);
      assert Join(current, separator) == Join(before, separator) + (separator + last);
      ToksAcrossSpace(Join(before, separator), separator, last, al);
    }
  }

  lemma {:induction false} PackedIs(current: seq<string>, budget: nat, al: Alphabet)
    requires al.Valid() && |ToksOfAll(current, al)| <= budget
    ensures Restored(Packed(current), al) == ToksOfAll(current, al) && Bounded(Packed(current), budget, al)
  {
    if current != [] {
      ToksOfJoin(current, PARAGRAPH_SEPARATOR, al);
      var piece := Piece(Join(current, PARAGRAPH_SEPARATOR), 0);
      assert [piece][1..] == [] && Toks(piece.text, al)[0..] == Toks(piece.text, al);
    }
  }

  lemma {:induction false} BoundedTogether(a: seq<Piece>, b: seq<Piece>, budget: nat, al: Alphabet)
    requires Bounded(a, budget, al) && Bounded(b, budget, al)
    ensures Bounded(a + b, budget, al)
  {
  }

  lemma {:induction false} ToksOfAllSnoc(texts: seq<string>, last: string, al: Alphabet)
    ensures ToksOfAll(texts + [last], al) == ToksOfAll(texts, al) + Toks(last, al)
  {
    assert (texts + [last])[..|texts|] == texts;
  }

  /** What the pieces amount to. */
  ghost predicate Accounts(pieces: seq<Piece>, toks: seq<string>, budget: nat, al: Alphabet) {
    Restored(pieces, al) == toks && Bounded(pieces, budget, al)
  }

  lemma {:induction false} AccountsTogether(a: seq<Piece>, b: seq<Piece>, x: seq<string>, y: seq<string>, budget: nat,
                                            al: Alphabet)
    requires Accounts(a, x, budget, al) && Accounts(b, y, budget, al)
    ensures Accounts(a + b, x + y, budget, al)
  {
    RestoredOfConcat(a, b, al);
    BoundedTogether(a, b, budget, al);
  }

  /** Every piece is within the budget, and without the repeated tokens they are those of the paragraphs. */
  lemma {:induction false} PackAccounts(paragraphs: seq<string>, current: seq<string>, tokens: nat, budget: nat,
                                        overlap: nat, al: Alphabet)
    requires al.Valid() && overlap < budget && |ToksOfAll(current, al)| == tokens <= budget
    ensures Accounts(Pack(paragraphs, current, tokens, budget, overlap, al),
                     ToksOfAll(current, al) + ToksOfAll(paragraphs, al), budget, al)
    decreases |paragraphs|, 0
  {
    if paragraphs == [] {
      PackedIs(current, budget, al);
      assert ToksOfAll(current, al) + ToksOfAll([], al) == ToksOfAll(current, al);
    } else {
      NextParagraph(paragraphs[0], paragraphs[1..], current, tokens, budget, overlap, al);
      assert [paragraphs[0]] + paragraphs[1..] == paragraphs;
      ToksOfAllCons(paragraphs[0], paragraphs[1..], al);
    }
  }

  lemma {:induction false} NextParagraph(p: string, rest: seq<string>, current: seq<string>, tokens: nat, budget: nat,
                                         overlap: nat, al: Alphabet)
    requires al.Valid() && overlap < budget && |ToksOfAll(current, al)| == tokens <= budget
    ensures Accounts(Pack([p] + rest, current, tokens, budget, overlap, al),
                     ToksOfAll(current, al) + (Toks(p, al) + ToksOfAll(rest, al)), budget, al)
    decreases |rest|, 2
  {
    assert ([p] + rest)[1..] == rest;
    if p == "" {
      PackAccounts(rest, current, tokens, budget, overlap, al);
      assert [] + ToksOfAll(rest, al) == ToksOfAll(rest, al);
    } else if |Toks(p, al)| > budget {
      LongParagraph(p, rest, current, budget, overlap, al);
    } else if tokens + |Toks(p, al)| > budget {
      FreshGroup(p, rest, current, budget, overlap, al);
    } else {
      SameGroup(p, rest, current, tokens + |Toks(p, al)|, budget, overlap, al);
    }
  }

  lemma {:induction false} LongParagraph(p: string, rest: seq<string>, current: seq<string>, budget: nat, overlap: nat,
                                         al: Alphabet)
    requires al.Valid() && overlap < budget && |ToksOfAll(current, al)| <= budget && |Toks(p, al)| > budget
    ensures Accounts(Packed(current) + (WindowsOf(p, al, budget, overlap) + Pack(rest, [], 0, budget, overlap, al)),
                     ToksOfAll(current, al) + (Toks(p, al) + ToksOfAll(rest, al)), budget, al)
    decreases |rest|, 1
  {
    PackedIs(current, budget, al);
    WindowsRestore(p, al, budget, overlap);
    PackAccounts(rest, [], 0, budget, overlap, al);
    assert [] + ToksOfAll(rest, al) == ToksOfAll(rest, al);
    AccountsTogether(WindowsOf(p, al, budget, overlap), Pack(rest, [], 0, budget, overlap, al), Toks(p, al),
      ToksOfAll(rest, al), budget, al);
    AccountsTogether(Packed(current), WindowsOf(p, al, budget, overlap) + Pack(rest, [], 0, budget, overlap, al),
                     ToksOfAll(current, al), Toks(p, al) + ToksOfAll(rest, al), budget, al);
  }

  lemma {:induction false} FreshGroup(p: string, rest: seq<string>, current: seq<string>, budget: nat, overlap: nat,
                                      al: Alphabet)
    requires al.Valid() && overlap < budget && |ToksOfAll(current, al)| <= budget && |Toks(p, al)| <= budget
    ensures Accounts(Packed(current) + Pack(rest, [p], |Toks(p, al)|, budget, overlap, al),
                     ToksOfAll(current, al) + (Toks(p, al) + ToksOfAll(rest, al)), budget, al)
    decreases |rest|, 1
  {
    PackedIs(current, budget, al);
    ToksOfOne(p, al);
    PackAccounts(rest, [p], |Toks(p, al)|, budget, overlap, al);
    AccountsTogether(Packed(current), Pack(rest, [p], |Toks(p, al)|, budget, overlap, al),
                     ToksOfAll(current, al), Toks(p, al) + ToksOfAll(rest, al), budget, al);
  }

  lemma {:induction false} SameGroup(p: string, rest: seq<string>, current: seq<string>, tokens: nat, budget: nat,
                                     overlap: nat, al: Alphabet)
    requires al.Valid() && overlap < budget && |ToksOfAll(current, al)| + |Toks(p, al)| == tokens <= budget
    ensures Accounts(Pack(rest, current + [p], tokens, budget, overlap, al),
                     ToksOfAll(current, al) + (Toks(p, al) + ToksOfAll(rest, al)), budget, al)
    decreases |rest|, 1
  {
    ToksOfAllSnoc(current, p, al);
    PackAccounts(rest, current + [p], tokens, budget, overlap, al);
    ConcatIsAssociative(ToksOfAll(current, al), Toks(p, al), ToksOfAll(rest, al));
  }

  /** A section's pieces. */
  function PiecesOfSection(body: string, budget: nat, overlap: nat, al: Alphabet): seq<Piece>
    requires al.Valid() && overlap < budget
  {
    Pack(Paragraphs(body, al), [], 0, budget, overlap, al)
  }

  /** A section's pieces are within the budget and lose nothing. */
  lemma {:induction false} SectionPiecesAccount(body: string, budget: nat, overlap: nat, al: Alphabet)
    requires al.Valid() && overlap < budget
    ensures Accounts(PiecesOfSection(body, budget, overlap, al), Toks(body, al), budget, al)
  {
    PackAccounts(Paragraphs(body, al), [], 0, budget, overlap, al);
    ParagraphsKeepToks(body, al);
    assert [] + Toks(body, al) == Toks(body, al);
  }

  // ----- The loop -----

  lemma {:induction false} TextsOfConcat(a: seq<Piece>, b: seq<Piece>)
    ensures TextsOf(a + b) == TextsOf(a) + TextsOf(b)
  {
  }

  /** The texts still to come from these paragraphs, given the group collected so far. */
  ghost function TextsAhead(paragraphs: seq<string>, current: seq<string>, currentTokens: nat, budget: nat,
                            overlap: nat, al: Alphabet): seq<string>
    requires al.Valid() && overlap < budget
  {
    TextsOf(Pack(paragraphs, current, currentTokens, budget, overlap, al))
  }

  /** One turn of the loop: the pieces it appends, and the group it goes on with. */
  method AddParagraph(paragraph: string, current: seq<string>, currentTokens: nat, budget: nat, overlap: nat,
                      al: Alphabet, ghost rest: seq<string>)
    returns (pieces: seq<string>, current': seq<string>, currentTokens': nat)
    requires al.Valid() && overlap < budget
    ensures TextsAhead([paragraph] + rest, current, currentTokens, budget, overlap, al) ==
      pieces + TextsAhead(rest, current', currentTokens', budget, overlap, al)
  {
    assert ([paragraph] + rest)[1..] == rest;
    pieces, current', currentTokens' := [], current, currentTokens;
    if paragraph == "" {
      return;
    }
    var tokens := |Toks(paragraph, al)|;
    if tokens > budget {
      var group := Flush(current);
      var windows := Windows(paragraph, al, budget, overlap);
      pieces, current', currentTokens' := group + windows, [], 0;
      ghost var ahead := Pack(rest, [], 0, budget, overlap, al);
      TextsOfConcat(WindowsOf(paragraph, al, budget, overlap), ahead);
      TextsOfConcat(Packed(current), WindowsOf(paragraph, al, budget, overlap) + ahead);
      ConcatIsAssociative(group, windows, TextsOf(ahead));
    } else if currentTokens + tokens > budget {
      pieces := Flush(current);
      current', currentTokens' := [paragraph], tokens;
      TextsOfConcat(Packed(current), Pack(rest, current', tokens, budget, overlap, al));
    } else {
      current', currentTokens' := current + [paragraph], currentTokens + tokens;
    }
  }

  /** _section_pieces */
  method SectionPieces(body: string, budget: nat, overlap: nat, al: Alphabet) returns (pieces: seq<string>)
    requires al.Valid() && overlap < budget
    ensures pieces == TextsOf(PiecesOfSection(body, budget, overlap, al))
  {
    var paragraphs := Paragraphs(body, al);
    var current: seq<string> := [];
    var currentTokens: nat := 0;
    pieces := [];
    ghost var all := TextsOf(PiecesOfSection(body, budget, overlap, al));
    ghost var ahead := paragraphs;
    assert paragraphs[0..] == paragraphs && pieces + all == all;
    for n := 0 to |paragraphs|
      invariant ahead == paragraphs[n..]
      invariant pieces + TextsAhead(ahead, current, currentTokens, budget, overlap, al) == all
    {
      var more; ghost var rest := paragraphs[n + 1..];
      FirstOfTail(paragraphs, n);
      more, current, currentTokens := AddParagraph(paragraphs[n], current, currentTokens, budget, overlap, al, rest);
      ConcatIsAssociative(pieces, more, TextsAhead(rest, current, currentTokens, budget, overlap, al));
      pieces, ahead := pieces + more, rest;
    }
    assert ahead == [];
    var group := Flush(current);
    pieces := pieces + group;
  }

  method Flush(current: seq<string>) returns (group: seq<string>)
    ensures group == TextsOf(Packed(current))
  {
    group := if current == [] then [] else [Join(current, PARAGRAPH_SEPARATOR)];
  }
}
