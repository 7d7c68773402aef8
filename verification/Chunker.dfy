/** Cutting documents into chunks (split_sections, _windows, _section_pieces, chunk_document). */
module Chunker {
  import opened Collections
  import opened Tokens

  /** A piece of a section, and how many of its leading tokens the piece before it already has. */
  datatype Piece = Piece(text: string, skip: nat)

  function TextsOf(pieces: seq<Piece>): (texts: seq<string>)
    ensures |texts| == |pieces| && forall i :: 0 <= i < |pieces| ==> texts[i] == pieces[i].text
  {
    seq(|pieces|, i requires 0 <= i < |pieces| => pieces[i].text)
  }

  /** The tokens of all texts, one after the other. */
  function ToksOfAll(texts: seq<string>, al: Alphabet): seq<string> {
    if texts == [] then [] else ToksOfAll(texts[..|texts| - 1], al) + Toks(texts[|texts| - 1], al)
  }

  function NewToks(p: Piece, al: Alphabet): seq<string> {
    if p.skip <= |Toks(p.text, al)| then Toks(p.text, al)[p.skip..] else []
  }

  /** What is left of all pieces' tokens when the repeated ones are dropped. */
  function Restored(pieces: seq<Piece>, al: Alphabet): seq<string> {
    if pieces == [] then [] else NewToks(pieces[0], al) + Restored(pieces[1..], al)
  }

  ghost predicate Bounded(pieces: seq<Piece>, budget: nat, al: Alphabet) {
    forall i :: 0 <= i < |pieces| ==> |Toks(pieces[i].text, al)| <= budget
  }

  lemma {:induction false} RestoredOfConcat(a: seq<Piece>, b: seq<Piece>, al: Alphabet)
    ensures Restored(a + b, al) == Restored(a, al) + Restored(b, al)
  {
    if a == [] {
      assert a + b == b;
    } else {
      assert (a + b)[1..] == a[1..] + b;
      RestoredOfConcat(a[1..], b, al);
    }
  }

  // ----- Windows over one long paragraph -----

  function Min(a: nat, b: nat): nat { if a < b then a else b }

  function Max(a: int, b: int): int { if a > b then a else b }

  /** The tokens a to b of a paragraph, of which the window before already has the first skip. */
  datatype Range = Range(a: nat, b: nat, skip: nat)

  /** The windows over n tokens, from start on, each a step further; the first of them repeats skip tokens. */
  function Ranges(n: nat, start: nat, budget: nat, step: nat, skip: nat): seq<Range>
    requires 1 <= step <= budget && start < n
    decreases n - start
  {
    var end := Min(start + budget, n);
    if end == n then [Range(start, end, skip)]
    else [Range(start, end, skip)] + Ranges(n, start + step, budget, step, budget - step)
  }

  ghost predicate Within(r: Range, n: nat, budget: nat) {
    r.a < r.b <= n && r.a + r.skip <= r.b && r.b - r.a <= budget
  }

  ghost predicate AllWithin(ranges: seq<Range>, n: nat, budget: nat) {
    forall i :: 0 <= i < |ranges| ==> Within(ranges[i], n, budget)
  }

  /** The tokens of the ranges without the repeated ones. */
  ghost function Covered<T>(toks: seq<T>, ranges: seq<Range>, budget: nat): seq<T>
    requires AllWithin(ranges, |toks|, budget)
  {
    if ranges == [] then [] else toks[ranges[0].a + ranges[0].skip..ranges[0].b] + Covered(toks, ranges[1..], budget)
  }

  lemma {:induction false} CoveredNext<T>(toks: seq<T>, r: Range, rest: seq<Range>, budget: nat)
    requires Within(r, |toks|, budget) && AllWithin(rest, |toks|, budget) && Covered(toks, rest, budget) == toks[r.b..]
    ensures AllWithin([r] + rest, |toks|, budget) && Covered(toks, [r] + rest, budget) == toks[r.a + r.skip..]
  {
    assert ([r] + rest)[1..] == rest;
    Slices(toks, r.a + r.skip, r.b);
  }

  ghost predicate Covers<T>(ranges: seq<Range>, toks: seq<T>, from: nat, budget: nat) {
    from <= |toks| && AllWithin(ranges, |toks|, budget) && Covered(toks, ranges, budget) == toks[from..]
  }

  /** Every window is within the budget, and without the repeated tokens the windows are all of them. */
  lemma {:induction false} RangesCover<T>(toks: seq<T>, start: nat, budget: nat, step: nat, skip: nat, from: nat)
    requires 1 <= step <= budget && start < |toks| && start + skip == from <= |toks| && skip <= budget
    ensures Covers(Ranges(|toks|, start, budget, step, skip), toks, from, budget)
    decreases |toks| - start
  {
    var end := Min(start + budget, |toks|);
    if end < |toks| {
      RangesCover(toks, start + step, budget, step, budget - step, end);
      CoveredNext(toks, Range(start, end, skip), Ranges(|toks|, start + step, budget, step, budget - step), budget);
    } else {
      CoveredNext(toks, Range(start, end, skip), [], budget);
    }
  }

  /** k steps are the fewest that cover the distance. */
  ghost predicate FewestSteps(k: nat, step: nat, distance: int) {
    if distance <= 0 then k == 0 else k > 0 && (k - 1) * step < distance <= k * step
  }

  lemma {:induction false} OneStepMore(k: nat, step: nat, distance: int)
    requires FewestSteps(k, step, distance - step) && distance > 0 && step > 0
    ensures FewestSteps(k + 1, step, distance)
  {
    assert (k + 1) * step == k * step + step;
    if k > 0 {
      assert k * step == (k - 1) * step + step;
    }
  }

  /** One window, and then as many more as it takes to cover the tokens beyond the budget. */
  lemma {:induction false} RangeCount(n: nat, start: nat, budget: nat, step: nat, skip: nat)
    requires 1 <= step <= budget && start < n
    ensures |Ranges(n, start, budget, step, skip)| >= 1
    ensures FewestSteps(|Ranges(n, start, budget, step, skip)| - 1, step, n - start - budget)
    decreases n - start
  {
    if start + budget < n {
      RangeCount(n, start + step, budget, step, budget - step);
      OneStepMore(|Ranges(n, start + step, budget, step, budget - step)| - 1, step, n - start - budget);
    }
  }

  /** A window that is not the last spans the whole budget, and the next starts a step further and repeats the rest. */
  lemma {:induction false} NextRange(n: nat, start: nat, budget: nat, step: nat, skip: nat, i: nat)
    requires 1 <= step <= budget && start < n && i + 1 < |Ranges(n, start, budget, step, skip)|
    ensures var r := Ranges(n, start, budget, step, skip);
      r[i].b == r[i].a + budget < r[i + 1].b <= n && r[i + 1].a == r[i].a + step && r[i + 1].skip == budget - step
    decreases n - start
  {
    if i > 0 {
      NextRange(n, start + step, budget, step, budget - step, i - 1);
    }
  }

  // ----- The windows as texts -----

  lemma {:induction false} WindowIs(s: string, al: Alphabet, a: nat, b: nat)
    requires al.Valid() && a < b <= |Toks(s, al)|
    ensures |Spans(s, 0, al)| == |Toks(s, al)| && Spans(s, 0, al)[a].start <= Spans(s, 0, al)[b - 1].end <= |s|
    ensures Toks(s[Spans(s, 0, al)[a].start..Spans(s, 0, al)[b - 1].end], al) == Toks(s, al)[a..b]
  {
    AsManySpans(s, 0, al);
    WindowTokens(s, al, a, b);
  }

  function Window(s: string, al: Alphabet, a: nat, b: nat): (w: string)
    requires al.Valid() && a < b <= |Toks(s, al)|
    ensures Toks(w, al) == Toks(s, al)[a..b]
  {
    WindowIs(s, al, a, b);
    s[Spans(s, 0, al)[a].start..Spans(s, 0, al)[b - 1].end]
  }

  function PiecesOf(s: string, al: Alphabet, ranges: seq<Range>): (pieces: seq<Piece>)
    requires al.Valid() && forall i :: 0 <= i < |ranges| ==> ranges[i].a < ranges[i].b <= |Toks(s, al)|
    ensures |pieces| == |ranges|
    ensures forall i :: 0 <= i < |ranges| ==>
      pieces[i] == Piece(Window(s, al, ranges[i].a, ranges[i].b), ranges[i].skip)
  {
    seq(|ranges|, i requires 0 <= i < |ranges| => Piece(Window(s, al, ranges[i].a, ranges[i].b), ranges[i].skip))
  }

  lemma {:induction false} RangesAreInside(n: nat, start: nat, budget: nat, step: nat, skip: nat)
    requires 1 <= step <= budget && start < n
    ensures forall i :: 0 <= i < |Ranges(n, start, budget, step, skip)| ==>
      Ranges(n, start, budget, step, skip)[i].a < Ranges(n, start, budget, step, skip)[i].b <= n
    decreases n - start
  {
    if start + budget < n {
      RangesAreInside(n, start + step, budget, step, budget - step);
    }
  }

  /** _windows, with the repeated tokens of every window counted. */
  function WindowsOf(s: string, al: Alphabet, budget: nat, overlap: nat): seq<Piece>
    requires al.Valid() && overlap < budget && Toks(s, al) != []
  {
    RangesAreInside(|Toks(s, al)|, 0, budget, budget - overlap, 0);
    PiecesOf(s, al, Ranges(|Toks(s, al)|, 0, budget, budget - overlap, 0))
  }

  ghost predicate Inside(ranges: seq<Range>, n: nat) {
    forall i :: 0 <= i < |ranges| ==> ranges[i].a < ranges[i].b <= n
  }

  lemma {:induction false} PiecesTail(s: string, al: Alphabet, ranges: seq<Range>)
    requires al.Valid() && Inside(ranges, |Toks(s, al)|) && ranges != []
    ensures Inside(ranges[1..], |Toks(s, al)|) && PiecesOf(s, al, ranges)[1..] == PiecesOf(s, al, ranges[1..])
  {
  }

  lemma {:induction false} FirstPieceRestored(s: string, al: Alphabet, ranges: seq<Range>, budget: nat)
    requires al.Valid() && AllWithin(ranges, |Toks(s, al)|, budget) && Inside(ranges, |Toks(s, al)|) && ranges != []
    ensures NewToks(PiecesOf(s, al, ranges)[0], al) == Toks(s, al)[ranges[0].a + ranges[0].skip..ranges[0].b]
  {
    var r := ranges[0];
    assert Within(r, |Toks(s, al)|, budget);
    SliceOfSlice(Toks(s, al), r.a, r.skip, r.b);
  }

  lemma {:induction false} RestoredIsCovered(s: string, al: Alphabet, ranges: seq<Range>, budget: nat)
    requires al.Valid() && AllWithin(ranges, |Toks(s, al)|, budget) && Inside(ranges, |Toks(s, al)|)
    ensures Restored(PiecesOf(s, al, ranges), al) == Covered(Toks(s, al), ranges, budget)
  {
    if ranges != [] {
      FirstPieceRestored(s, al, ranges, budget);
      PiecesTail(s, al, ranges);
      RestoredIsCovered(s, al, ranges[1..], budget);
    }
  }

  /** Every window holds at most the budget, and without the repeated tokens they are the paragraph's tokens. */
  lemma {:induction false} WindowsRestore(s: string, al: Alphabet, budget: nat, overlap: nat)
    requires al.Valid() && overlap < budget && Toks(s, al) != []
    ensures Bounded(WindowsOf(s, al, budget, overlap), budget, al)
    ensures Restored(WindowsOf(s, al, budget, overlap), al) == Toks(s, al)
  {
    var ranges := Ranges(|Toks(s, al)|, 0, budget, budget - overlap, 0);
    RangesCover(Toks(s, al), 0, budget, budget - overlap, 0, 0);
    RestoredIsCovered(s, al, ranges, budget);
    assert Toks(s, al)[0..] == Toks(s, al);
    var pieces := WindowsOf(s, al, budget, overlap);
    forall i | 0 <= i < |pieces| ensures |Toks(pieces[i].text, al)| <= budget {
      assert Within(ranges[i], |Toks(s, al)|, budget);
    }
  }

  /** A paragraph of n tokens gives one window and then as many more as it takes to cover the n - budget others. */
  lemma {:induction false} WindowCount(s: string, al: Alphabet, budget: nat, overlap: nat)
    requires al.Valid() && overlap < budget && Toks(s, al) != []
    ensures |WindowsOf(s, al, budget, overlap)| >= 1
    ensures FewestSteps(|WindowsOf(s, al, budget, overlap)| - 1, budget - overlap, |Toks(s, al)| - budget)
  {
    RangeCount(|Toks(s, al)|, 0, budget, budget - overlap, 0);
  }

  /** The last elements of one list are the first of the other. */
  ghost predicate Share<T>(x: seq<T>, y: seq<T>, overlap: nat) {
    overlap <= |x| && overlap <= |y| && x[|x| - overlap..] == y[..overlap]
  }

  /** Each window repeats exactly the last tokens of the one before, and counts them as repeated. */
  ghost predicate Overlapping(windows: seq<Piece>, overlap: nat, al: Alphabet) {
    forall i :: 0 < i < |windows| ==> RepeatsOnly(windows[i - 1], windows[i], overlap, al)
  }

  ghost predicate RepeatsOnly(before: Piece, window: Piece, overlap: nat, al: Alphabet) {
    window.skip == overlap && Share(Toks(before.text, al), Toks(window.text, al), overlap)
  }

  lemma {:induction false} SlicesShare<T>(toks: seq<T>, r: Range, t: Range, budget: nat, overlap: nat)
    requires r.a < r.b == r.a + budget < t.b <= |toks| && t.a == r.a + budget - overlap && overlap < budget
    ensures Share(toks[r.a..r.b], toks[t.a..t.b], overlap)
  {
  }

  lemma {:induction false} WindowAt(s: string, al: Alphabet, budget: nat, overlap: nat, i: nat)
    requires al.Valid() && overlap < budget && Toks(s, al) != [] && i < |WindowsOf(s, al, budget, overlap)|
    ensures var ranges, piece := Ranges(|Toks(s, al)|, 0, budget, budget - overlap, 0),
      WindowsOf(s, al, budget, overlap)[i];
      |ranges| == |WindowsOf(s, al, budget, overlap)| && ranges[i].a < ranges[i].b <= |Toks(s, al)|
      && Toks(piece.text, al) == Toks(s, al)[ranges[i].a..ranges[i].b] && piece.skip == ranges[i].skip
  {
    RangesAreInside(|Toks(s, al)|, 0, budget, budget - overlap, 0);
  }

  /** Consecutive windows share exactly the overlap. */
  lemma {:induction false} WindowsOverlap(s: string, al: Alphabet, budget: nat, overlap: nat)
    requires al.Valid() && overlap < budget && Toks(s, al) != []
    ensures Overlapping(WindowsOf(s, al, budget, overlap), overlap, al)
  {
    var toks, windows := Toks(s, al), WindowsOf(s, al, budget, overlap);
    var ranges := Ranges(|toks|, 0, budget, budget - overlap, 0);
    forall i | 0 < i < |windows| ensures RepeatsOnly(windows[i - 1], windows[i], overlap, al) {
      WindowAt(s, al, budget, overlap, i - 1);
      WindowAt(s, al, budget, overlap, i);
      NextRange(|toks|, 0, budget, budget - overlap, 0, i - 1);
      SlicesShare(toks, ranges[i - 1], ranges[i], budget, overlap);
    }
  }

  lemma {:induction false} WindowIsAStretch(s: string, al: Alphabet, a: nat, b: nat) returns (p: nat, q: nat)
    requires al.Valid() && a < b <= |Toks(s, al)|
    ensures p < q <= |s| && !al.space(s[p]) && !al.space(s[q - 1]) && Window(s, al, a, b) == s[p..q]
  {
    WindowIs(s, al, a, b);
    var y, x;
    p, y := SpansAreSolid(s, 0, al, a);
    x, q := SpansAreSolid(s, 0, al, b - 1);
    SpansAreOrdered(s, 0, al, a, b - 1);
  }

  /** Every window is a stretch of the paragraph as it stands there, from one visible character to another. */
  lemma {:induction false} WindowsAreStretches(s: string, al: Alphabet, budget: nat, overlap: nat, i: nat)
    returns (p: nat, q: nat)
    requires al.Valid() && overlap < budget && Toks(s, al) != [] && i < |WindowsOf(s, al, budget, overlap)|
    ensures p < q <= |s| && !al.space(s[p]) && !al.space(s[q - 1])
    ensures WindowsOf(s, al, budget, overlap)[i].text == s[p..q]
  {
    var ranges := Ranges(|Toks(s, al)|, 0, budget, budget - overlap, 0);
    RangesAreInside(|Toks(s, al)|, 0, budget, budget - overlap, 0);
    p, q := WindowIsAStretch(s, al, ranges[i].a, ranges[i].b);
  }

  /** Where the loop stands: the ranges from the k-th on start at token start. */
  ghost predicate StandsAt(all: seq<Range>, k: nat, n: nat, start: nat, budget: nat, step: nat, skip: nat) {
    1 <= step <= budget && start < n && k <= |all| && all[k..] == Ranges(n, start, budget, step, skip)
  }

  lemma {:induction false} RangeHead(all: seq<Range>, k: nat, n: nat, start: nat, budget: nat, step: nat, skip: nat)
    requires StandsAt(all, k, n, start, budget, step, skip)
    ensures var end := Min(start + budget, n);
      && k < |all| && all[k] == Range(start, end, skip)
      && (end == n ==> |all| == k + 1)
      && (end < n ==> StandsAt(all, k + 1, n, start + step, budget, step, budget - step))
  {
    assert all[k..][1..] == all[k + 1..];
  }

  /** The loop's next window is the next of the specification. */
  lemma {:induction false} NextWindow(s: string, al: Alphabet, budget: nat, overlap: nat, k: nat, start: nat, skip: nat)
    requires al.Valid() && overlap < budget && Toks(s, al) != []
    requires StandsAt(Ranges(|Toks(s, al)|, 0, budget, budget - overlap, 0), k, |Toks(s, al)|, start, budget,
      budget - overlap, skip)
    ensures var n, target := |Toks(s, al)|, TextsOf(WindowsOf(s, al, budget, overlap));
      var end := Min(start + budget, n);
      && k < |target| && target[k] == Window(s, al, start, end)
      && (end == n ==> |target| == k + 1)
      && (end < n ==>
        StandsAt(Ranges(n, 0, budget, budget - overlap, 0), k + 1, n, start + budget - overlap, budget,
        budget - overlap, overlap))
  {
    var ranges := Ranges(|Toks(s, al)|, 0, budget, budget - overlap, 0);
    RangeHead(ranges, k, |Toks(s, al)|, start, budget, budget - overlap, skip);
    RangesAreInside(|Toks(s, al)|, 0, budget, budget - overlap, 0);
  }

  /** Where the loop stands: the pieces so far are the first windows, and the next one starts at token start. */
  ghost predicate Cutting(s: string, al: Alphabet, budget: nat, overlap: nat, pieces: seq<string>, start: nat,
                          skip: nat)
    requires al.Valid() && overlap < budget && Toks(s, al) != []
  {
    && pieces <= TextsOf(WindowsOf(s, al, budget, overlap))
    && StandsAt(Ranges(|Toks(s, al)|, 0, budget, budget - overlap, 0), |pieces|, |Toks(s, al)|, start, budget,
      budget - overlap, skip)
  }

  lemma {:induction false} OneLonger(pieces: seq<string>, target: seq<string>)
    requires |pieces| < |target| && pieces <= target
    ensures pieces + [target[|pieces|]] <= target
  {
  }

  lemma {:induction false} CutNext(s: string, al: Alphabet, budget: nat, overlap: nat, pieces: seq<string>, start: nat,
                                   skip: nat)
    requires al.Valid() && overlap < budget && Toks(s, al) != [] && start < |Toks(s, al)|
    requires Cutting(s, al, budget, overlap, pieces, start, skip)
    ensures var end := Min(start + budget, |Toks(s, al)|); var more := pieces + [Window(s, al, start, end)];
      if end == |Toks(s, al)| then more == TextsOf(WindowsOf(s, al, budget, overlap))
      else Cutting(s, al, budget, overlap, more, start + budget - overlap, overlap)
  {
    NextWindow(s, al, budget, overlap, |pieces|, start, skip);
    OneLonger(pieces, TextsOf(WindowsOf(s, al, budget, overlap)));
  }

  /** _windows */
  method Windows(paragraph: string, al: Alphabet, budget: nat, overlap: nat) returns (pieces: seq<string>)
    requires al.Valid() && overlap < budget && Toks(paragraph, al) != []
    ensures pieces == TextsOf(WindowsOf(paragraph, al, budget, overlap))
  {
    var n := |Spans(paragraph, 0, al)|;
    AsManySpans(paragraph, 0, al);
    var step := Max(budget - overlap, 1);
    pieces := [];
    var start, done := 0, false;
    ghost var skip: nat := 0;
    StartsCutting(paragraph, al, budget, overlap);
    while start < n && !done
      invariant if done then pieces == TextsOf(WindowsOf(paragraph, al, budget, overlap))
        else start < n && Cutting(paragraph, al, budget, overlap, pieces, start, skip)
      decreases n - start, !done
    {
      var end := Min(start + budget, n);
      CutNext(paragraph, al, budget, overlap, pieces, start, skip);
      pieces := pieces + [Window(paragraph, al, start, end)];
      if end == n {
        done := true;
      } else {
        start, skip := start + step, overlap;
      }
    }
  }

  lemma {:induction false} StartsCutting(s: string, al: Alphabet, budget: nat, overlap: nat)
    requires al.Valid() && overlap < budget && Toks(s, al) != []
    ensures Cutting(s, al, budget, overlap, [], 0, 0)
  {
    var all := Ranges(|Toks(s, al)|, 0, budget, budget - overlap, 0);
    assert all[0..] == all;
  }
}
