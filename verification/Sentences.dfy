/** Incremental sentence splitting of a token stream (_split_sentence and the loop around it). */
module Sentences {
  import opened Collections
  import opened Options
  import opened Text

  predicate IsEnd(c: char) { c == '.' || c == '!' || c == '?' }

  /** End marks are not whitespace. */
  ghost predicate MarksAreSolid(space: Spaces) {
    forall c :: IsEnd(c) ==> !space(c)
  }

  /** Whitespace right after an end mark: where the boundary pattern matches. */
  predicate Boundary(s: string, p: nat, space: Spaces) {
    0 < p < |s| && IsEnd(s[p - 1]) && space(s[p])
  }

  /** The leftmost boundary at or after `from`. */
  function FirstBoundary(s: string, from: nat, space: Spaces): (r: Option<nat>)
    requires from <= |s|
    ensures r.Some? ==> from <= r.value && Boundary(s, r.value, space)
    decreases |s| - from
  {
    if from == |s| then None
    else if Boundary(s, from, space) then Some(from)
    else FirstBoundary(s, from + 1, space)
  }

  /** The first sentence and the text after the whitespace that ends it. */
  function SplitSentence(buffer: string, space: Spaces): (r: Option<(string, string)>)
    ensures r.Some? ==> |r.value.1| < |buffer|
  {
    match FirstBoundary(buffer, 0, space)
    case None => None
    case Some(p) => Some((Strip(buffer[..p + 1], space), buffer[SpacesEnd(buffer, p, space)..]))
  }

  /** Complete sentences, and the text left over. */
  datatype Split = Split(sentences: seq<string>, rest: string)

  /** Splitting until no boundary is left. */
  function SplitAll(buffer: string, space: Spaces): Split
    decreases |buffer|
  {
    match SplitSentence(buffer, space)
    case None => Split([], buffer)
    case Some((sentence, rest)) => Prepend([sentence], SplitAll(rest, space))
  }

  function Prepend(sentences: seq<string>, s: Split): Split {
    Split(sentences + s.sentences, s.rest)
  }

  /** What an answer text amounts to: its complete sentences and the stripped final one (empty when there is none). */
  function OneShot(text: string, space: Spaces): Split {
    var all := SplitAll(text, space);
    Split(all.sentences, Strip(all.rest, space))
  }

  lemma {:induction false} OneShotUnfolds(s: string, space: Spaces)
    ensures SplitSentence(s, space).None? ==> OneShot(s, space) == Split([], Strip(s, space))
    ensures SplitSentence(s, space).Some? ==>
      OneShot(s, space) == Prepend([SplitSentence(s, space).value.0], OneShot(SplitSentence(s, space).value.1, space))
  {
  }

  // ----- Where a sentence ends -----

  /** Whitespace at p behind a full stop, an exclamation mark or a question mark. */
  ghost predicate EndsAt(s: string, p: int, space: Spaces) {
    0 < p < |s| && (s[p - 1] == '.' || s[p - 1] == '!' || s[p - 1] == '?') && space(s[p])
  }

  ghost predicate FirstEnd(s: string, p: int, space: Spaces) {
    EndsAt(s, p, space) && forall q | EndsAt(s, q, space) :: p <= q
  }

  lemma {:induction false} EveryEndIsSeen(s: string, from: nat, p: nat, space: Spaces)
    requires from <= p && EndsAt(s, p, space)
    ensures FirstBoundary(s, from, space).Some? && FirstBoundary(s, from, space).value <= p
    decreases p - from
  {
    if from < p { EveryEndIsSeen(s, from + 1, p, space); }
  }

  lemma {:induction false} BoundaryIsAnEnd(s: string, p: nat, space: Spaces)
    ensures Boundary(s, p, space) <==> EndsAt(s, p, space)
  {
  }

  /** A buffer without such a place holds no complete sentence. */
  lemma {:induction false} NoEndNoSentence(s: string, space: Spaces)
    requires forall p :: !EndsAt(s, p, space)
    ensures SplitAll(s, space) == Split([], s)
  {
    var first := FirstBoundary(s, 0, space);
    if first.Some? {
      BoundaryIsAnEnd(s, first.value, space);
    }
  }

  /** Any other is split at the first: up to there the sentence, and then the rest without the whitespace between. */
  lemma {:induction false} SentencesEndAtTheFirst(s: string, p: nat, e: nat, space: Spaces)
    requires FirstEnd(s, p, space) && p < e <= |s|
    requires AllSpace(s[p..e], space) && (e < |s| ==> !space(s[e]))
    ensures SplitAll(s, space) == Prepend([Strip(s[..p + 1], space)], SplitAll(s[e..], space))
  {
    EveryEndIsSeen(s, 0, p, space);
    var first := FirstBoundary(s, 0, space).value;
    assert EndsAt(s, first, space);
    SpacesEndBetween(s, p, e, space);
  }

  lemma {:induction false} SpacesEndBetween(s: string, p: nat, e: nat, space: Spaces)
    requires p <= e <= |s| && AllSpace(s[p..e], space) && (e < |s| ==> !space(s[e]))
    ensures SpacesEnd(s, p, space) == e
    decreases e - p
  {
    if p < e {
      assert s[p..e][0] == s[p] && s[p + 1..e] == s[p..e][1..];
      SpacesEndBetween(s, p + 1, e, space);
    }
  }

  // ----- Leading whitespace does not matter -----

  lemma {:induction false} BoundariesShift(front: string, s: string, from: nat, space: Spaces)
    requires 0 < from <= |s|
    ensures FirstBoundary(front + s, |front| + from, space) ==
      match FirstBoundary(s, from, space) case None => None case Some(p) => Some(|front| + p)
    decreases |s| - from
  {
    if from < |s| {
      assert Boundary(front + s, |front| + from, space) == Boundary(s, from, space);
      BoundariesShift(front, s, from + 1, space);
    }
  }

  /** No boundary lies within leading whitespace or right after it. */
  lemma {:induction false} NoBoundaryInSpaces(front: string, s: string, from: nat, space: Spaces)
    requires from <= |front| && MarksAreSolid(space) && AllSpace(front, space)
    ensures FirstBoundary(front + s, from, space) == if s == "" then None
      else FirstBoundary(front + s, |front| + 1, space)
    decreases |front| - from
  {
    var t := front + s;
    if from < |t| {
      assert from > 0 ==> t[from - 1] == front[from - 1];
      assert !Boundary(t, from, space);
      if from < |front| {
        NoBoundaryInSpaces(front, s, from + 1, space);
      }
    }
  }

  lemma {:induction false} BoundaryBehindSpaces(front: string, s: string, space: Spaces)
    requires AllSpace(front, space) && MarksAreSolid(space)
    ensures FirstBoundary(front + s, 0, space) ==
      match FirstBoundary(s, 0, space) case None => None case Some(p) => Some(|front| + p)
  {
    NoBoundaryInSpaces(front, s, 0, space);
    if |s| > 0 {
      BoundariesShift(front, s, 1, space);
    }
  }

  lemma {:induction false} SplitBehindSpaces(front: string, s: string, space: Spaces)
    requires AllSpace(front, space) && MarksAreSolid(space)
    ensures SplitSentence(front + s, space) == SplitSentence(s, space)
  {
    BoundaryBehindSpaces(front, s, space);
    match FirstBoundary(s, 0, space)
    case None =>
    case Some(p) =>
      var e := SpacesEnd(s, p, space);
      SpacesEndShifts(front, s, p, space);
      assert (front + s)[..|front| + p + 1] == front + s[..p + 1];
      StripSkips(front, s[..p + 1], space);
      assert (front + s)[|front| + e..] == s[e..];
  }

  lemma {:induction false} LeadingSpacesAreInvisible(front: string, s: string, space: Spaces)
    requires AllSpace(front, space) && MarksAreSolid(space)
    ensures OneShot(front + s, space) == OneShot(s, space)
  {
    SplitBehindSpaces(front, s, space);
    OneShotUnfolds(front + s, space);
    OneShotUnfolds(s, space);
    StripSkips(front, s, space);
  }

  // ----- Splitting can resume from what is left over -----

  lemma {:induction false} BoundaryInPrefix(s: string, t: string, from: nat, space: Spaces)
    requires from <= |s| && FirstBoundary(s, from, space).Some?
    ensures FirstBoundary(s + t, from, space) == FirstBoundary(s, from, space)
    decreases |s| - from
  {
    assert Boundary(s + t, from, space) == Boundary(s, from, space);
    if !Boundary(s, from, space) {
      BoundaryInPrefix(s, t, from + 1, space);
    }
  }

  lemma {:induction false} SpacesEndInPrefix(s: string, t: string, p: nat, space: Spaces)
    requires p <= |s|
    ensures SpacesEnd(s + t, p, space) ==
      if SpacesEnd(s, p, space) < |s| then SpacesEnd(s, p, space) else |s| + SpacesEnd(t, 0, space)
    decreases |s| - p
  {
    if p == |s| {
      SpacesEndShifts(s, t, 0, space);
    } else if space(s[p]) {
      SpacesEndInPrefix(s, t, p + 1, space);
    }
  }

  lemma {:induction false} RestInside(s: string, t: string, e: nat)
    requires e < |s|
    ensures (s + t)[e..] == s[e..] + t
  {
  }

  lemma {:induction false} RestAtTheEnd(s: string, t: string, k: nat)
    requires k <= |t|
    ensures (s + t)[|s| + k..] == t[k..] && s[|s|..] + t == t[..k] + t[k..]
  {
    assert t[..k] + t[k..] == t;
    DropBehind(s, t, k);
  }

  lemma {:induction false} RestAfterSpaces(t: string, space: Spaces)
    requires MarksAreSolid(space)
    ensures var k := SpacesEnd(t, 0, space); OneShot(t[..k] + t[k..], space) == OneShot(t[k..], space)
  {
    var k := SpacesEnd(t, 0, space);
    SpacesEndIsTheEnd(t, 0, space);
    assert t[0..k] == t[..k];
    LeadingSpacesAreInvisible(t[..k], t[k..], space);
  }

  lemma {:induction false} RestIsSettled(s: string, t: string, e: nat, f: nat, space: Spaces)
    requires e <= |s| && f == (if e < |s| then e else |s| + SpacesEnd(t, 0, space)) && MarksAreSolid(space)
    ensures OneShot((s + t)[f..], space) == OneShot(s[e..] + t, space)
  {
    if e < |s| {
      RestInside(s, t, e);
    } else {
      RestIsAfterSpaces(s, t, f, (s + t)[f..], s[e..] + t, space);
    }
  }

  lemma {:induction false} RestIsAfterSpaces(s: string, t: string, f: nat, u: string, v: string, space: Spaces)
    requires MarksAreSolid(space) && f == |s| + SpacesEnd(t, 0, space) && u == (s + t)[f..] && v == s[|s|..] + t
    ensures OneShot(u, space) == OneShot(v, space)
  {
    var k := SpacesEnd(t, 0, space);
    RestAtTheEnd(s, t, k);
    assert u == t[k..] && v == t[..k] + t[k..];
    RestAfterSpaces(t, space);
  }

  /** A sentence found in s is found in s + t, and what follows it amounts to the same. */
  lemma {:induction false} FirstSentenceIsSettled(s: string, t: string, space: Spaces)
    requires SplitSentence(s, space).Some? && MarksAreSolid(space)
    ensures SplitSentence(s + t, space).Some? && SplitSentence(s + t, space).value.0 == SplitSentence(s, space).value.0
    ensures OneShot(SplitSentence(s + t, space).value.1, space) == OneShot(SplitSentence(s, space).value.1 + t, space)
  {
    var p := FirstBoundary(s, 0, space).value;
    BoundaryInPrefix(s, t, 0, space);
    SpacesEndInPrefix(s, t, p, space);
    assert (s + t)[..p + 1] == s[..p + 1];
    RestIsSettled(s, t, SpacesEnd(s, p, space), SpacesEnd(s + t, p, space), space);
  }

  lemma {:induction false} PrependTwice(a: seq<string>, b: seq<string>, s: Split)
    ensures Prepend(a, Prepend(b, s)) == Prepend(a + b, s)
  {
  }

  lemma {:induction false} SplittingResumes(s: string, t: string, space: Spaces)
    requires MarksAreSolid(space)
    ensures OneShot(s + t, space) == Prepend(SplitAll(s, space).sentences, OneShot(SplitAll(s, space).rest + t, space))
    decreases |s|
  {
    match SplitSentence(s, space)
    case None =>
    case Some((sentence, rest)) =>
      FirstSentenceIsSettled(s, t, space);
      OneShotUnfolds(s + t, space);
      SplittingResumes(rest, t, space);
      PrependTwice([sentence], SplitAll(rest, space).sentences, OneShot(SplitAll(rest, space).rest + t, space));
  }

  // ----- The streaming loop as a function of the tokens -----

  function Stream(tokens: seq<string>, space: Spaces): Split {
    if tokens == [] then Split([], "")
    else
      var before := Stream(tokens[..|tokens| - 1], space);
      Prepend(before.sentences, SplitAll(before.rest + tokens[|tokens| - 1], space))
  }

  lemma {:induction false} NothingLeftToSplit(buffer: string, space: Spaces)
    ensures SplitSentence(SplitAll(buffer, space).rest, space).None?
    decreases |buffer|
  {
    if SplitSentence(buffer, space).Some? { NothingLeftToSplit(SplitSentence(buffer, space).value.1, space); }
  }

  /** Whatever comes next, continuing from the loop's state is continuing from the whole text. */
  lemma {:induction false} StreamStandsForTheText(tokens: seq<string>, next: string, space: Spaces)
    requires MarksAreSolid(space)
    ensures OneShot(Concat(tokens) + next, space) ==
      Prepend(Stream(tokens, space).sentences, OneShot(Stream(tokens, space).rest + next, space))
  {
    if tokens != [] {
      var before, token := tokens[..|tokens| - 1], tokens[|tokens| - 1];
      var buffer := Stream(before, space).rest + token;
      StreamStandsForTheText(before, token + next, space);
      assert Concat(tokens) + next == Concat(before) + (token + next);
      assert Stream(before, space).rest + (token + next) == buffer + next;
      SplittingResumes(buffer, next, space);
      PrependTwice(Stream(before, space).sentences, SplitAll(buffer, space).sentences,
        OneShot(SplitAll(buffer, space).rest + next, space));
    }
  }

  lemma {:induction false} StreamIsSplit(tokens: seq<string>, space: Spaces)
    ensures SplitSentence(Stream(tokens, space).rest, space).None?
  {
    if tokens != [] {
      NothingLeftToSplit(Stream(tokens[..|tokens| - 1], space).rest + tokens[|tokens| - 1], space);
    }
  }

  /** The sentences and the stripped remainder depend only on the concatenation of the tokens. */
  lemma {:induction false} StreamingIsOneShot(tokens: seq<string>, space: Spaces)
    requires MarksAreSolid(space)
    ensures OneShot(Concat(tokens), space) ==
      Split(Stream(tokens, space).sentences, Strip(Stream(tokens, space).rest, space))
  {
    StreamStandsForTheText(tokens, "", space);
    StreamIsSplit(tokens, space);
    assert Concat(tokens) + "" == Concat(tokens);
    assert Stream(tokens, space).rest + "" == Stream(tokens, space).rest;
  }

  lemma {:induction false} TokenCutsAreInvisible(a: seq<string>, b: seq<string>, space: Spaces)
    requires MarksAreSolid(space) && Concat(a) == Concat(b)
    ensures Stream(a, space).sentences == Stream(b, space).sentences
    ensures Strip(Stream(a, space).rest, space) == Strip(Stream(b, space).rest, space)
  {
    StreamingIsOneShot(a, space);
    StreamingIsOneShot(b, space);
  }

  // ----- No visible character is lost -----

  lemma {:induction false} SplittingOnceKeepsVisible(buffer: string, space: Spaces)
    requires SplitSentence(buffer, space).Some?
    ensures Visible(SplitSentence(buffer, space).value.0, space) + Visible(SplitSentence(buffer, space).value.1, space)
         == Visible(buffer, space)
  {
    var p := FirstBoundary(buffer, 0, space).value;
    var e := SpacesEnd(buffer, p, space);
    var sentence, gap, rest := buffer[..p], buffer[p..e], buffer[e..];
    VisibleOfParts(buffer, p, e, space);
    SpacesEndIsTheEnd(buffer, p, space);
    VisibleOfSpaces(gap, space);
    assert buffer[..p + 1] == sentence + [buffer[p]];
    VisibleOfConcat(sentence, [buffer[p]], space);
    VisibleOfSpaces([buffer[p]], space);
    VisibleOfStrip(buffer[..p + 1], space);
  }

  lemma {:induction false} ConcatCons(head: string, tail: seq<string>)
    ensures Concat([head] + tail) == head + Concat(tail)
  {
    if tail == [] {
      assert [head] + tail == [head];
      assert Concat([head]) == Concat([head][..0]) + head;
    } else {
      var before, last := tail[..|tail| - 1], tail[|tail| - 1];
      ConcatCons(head, before);
      assert ([head] + tail)[..|tail|] == [head] + before;
      ConcatIsAssociative(head, Concat(before), last);
    }
  }

  lemma {:induction false} SplittingKeepsVisible(buffer: string, space: Spaces)
    ensures Visible(Concat(SplitAll(buffer, space).sentences), space) + Visible(SplitAll(buffer, space).rest,
      space) == Visible(buffer, space)
    decreases |buffer|
  {
    match SplitSentence(buffer, space)
    case None =>
    case Some((sentence, rest)) =>
      var more := SplitAll(rest, space);
      SplittingOnceKeepsVisible(buffer, space);
      SplittingKeepsVisible(rest, space);
      ConcatCons(sentence, more.sentences);
      VisibleOfConcat(sentence, Concat(more.sentences), space);
  }

  /** Sentences and remainder together carry exactly the visible characters of the text, in order. */
  lemma {:induction false} NoVisibleCharacterIsLost(tokens: seq<string>, space: Spaces)
    requires MarksAreSolid(space)
    ensures Visible(Concat(Stream(tokens, space).sentences) + Strip(Stream(tokens, space).rest, space), space)
         == Visible(Concat(tokens), space)
  {
    StreamingIsOneShot(tokens, space);
    var all := SplitAll(Concat(tokens), space);
    SplittingKeepsVisible(Concat(tokens), space);
    VisibleOfConcat(Concat(all.sentences), Strip(all.rest, space), space);
    VisibleOfStrip(all.rest, space);
  }

  // ----- What a sentence looks like -----

  /** Starts visibly, ends with its end mark, and holds no boundary inside. */
  ghost predicate IsSentence(s: string, space: Spaces) {
    s != "" && IsEnd(s[|s| - 1]) && !space(s[0]) && forall p :: 0 <= p < |s| ==> !Boundary(s, p, space)
  }

  lemma {:induction false} NoEarlierBoundary(s: string, from: nat, q: nat, space: Spaces)
    requires from <= q < |s| && (FirstBoundary(s, from, space).Some? ==> q < FirstBoundary(s, from, space).value)
    ensures !Boundary(s, q, space)
    decreases |s| - from
  {
    if from < q { NoEarlierBoundary(s, from + 1, q, space); }
  }

  lemma {:induction false} MarkStopsSpaces(head: string, k: nat, q: nat, space: Spaces)
    requires q < |head| && k <= |head| && IsEnd(head[q]) && AllSpace(head[0..k], space) && MarksAreSolid(space)
    ensures k <= q
  {
    assert forall i :: 0 <= i < k ==> head[0..k][i] == head[i];
  }

  lemma {:induction false} SplitOffIsASentence(buffer: string, space: Spaces)
    requires SplitSentence(buffer, space).Some? && MarksAreSolid(space)
    ensures IsSentence(SplitSentence(buffer, space).value.0, space)
  {
    var p := FirstBoundary(buffer, 0, space).value;
    var head := buffer[..p + 1];
    assert head[p - 1] == buffer[p - 1] && head[p] == buffer[p];
    var k := SpacesEnd(head, 0, space);
    SpacesEndIsTheEnd(head, 0, space);
    MarkStopsSpaces(head, k, p - 1, space);
    assert SolidEnd(head, p + 1, space) == p;
    var s := head[k..p];
    assert s[|s| - 1] == buffer[p - 1] && s[0] == head[k];
    forall q | 0 <= q < |s| ensures !Boundary(s, q, space) {
      NoEarlierBoundary(buffer, 0, k + q, space);
      assert q > 0 ==> s[q - 1] == buffer[k + q - 1] && s[q] == buffer[k + q];
    }
  }

  lemma {:induction false} EveryPieceIsASentence(buffer: string, space: Spaces)
    requires MarksAreSolid(space)
    ensures forall i :: 0 <= i < |SplitAll(buffer, space).sentences| ==>
      IsSentence(SplitAll(buffer, space).sentences[i], space)
    decreases |buffer|
  {
    if SplitSentence(buffer, space).Some? {
      SplitOffIsASentence(buffer, space);
      EveryPieceIsASentence(SplitSentence(buffer, space).value.1, space);
    }
  }

  /** The class of whitespace the source uses meets the assumption. */
  lemma {:induction false} PythonMarksAreSolid()
    ensures MarksAreSolid(PythonSpace)
  {
  }
}
