/** The tokenizer of the chunker: runs of word characters, and every other visible character by itself. */
module Tokens {
  import opened Collections
  import opened Text

  /** Which characters are whitespace and which belong to words; everything else is punctuation. */
  datatype Alphabet = Alphabet(space: char -> bool, word: char -> bool) {
    ghost predicate Valid() {
      && space('\n') && space(' ') && space('\t')
      && forall c :: word(c) ==> !space(c)
    }
  }

  function WordLen(s: string, al: Alphabet): (n: nat)
    ensures n <= |s|
  {
    if s == "" || !al.word(s[0]) then 0 else 1 + WordLen(s[1..], al)
  }

  function TokenLen(s: string, al: Alphabet): (n: nat)
    requires s != ""
    ensures 1 <= n <= |s|
  {
    if al.word(s[0]) then WordLen(s, al) else 1
  }

  /** findall */
  function Toks(s: string, al: Alphabet): seq<string>
    decreases |s|
  {
    if s == "" then []
    else if al.space(s[0]) then Toks(s[1..], al)
    else [s[..TokenLen(s, al)]] + Toks(s[TokenLen(s, al)..], al)
  }

  datatype Span = Span(start: nat, end: nat)

  /** finditer on a text that starts at offset base. */
  function Spans(s: string, base: nat, al: Alphabet): seq<Span>
    decreases |s|
  {
    if s == "" then []
    else if al.space(s[0]) then Spans(s[1..], base + 1, al)
    else
      var n := TokenLen(s, al);
      [Span(base, base + n)] + Spans(s[n..], base + n, al)
  }

  // ----- Where a text may be cut without changing its tokens -----

  /** No word runs across the seam. */
  ghost predicate SafeSeam(a: string, b: string, al: Alphabet) {
    a == "" || b == "" || !(al.word(a[|a| - 1]) && al.word(b[0]))
  }

  lemma {:induction false} WordLenOfConcat(a: string, b: string, al: Alphabet)
    requires SafeSeam(a, b, al) && a != ""
    ensures WordLen(a + b, al) == WordLen(a, al)
  {
    assert (a + b)[1..] == a[1..] + b;
    if al.word(a[0]) {
      if |a| == 1 {
        assert a[1..] + b == b;
      } else {
        assert a[1..][|a| - 2] == a[|a| - 1];
        WordLenOfConcat(a[1..], b, al);
      }
    }
  }

  lemma {:induction false} SeamBehind(a: string, b: string, n: nat, al: Alphabet)
    requires SafeSeam(a, b, al) && n <= |a|
    ensures SafeSeam(a[n..], b, al) && (a + b)[n..] == a[n..] + b
  {
    assert n < |a| ==> a[n..][|a| - n - 1] == a[|a| - 1];
  }

  /** Cut at a safe seam, the two parts have the tokens of the whole. */
  lemma {:induction false} ToksOfConcat(a: string, b: string, al: Alphabet)
    requires SafeSeam(a, b, al)
    ensures Toks(a + b, al) == Toks(a, al) + Toks(b, al)
    decreases |a|
  {
    if a == "" {
      assert a + b == b;
    } else if al.space(a[0]) {
      SeamBehind(a, b, 1, al);
      ToksOfConcat(a[1..], b, al);
    } else {
      var n := TokenLen(a, al);
      WordLenOfConcat(a, b, al);
      SeamBehind(a, b, n, al);
      ToksOfConcat(a[n..], b, al);
      assert (a + b)[..n] == a[..n];
      ConcatIsAssociative([a[..n]], Toks(a[n..], al), Toks(b, al));
    }
  }

  lemma {:induction false} ToksOfSpaces(s: string, al: Alphabet)
    requires AllSpace(s, al.space)
    ensures Toks(s, al) == []
  {
    if s != "" { ToksOfSpaces(s[1..], al); }
  }

  /** Whitespace between two texts only separates their tokens. */
  lemma {:induction false} ToksAcrossSpace(a: string, gap: string, b: string, al: Alphabet)
    requires al.Valid() && AllSpace(gap, al.space) && gap != ""
    ensures Toks(a + (gap + b), al) == Toks(a, al) + Toks(b, al)
  {
    assert (gap + b)[0] == gap[0];
    ToksOfConcat(a, gap + b, al);
    assert b != "" ==> gap[|gap| - 1] == (gap + b)[|gap| - 1];
    ToksOfConcat(gap, b, al);
    ToksOfSpaces(gap, al);
    assert [] + Toks(b, al) == Toks(b, al);
  }

  lemma {:induction false} ToksOfStrip(s: string, al: Alphabet)
    requires al.Valid()
    ensures Toks(Strip(s, al.space), al) == Toks(s, al)
  {
    var a, b := SpacesEnd(s, 0, al.space), SolidEnd(s, |s|, al.space);
    SpacesEndIsTheEnd(s, 0, al.space);
    SolidEndIsTheEnd(s, |s|, al.space);
    assert s[0..a] == s[..a] && s[b..|s|] == s[b..];
    if a < b {
      InThree(s, a, b);
      SpacesBefore(s[..a], s[a..b] + s[b..], al);
      SpacesBehind(s[a..b], s[b..], al);
    } else {
      assert AllSpace(s, al.space);
      ToksOfSpaces(s, al);
    }
  }

  lemma {:induction false} SpacesBefore(gap: string, s: string, al: Alphabet)
    requires al.Valid() && AllSpace(gap, al.space)
    ensures Toks(gap + s, al) == Toks(s, al)
  {
    ToksOfConcat(gap, s, al);
    ToksOfSpaces(gap, al);
    assert [] + Toks(s, al) == Toks(s, al);
  }

  lemma {:induction false} SpacesBehind(s: string, gap: string, al: Alphabet)
    requires al.Valid() && AllSpace(gap, al.space)
    ensures Toks(s + gap, al) == Toks(s, al)
  {
    ToksOfConcat(s, gap, al);
    ToksOfSpaces(gap, al);
    assert Toks(s, al) + [] == Toks(s, al);
  }

  // ----- Spans -----

  lemma {:induction false} WordLenIsMaximal(s: string, al: Alphabet)
    ensures WordLen(s, al) < |s| ==> !al.word(s[WordLen(s, al)])
    ensures forall i :: 0 <= i < WordLen(s, al) ==> al.word(s[i])
  {
    if s != "" && al.word(s[0]) {
      WordLenIsMaximal(s[1..], al);
    }
  }

  /** The first token by itself, and the seam behind it. */
  lemma {:induction false} FirstToken(s: string, al: Alphabet)
    requires s != "" && !al.space(s[0])
    ensures var n := TokenLen(s, al);
      Toks(s[..n], al) == [s[..n]] && (n < |s| ==> !(al.word(s[n - 1]) && al.word(s[n])))
  {
    var n := TokenLen(s, al);
    WordLenIsMaximal(s, al);
    WholeWord(s[..n], al);
  }

  lemma {:induction false} AllWordLen(s: string, al: Alphabet)
    requires forall i :: 0 <= i < |s| ==> al.word(s[i])
    ensures WordLen(s, al) == |s|
  {
    if s != "" { AllWordLen(s[1..], al); }
  }

  lemma {:induction false} WholeWord(s: string, al: Alphabet)
    requires s != "" && !al.space(s[0]) && (|s| == 1 || forall i :: 0 <= i < |s| ==> al.word(s[i]))
    ensures Toks(s, al) == [s]
  {
    if forall i :: 0 <= i < |s| ==> al.word(s[i]) {
      AllWordLen(s, al);
    }
    assert TokenLen(s, al) == |s|;
    assert s[..|s|] == s && s[|s|..] == "";
  }

  /** Whitespace is skipped, a run of word characters is one token, and any other character is one by itself. */
  lemma {:induction false} ToksAreRead(w: string, c: char, rest: string, al: Alphabet)
    requires al.Valid() && w != "" && (forall i :: 0 <= i < |w| ==> al.word(w[i]))
    ensures Toks("", al) == []
    ensures rest == "" || !al.word(rest[0]) ==> Toks(w + rest, al) == [w] + Toks(rest, al)
    ensures !al.word(c) ==> Toks([c] + rest, al) == (if al.space(c) then [] else [[c]]) + Toks(rest, al)
  {
    if rest == "" || !al.word(rest[0]) {
      ToksOfConcat(w, rest, al);
      WholeWord(w, al);
    }
    if !al.word(c) {
      ToksOfConcat([c], rest, al);
      if al.space(c) {
        ToksOfSpaces([c], al);
      } else {
        WholeWord([c], al);
      }
    }
  }

  /** A token starts and ends visibly. */
  lemma {:induction false} SpansAreSolid(s: string, base: nat, al: Alphabet, i: nat) returns (p: nat, q: nat)
    requires al.Valid() && i < |Spans(s, base, al)|
    ensures Spans(s, base, al)[i] == Span(base + p, base + q) && p < q <= |s|
    ensures !al.space(s[p]) && !al.space(s[q - 1])
    decreases |s|
  {
    if al.space(s[0]) {
      p, q := SpansAreSolid(s[1..], base + 1, al, i);
      p, q := p + 1, q + 1;
    } else {
      var n := TokenLen(s, al);
      if i == 0 {
        p, q := 0, n;
        WordLenIsMaximal(s, al);
      } else {
        NextSpan(s, base, n, i, al);
        p, q := SpansAreSolid(s[n..], base + n, al, i - 1);
        p, q := p + n, q + n;
      }
    }
  }

  /** The text up to x holds exactly the first i tokens. */
  ghost predicate CutsAt(s: string, x: nat, i: nat, al: Alphabet) {
    x <= |s| && i <= |Toks(s, al)| && Toks(s[..x], al) == Toks(s, al)[..i]
  }

  /** No word runs across the position x. */
  ghost predicate SafeAt(s: string, x: nat, al: Alphabet) {
    0 < x < |s| ==> !(al.word(s[x - 1]) && al.word(s[x]))
  }

  lemma {:induction false} NextSpan(s: string, base: nat, n: nat, i: nat, al: Alphabet)
    requires s != "" && !al.space(s[0]) && n == TokenLen(s, al) && 0 < i < |Spans(s, base, al)|
    ensures Spans(s, base, al)[i] == Spans(s[n..], base + n, al)[i - 1]
  {
  }

  /** Where the i-th token starts, the text may be cut. */
  lemma {:induction false} StartCuts(s: string, base: nat, al: Alphabet, i: nat) returns (x: nat)
    requires al.Valid() && i < |Spans(s, base, al)|
    ensures Spans(s, base, al)[i].start == base + x && CutsAt(s, x, i, al) && SafeAt(s, x, al)
    decreases |s|
  {
    if al.space(s[0]) {
      var x0 := StartCuts(s[1..], base + 1, al, i);
      CutBehindSpace(s, x0, i, al);
      x := x0 + 1;
    } else if i == 0 {
      x := 0;
      assert s[..0] == "";
    } else {
      var n := TokenLen(s, al);
      var x0 := StartCuts(s[n..], base + n, al, i - 1);
      NextSpan(s, base, n, i, al);
      CutBehindToken(s, n, x0, i - 1, al);
      SafeBehindToken(s, n, x0, al);
      x := n + x0;
    }
  }

  /** The text up to where the i-th token ends holds it and those before. */
  lemma {:induction false} EndCuts(s: string, base: nat, al: Alphabet, i: nat) returns (y: nat)
    requires al.Valid() && i < |Spans(s, base, al)|
    ensures Spans(s, base, al)[i].end == base + y && CutsAt(s, y, i + 1, al)
    decreases |s|
  {
    if al.space(s[0]) {
      var y0 := EndCuts(s[1..], base + 1, al, i);
      CutBehindSpace(s, y0, i + 1, al);
      y := y0 + 1;
    } else if i == 0 {
      y := TokenLen(s, al);
      FirstTokenCuts(s, y, al);
    } else {
      var n := TokenLen(s, al);
      var y0 := EndCuts(s[n..], base + n, al, i - 1);
      NextSpan(s, base, n, i, al);
      CutBehindToken(s, n, y0, i, al);
      y := n + y0;
    }
  }

  lemma {:induction false} FirstTokenCuts(s: string, n: nat, al: Alphabet)
    requires s != "" && !al.space(s[0]) && n == TokenLen(s, al)
    ensures CutsAt(s, n, 1, al)
  {
    FirstToken(s, al);
    assert Toks(s, al)[..1] == [s[..n]];
  }

  lemma {:induction false} CutBehindSpace(s: string, x: nat, i: nat, al: Alphabet)
    requires s != "" && al.space(s[0]) && CutsAt(s[1..], x, i, al)
    ensures CutsAt(s, x + 1, i, al)
  {
    assert s[..x + 1][1..] == s[1..][..x];
  }

  lemma {:induction false} FirstTokenThen(s: string, n: nat, t: string, al: Alphabet)
    requires s != "" && !al.space(s[0]) && n == TokenLen(s, al) && t <= s[n..]
    ensures Toks(s[..n] + t, al) == [s[..n]] + Toks(t, al)
  {
    FirstToken(s, al);
    assert t != "" ==> t[0] == s[n];
    ToksOfConcat(s[..n], t, al);
  }

  lemma {:induction false} CutBehindToken(s: string, n: nat, x: nat, i: nat, al: Alphabet)
    requires s != "" && !al.space(s[0]) && n == TokenLen(s, al) && CutsAt(s[n..], x, i, al)
    ensures CutsAt(s, n + x, i + 1, al)
  {
    PrefixInTwo(s, n, n + x);
    FirstTokenThen(s, n, s[n..][..x], al);
    PrefixInTwo(Toks(s, al), 1, i + 1);
  }

  lemma {:induction false} SafeBehindToken(s: string, n: nat, x: nat, al: Alphabet)
    requires s != "" && !al.space(s[0]) && n == TokenLen(s, al) && SafeAt(s[n..], x, al)
    ensures SafeAt(s, n + x, al)
  {
    FirstToken(s, al);
  }

  lemma {:induction false} AsManySpans(s: string, base: nat, al: Alphabet)
    ensures |Spans(s, base, al)| == |Toks(s, al)|
    decreases |s|
  {
    if s != "" {
      if al.space(s[0]) {
        AsManySpans(s[1..], base + 1, al);
      } else {
        AsManySpans(s[TokenLen(s, al)..], base + TokenLen(s, al), al);
      }
    }
  }

  lemma {:induction false} SeamAt(s: string, p: nat, q: nat, al: Alphabet)
    requires p <= q <= |s| && SafeAt(s, p, al)
    ensures SafeSeam(s[..p], s[p..q], al)
  {
  }

  /** Between two safe cuts lie the tokens between. */
  lemma {:induction false} ToksBetween(s: string, p: nat, q: nat, a: nat, b: nat, al: Alphabet)
    requires p <= q && a <= b && CutsAt(s, p, a, al) && CutsAt(s, q, b, al) && SafeAt(s, p, al)
    ensures Toks(s[p..q], al) == Toks(s, al)[a..b]
  {
    SeamAt(s, p, q, al);
    assert s[..q] == s[..p] + s[p..q];
    ToksOfConcat(s[..p], s[p..q], al);
    assert Toks(s, al)[..b] == Toks(s, al)[..a] + Toks(s[p..q], al);
  }

  /** A window of the text from one token's start to another's end, tokenized again, has exactly the tokens between. */
  lemma {:induction false} WindowTokens(s: string, al: Alphabet, a: nat, b: nat)
    requires al.Valid() && a < b <= |Spans(s, 0, al)|
    ensures var spans := Spans(s, 0, al);
      spans[a].start <= spans[b - 1].end <= |s| && b <= |Toks(s, al)|
      && Toks(s[spans[a].start..spans[b - 1].end], al) == Toks(s, al)[a..b]
  {
    var p := StartCuts(s, 0, al, a);
    var q := EndCuts(s, 0, al, b - 1);
    SpansAreOrdered(s, 0, al, a, b - 1);
    ToksBetween(s, p, q, a, b, al);
  }

  lemma {:induction false} SpansStartLate(s: string, base: nat, al: Alphabet, i: nat)
    requires i < |Spans(s, base, al)|
    ensures base <= Spans(s, base, al)[i].start < Spans(s, base, al)[i].end
    decreases |s|
  {
    if al.space(s[0]) {
      SpansStartLate(s[1..], base + 1, al, i);
    } else if i > 0 {
      SpansStartLate(s[TokenLen(s, al)..], base + TokenLen(s, al), al, i - 1);
    }
  }

  lemma {:induction false} SpansAreOrdered(s: string, base: nat, al: Alphabet, i: nat, j: nat)
    requires i <= j < |Spans(s, base, al)|
    ensures Spans(s, base, al)[i].start < Spans(s, base, al)[j].end
    decreases |s|
  {
    if al.space(s[0]) {
      SpansAreOrdered(s[1..], base + 1, al, i, j);
    } else if i == 0 {
      SpansStartLate(s, base, al, j);
    } else {
      SpansAreOrdered(s[TokenLen(s, al)..], base + TokenLen(s, al), al, i - 1, j - 1);
    }
  }
}
