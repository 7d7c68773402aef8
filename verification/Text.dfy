/** Strings, their whitespace, and the string operations the pipeline uses. */
module Text {
  import opened Collections

  /** Which characters count as whitespace. The operations below work for any choice. */
  type Spaces = char -> bool

  /** `str.isspace` of Python, which is also what the pattern \s matches there. */
  predicate PythonSpace(c: char) {
    || '\U{0009}' <= c <= '\U{000D}' || '\U{001C}' <= c <= '\U{0020}' || c == '\U{0085}' || c == '\U{00A0}'
    || c == '\U{1680}' || '\U{2000}' <= c <= '\U{200A}' || c == '\U{2028}' || c == '\U{2029}'
    || c == '\U{202F}' || c == '\U{205F}' || c == '\U{3000}'
  }

  /** What the pattern \s matches in JavaScript. */
  predicate JavaScriptSpace(c: char) {
    || '\U{0009}' <= c <= '\U{000D}' || c == ' ' || c == '\U{00A0}'
    || c == '\U{1680}' || '\U{2000}' <= c <= '\U{200A}' || c == '\U{2028}' || c == '\U{2029}'
    || c == '\U{202F}' || c == '\U{205F}' || c == '\U{3000}' || c == '\U{FEFF}'
  }

  predicate AllSpace(s: string, space: Spaces) {
    forall i :: 0 <= i < |s| ==> space(s[i])
  }

  /** The end of the whitespace run starting at p. */
  function SpacesEnd(s: string, p: nat, space: Spaces): (e: nat)
    requires p <= |s|
    ensures p <= e <= |s|
    decreases |s| - p
  {
    if p < |s| && space(s[p]) then SpacesEnd(s, p + 1, space) else p
  }

  /** The start of the whitespace run ending at n. */
  function SolidEnd(s: string, n: nat, space: Spaces): (e: nat)
    requires n <= |s|
    ensures e <= n
  {
    if n > 0 && space(s[n - 1]) then SolidEnd(s, n - 1, space) else n
  }

  lemma {:induction false} SpacesEndIsTheEnd(s: string, p: nat, space: Spaces)
    requires p <= |s|
    ensures AllSpace(s[p..SpacesEnd(s, p, space)], space)
    ensures SpacesEnd(s, p, space) < |s| ==> !space(s[SpacesEnd(s, p, space)])
    decreases |s| - p
  {
    if p < |s| && space(s[p]) {
      SpacesEndIsTheEnd(s, p + 1, space);
      var e := SpacesEnd(s, p + 1, space);
      assert s[p..e] == [s[p]] + s[p + 1..e];
    }
  }

  lemma {:induction false} SolidEndIsTheEnd(s: string, n: nat, space: Spaces)
    requires n <= |s|
    ensures AllSpace(s[SolidEnd(s, n, space)..n], space)
    ensures SolidEnd(s, n, space) > 0 ==> !space(s[SolidEnd(s, n, space) - 1])
  {
    if n > 0 && space(s[n - 1]) {
      SolidEndIsTheEnd(s, n - 1, space);
      var e := SolidEnd(s, n - 1, space);
      LastOfSlice(s, e, n);
    }
  }

  /** `str.strip()` */
  function Strip(s: string, space: Spaces): string {
    Between(s, SpacesEnd(s, 0, space), SolidEnd(s, |s|, space))
  }

  function Between(s: string, first: nat, end: nat): string
    requires end <= |s|
  {
    if first < end then s[first..end] else ""
  }

  ghost predicate SolidEnds(core: string, space: Spaces) {
    core != "" ==> !space(core[0]) && !space(core[|core| - 1])
  }

  lemma {:induction false} PartIsSolid(s: string, a: nat, b: nat, space: Spaces)
    requires a < b <= |s| && !space(s[a]) && !space(s[b - 1])
    ensures SolidEnds(s[a..b], space)
  {
  }

  /** A text is what its stripping leaves, which neither starts nor ends with whitespace, between whitespace. */
  lemma {:induction false} StripIsTheCore(s: string, space: Spaces) returns (left: string, right: string)
    ensures AllSpace(left, space) && AllSpace(right, space) && SolidEnds(Strip(s, space), space)
    ensures s == left + (Strip(s, space) + right)
  {
    var a, b := SpacesEnd(s, 0, space), SolidEnd(s, |s|, space);
    SpacesEndIsTheEnd(s, 0, space);
    SolidEndIsTheEnd(s, |s|, space);
    if a < b {
      left, right := s[..a], s[b..];
      assert s[0..a] == left && s[b..|s|] == right;
      PartIsSolid(s, a, b, space);
      InThree(s, a, b);
    } else {
      left, right := s, "";
      SpacesMeet(s, a, b, space);
      assert Strip(s, space) == "" && s == s + ("" + "");
    }
  }

  lemma {:induction false} SpacesMeet(s: string, a: nat, b: nat, space: Spaces)
    requires b <= a <= |s| && AllSpace(s[0..a], space) && AllSpace(s[b..|s|], space)
    ensures AllSpace(s, space)
  {
    forall i | 0 <= i < |s| ensures space(s[i]) {
      assert s[i] == if i < a then s[0..a][i] else s[b..|s|][i - b];
    }
  }

  /** Everything but the whitespace. */
  function Visible(s: string, space: Spaces): string {
    if s == "" then ""
    else if space(s[0]) then Visible(s[1..], space)
    else [s[0]] + Visible(s[1..], space)
  }

  function Concat(parts: seq<string>): string {
    if parts == [] then "" else Concat(parts[..|parts| - 1]) + parts[|parts| - 1]
  }

  /** `separator.join(parts)` */
  function Join(parts: seq<string>, separator: string): string {
    if parts == [] then ""
    else if |parts| == 1 then parts[0]
    else Join(parts[..|parts| - 1], separator) + separator + parts[|parts| - 1]
  }

  lemma {:induction false} VisibleOfConcat(a: string, b: string, space: Spaces)
    ensures Visible(a + b, space) == Visible(a, space) + Visible(b, space)
  {
    if a == "" {
      assert a + b == b;
    } else {
      assert (a + b)[1..] == a[1..] + b;
      VisibleOfConcat(a[1..], b, space);
    }
  }

  lemma {:induction false} VisibleOfSpaces(s: string, space: Spaces)
    requires AllSpace(s, space)
    ensures Visible(s, space) == ""
  {
    if s != "" { VisibleOfSpaces(s[1..], space); }
  }

  lemma {:induction false} VisibleAt(s: string, n: nat, space: Spaces)
    requires n <= |s|
    ensures Visible(s, space) == Visible(s[..n], space) + Visible(s[n..], space)
  {
    assert s == s[..n] + s[n..];
    VisibleOfConcat(s[..n], s[n..], space);
  }

  lemma {:induction false} VisibleOfParts(s: string, a: nat, b: nat, space: Spaces)
    requires a <= b <= |s|
    ensures Visible(s, space) == Visible(s[..a], space) + Visible(s[a..b], space) + Visible(s[b..], space)
  {
    VisibleAt(s, b, space);
    VisibleAt(s[..b], a, space);
    assert s[..b][..a] == s[..a] && s[..b][a..] == s[a..b];
  }

  lemma {:induction false} VisibleOfStrip(s: string, space: Spaces)
    ensures Visible(Strip(s, space), space) == Visible(s, space)
  {
    var a, b := SpacesEnd(s, 0, space), SolidEnd(s, |s|, space);
    SpacesEndIsTheEnd(s, 0, space);
    SolidEndIsTheEnd(s, |s|, space);
    assert s[0..a] == s[..a] && s[b..|s|] == s[b..];
    VisibleOfSpaces(s[..a], space);
    VisibleOfSpaces(s[b..], space);
    if a < b {
      VisibleOfParts(s, a, b, space);
    } else {
      AllSpaceTogether(s, a, b, space);
      VisibleOfSpaces(s, space);
    }
  }

  lemma {:induction false} AllSpaceTogether(s: string, a: nat, b: nat, space: Spaces)
    requires b <= a <= |s| && AllSpace(s[..a], space) && AllSpace(s[b..], space)
    ensures AllSpace(s, space)
  {
    forall i | 0 <= i < |s| ensures space(s[i]) {
      if i < a { assert s[..a][i] == s[i]; } else { assert s[b..][i - b] == s[i]; }
    }
  }

  lemma {:induction false} SpacesEndShifts(front: string, s: string, p: nat, space: Spaces)
    requires p <= |s|
    ensures SpacesEnd(front + s, |front| + p, space) == |front| + SpacesEnd(s, p, space)
    decreases |s| - p
  {
    if p < |s| && space(s[p]) {
      SpacesEndShifts(front, s, p + 1, space);
    }
  }

  lemma {:induction false} SpacesEndSkips(front: string, s: string, p: nat, space: Spaces)
    requires AllSpace(front, space) && p <= |front|
    ensures SpacesEnd(front + s, p, space) == |front| + SpacesEnd(s, 0, space)
    decreases |front| - p
  {
    if p < |front| {
      assert (front + s)[p] == front[p];
      SpacesEndSkips(front, s, p + 1, space);
    } else {
      SpacesEndShifts(front, s, 0, space);
    }
  }

  lemma {:induction false} SolidEndShifts(front: string, s: string, t: string, n: nat, m: nat, space: Spaces)
    requires t == front + s && m == |front| + n && n <= |s| && SolidEnd(s, n, space) > 0
    ensures SolidEnd(t, m, space) == |front| + SolidEnd(s, n, space)
    decreases n
  {
    assert t[m - 1] == s[n - 1];
    if space(s[n - 1]) {
      SolidEndShifts(front, s, t, n - 1, m - 1, space);
    }
  }

  lemma {:induction false} BetweenShifts(front: string, s: string, t: string, first: nat, end: nat, first': nat,
                                         end': nat)
    requires t == front + s && end <= |s| && first' == |front| + first && end' == |front| + end
    ensures Between(t, first', end') == Between(s, first, end)
  {
    if first < end {
      assert t[first'..end'] == s[first..end];
    }
  }

  lemma {:induction false} StripOfSpaces(s: string, space: Spaces)
    requires AllSpace(s, space)
    ensures Strip(s, space) == ""
  {
    SpacesEndSkips(s, "", 0, space);
    assert s + "" == s;
  }

  lemma {:induction false} MoreSpaces(a: string, b: string, space: Spaces)
    requires AllSpace(a, space) && AllSpace(b, space)
    ensures AllSpace(a + b, space)
  {
  }

  lemma {:induction false} DropBehind(front: string, s: string, n: nat)
    requires n <= |s|
    ensures (front + s)[|front| + n..] == s[n..]
  {
  }

  lemma {:induction false} StripSkipsToSolid(front: string, s: string, space: Spaces)
    requires AllSpace(front, space) && SolidEnd(s, |s|, space) > 0
    ensures Strip(front + s, space) == Strip(s, space)
  {
    var t := front + s;
    SpacesEndSkips(front, s, 0, space);
    SolidEndOfWhole(front, s, t, space);
    BetweenShifts(front, s, t, SpacesEnd(s, 0, space), SolidEnd(s, |s|, space), SpacesEnd(t, 0, space),
      SolidEnd(t, |t|, space));
  }

  lemma {:induction false} SolidEndOfWhole(front: string, s: string, t: string, space: Spaces)
    requires t == front + s && SolidEnd(s, |s|, space) > 0
    ensures SolidEnd(t, |t|, space) == |front| + SolidEnd(s, |s|, space)
  {
    SolidEndShifts(front, s, t, |s|, |t|, space);
  }

  /** Whitespace in front does not change what stripping leaves. */
  lemma {:induction false} StripSkips(front: string, s: string, space: Spaces)
    requires AllSpace(front, space)
    ensures Strip(front + s, space) == Strip(s, space)
  {
    if SolidEnd(s, |s|, space) > 0 {
      StripSkipsToSolid(front, s, space);
    } else {
      assert AllSpace(s, space) by {
        SolidEndIsTheEnd(s, |s|, space);
        assert s[0..|s|] == s;
      }
      StripOfSpaces(s, space);
      MoreSpaces(front, s, space);
      StripOfSpaces(front + s, space);
    }
  }
}
