/** The citation tag grammar `\[\s*(\S+)\s+(\S+)\s*\]`: printing, parsing, and the segments the UI shows. */
module CitationTags {
  import opened Collections
  import opened Options
  import opened Text

  // ----- Splitting a string at whitespace -----

  function DropSpaces(s: string, space: Spaces): (r: string)
    ensures |r| <= |s|
  {
    if s != "" && space(s[0]) then DropSpaces(s[1..], space) else s
  }

  /** The leading run without whitespace, and what follows it. */
  function TakeRun(s: string, space: Spaces): (r: (string, string))
    ensures s == r.0 + r.1
  {
    if s == "" || space(s[0]) then ("", s)
    else
      var (run, rest) := TakeRun(s[1..], space);
      assert s == [s[0]] + s[1..];
      ([s[0]] + run, rest)
  }

  /** The longest non-empty prefix of the run that a closing bracket follows, and what is after that bracket. */
  function CutAtLastClose(run: string): (r: Option<(string, string)>)
    ensures r.Some? ==> r.value.0 != "" && run == r.value.0 + "]" + r.value.1
  {
    if |run| < 2 then None
    else
      match CutAtLastClose(run[1..])
      case Some((section, rest)) =>
        assert run == [run[0]] + run[1..];
        assert [run[0]] + (section + "]" + rest) == ([run[0]] + section) + "]" + rest;
        Some(([run[0]] + section, rest))
      case None =>
        if run[1] == ']' then
          assert run == [run[0]] + "]" + run[2..];
          Some(([run[0]], run[2..]))
        else None
  }

  // ----- The parser -----

  datatype Tag = Tag(docId: string, section: string)

  datatype Found = Found(tag: Tag, rest: string)

  /** The tag at the very start of s, as the backtracking pattern matcher finds it. */
  function Parse(s: string, space: Spaces): (r: Option<Found>)
    ensures r.Some? ==> |r.value.rest| < |s|
  {
    if s == "" || s[0] != '[' then None
    else
      var (docId, afterDoc) := TakeRun(DropSpaces(s[1..], space), space);
      var gap := DropSpaces(afterDoc, space);
      var (run, afterRun) := TakeRun(gap, space);
      if docId == "" || |gap| == |afterDoc| || run == "" then None
      else Ending(docId, run, afterRun, space)
  }

  /** The bracket that closes the tag: the one behind the run, or else the last one inside it. */
  function Ending(docId: string, run: string, afterRun: string, space: Spaces): (r: Option<Found>)
    ensures r.Some? ==> |r.value.rest| < |run| + |afterRun|
  {
    var close := DropSpaces(afterRun, space);
    if close != "" && close[0] == ']' then Some(Found(Tag(docId, run), close[1..]))
    else
      match CutAtLastClose(run)
      case Some((section, tail)) => Some(Found(Tag(docId, section), tail + afterRun))
      case None => None
  }

  /** All tags, leftmost first and without overlap. */
  function Tags(s: string, space: Spaces): seq<Tag>
    decreases |s|
  {
    if s == "" then []
    else
      match Parse(s, space)
      case Some(found) => [found.tag] + Tags(found.rest, space)
      case None => Tags(s[1..], space)
  }

  const TAG_SEPARATOR := "::"

  function Key(tag: Tag): string { tag.docId + TAG_SEPARATOR + tag.section }

  /** extract_citation_tags */
  function ExtractKeys(s: string, space: Spaces): (keys: seq<string>)
    ensures |keys| == |Tags(s, space)| && forall i :: 0 <= i < |keys| ==> keys[i] == Key(Tags(s, space)[i])
  {
    seq(|Tags(s, space)|, i requires 0 <= i < |Tags(s, space)| => Key(Tags(s, space)[i]))
  }

  // ----- The parser is the pattern, with the greediest of its readings -----

  ghost predicate Solid(s: string, space: Spaces) {
    s != "" && forall i :: 0 <= i < |s| ==> !space(s[i])
  }

  /** s reads as the pattern with these groups: some whitespace, possibly none in w1 and w3, lies between. */
  ghost predicate ReadsAs(s: string, w1: string, docId: string, w2: string, section: string, w3: string, rest: string,
                          space: Spaces) {
    && AllSpace(w1, space) && AllSpace(w2, space) && w2 != "" && AllSpace(w3, space)
    && Solid(docId, space) && Solid(section, space)
    && s == "[" + (w1 + (docId + (w2 + (section + (w3 + ("]" + rest))))))
  }

  lemma {:induction false} DropSpacesOf(w: string, s: string, space: Spaces)
    requires AllSpace(w, space) && (s == "" || !space(s[0]))
    ensures DropSpaces(w + s, space) == s
  {
    if w == "" {
      assert w + s == s;
    } else {
      assert (w + s)[1..] == w[1..] + s;
      DropSpacesOf(w[1..], s, space);
    }
  }

  lemma {:induction false} TakeRunOf(run: string, s: string, space: Spaces)
    requires forall i :: 0 <= i < |run| ==> !space(run[i])
    ensures TakeRun(run + s, space) == (run + TakeRun(s, space).0, TakeRun(s, space).1)
  {
    if run == "" {
      assert run + s == s && run + TakeRun(s, space).0 == TakeRun(s, space).0;
    } else {
      assert (run + s)[1..] == run[1..] + s;
      TakeRunOf(run[1..], s, space);
      assert [run[0]] + (run[1..] + TakeRun(s, space).0) == run + TakeRun(s, space).0;
    }
  }

  lemma {:induction false} DropSpacesSplits(s: string, space: Spaces) returns (w: string)
    ensures s == w + DropSpaces(s, space) && AllSpace(w, space)
    ensures DropSpaces(s, space) == "" || !space(DropSpaces(s, space)[0])
  {
    if s != "" && space(s[0]) {
      var v := DropSpacesSplits(s[1..], space);
      w := [s[0]] + v;
      OneMore(s, v, DropSpaces(s, space));
    } else {
      w := "";
      assert "" + s == s;
    }
  }

  lemma {:induction false} OneMore(s: string, v: string, rest: string)
    requires s != "" && s[1..] == v + rest
    ensures s == ([s[0]] + v) + rest
  {
  }

  lemma {:induction false} TakeRunSplits(s: string, space: Spaces)
    ensures forall i :: 0 <= i < |TakeRun(s, space).0| ==> !space(TakeRun(s, space).0[i])
    ensures TakeRun(s, space).1 == "" || space(TakeRun(s, space).1[0])
  {
    if s != "" && !space(s[0]) {
      TakeRunSplits(s[1..], space);
    }
  }

  lemma {:induction false} SolidPrefix(section: string, run: string, space: Spaces)
    requires section != "" && section <= run && forall i :: 0 <= i < |run| ==> !space(run[i])
    ensures Solid(section, space)
  {
    assert forall i :: 0 <= i < |section| ==> section[i] == run[i];
  }

  lemma {:induction false} Regroup(a: string, b: string, c: string, d: string)
    ensures (a + b + c) + d == a + (b + (c + d))
  {
  }

  /** The section and the rest are cut out of the run at its last closing bracket. */
  predicate IsCut(run: string, afterRun: string, section: string, rest: string) {
    var cut := CutAtLastClose(run);
    cut.Some? && section == cut.value.0 && rest == cut.value.1 + afterRun
  }

  /** What follows the gap, cut into section, whitespace, bracket and rest as the parser does. */
  lemma {:induction false} SectionOfAParse(gap: string, section: string, rest: string, space: Spaces)
    returns (w3: string)
    requires var (run, afterRun) := TakeRun(gap, space); var close := DropSpaces(afterRun, space);
      run != "" &&
      if close != "" && close[0] == ']' then section == run && rest == close[1..]
      else IsCut(run, afterRun, section, rest)
    ensures gap == section + (w3 + ("]" + rest)) && AllSpace(w3, space) && Solid(section, space)
  {
    var (run, afterRun) := TakeRun(gap, space);
    var close := DropSpaces(afterRun, space);
    TakeRunSplits(gap, space);
    if close != "" && close[0] == ']' {
      w3 := DropSpacesSplits(afterRun, space);
      assert close == "]" + rest;
    } else {
      w3 := "";
      var tail := CutAtLastClose(run).value.1;
      SolidPrefix(section, run, space);
      Regroup(section, "]", tail, afterRun);
      assert w3 + ("]" + rest) == "]" + rest;
    }
  }

  /** A parsed tag is a reading of the text. */
  lemma {:induction false} ParsedTagIsAReading(s: string, space: Spaces) returns (w1: string, w2: string, w3: string)
    requires Parse(s, space).Some?
    ensures var f := Parse(s, space).value; ReadsAs(s, w1, f.tag.docId, w2, f.tag.section, w3, f.rest, space)
  {
    var f := Parse(s, space).value;
    var start := DropSpaces(s[1..], space);
    var afterDoc := TakeRun(start, space).1;
    var gap := DropSpaces(afterDoc, space);
    w1 := DropSpacesSplits(s[1..], space);
    w2 := DropSpacesSplits(afterDoc, space);
    TakeRunSplits(start, space);
    w3 := SectionOfAParse(gap, f.tag.section, f.rest, space);
    assert s == "[" + s[1..];
  }

  /** How the run after the gap of a reading goes on: either it is the section, or the bracket and more follow in it. */
  lemma {:induction false} RunOfAReading(section: string, w3: string, rest: string, space: Spaces)
    requires Solid(section, space) && AllSpace(w3, space) && !space(']')
    ensures var x := section + (w3 + ("]" + rest));
      TakeRun(x, space) ==
        if w3 == "" then (section + ("]" + TakeRun(rest, space).0), TakeRun(rest, space).1)
        else (section, w3 + ("]" + rest))
  {
    TakeRunOf(section, w3 + ("]" + rest), space);
    if w3 == "" {
      assert w3 + ("]" + rest) == "]" + rest;
      TakeRunOf("]", rest, space);
    } else {
      assert section + "" == section;
    }
  }

  lemma {:induction false} LastCloseIsLongest(section: string, tail: string)
    requires section != ""
    ensures CutAtLastClose(section + ("]" + tail)).Some?
      && |CutAtLastClose(section + ("]" + tail)).value.0| >= |section|
  {
    var run := section + ("]" + tail);
    if |section| > 1 {
      assert run[1..] == section[1..] + ("]" + tail);
      LastCloseIsLongest(section[1..], tail);
    } else {
      assert run[1] == ']';
    }
  }

  /** Document and gap are the same in every reading. */
  lemma {:induction false} ReadingFixesTheDocument(s: string, w1: string, docId: string, w2: string, section: string,
                                                   w3: string, rest: string, space: Spaces)
    requires ReadsAs(s, w1, docId, w2, section, w3, rest, space)
    ensures var (d, after) := TakeRun(DropSpaces(s[1..], space), space);
      d == docId && |after| > |DropSpaces(after, space)| && DropSpaces(after, space) == section + (w3 + ("]" + rest))
  {
    var gap := section + (w3 + ("]" + rest));
    var start := docId + (w2 + gap);
    assert s[1..] == w1 + start;
    assert start[0] == docId[0] && gap[0] == section[0];
    DropSpacesOf(w1, start, space);
    TakeRunOf(docId, w2 + gap, space);
    assert (w2 + gap)[0] == w2[0];
    assert docId + "" == docId;
    DropSpacesOf(w2, gap, space);
  }

  /**
    * The parser finds a tag exactly when the text has a reading, its document is that of every reading, and no
    * reading has a longer section: what a greedy, backtracking matcher returns.
    */
  lemma {:induction false} ParseIsTheGreediestReading(s: string, w1: string, docId: string, w2: string,
                                                      section: string, w3: string, rest: string, space: Spaces)
    requires ReadsAs(s, w1, docId, w2, section, w3, rest, space) && !space(']')
    ensures Parse(s, space).Some?
    ensures Parse(s, space).value.tag.docId == docId && |Parse(s, space).value.tag.section| >= |section|
  {
    ReadingFixesTheDocument(s, w1, docId, w2, section, w3, rest, space);
    RunOfAReading(section, w3, rest, space);
    var (run, afterRun) := TakeRun(section + (w3 + ("]" + rest)), space);
    if w3 == "" {
      LastCloseIsLongest(section, TakeRun(rest, space).0);
    } else {
      DropSpacesOf(w3, "]" + rest, space);
    }
  }

  // ----- Printing and parsing back -----

  /** format_citation_tag */
  function Format(tag: Tag): string { "[" + tag.docId + " " + tag.section + "]" }

  datatype Item = Plain(text: string) | Cite(tag: Tag)

  function Print(item: Item): string {
    match item
    case Plain(text) => text
    case Cite(tag) => Format(tag)
  }

  function Render(items: seq<Item>): string {
    if items == [] then "" else Print(items[0]) + Render(items[1..])
  }

  function Cited(items: seq<Item>): seq<Tag> {
    if items == [] then []
    else if items[0].Cite? then [items[0].tag] + Cited(items[1..])
    else Cited(items[1..])
  }

  predicate BracketFree(s: string) {
    forall i :: 0 <= i < |s| ==> s[i] != '[' && s[i] != ']'
  }

  /** Text between tags holds no bracket; the parts of a tag hold neither a bracket nor whitespace. */
  ghost predicate Printable(items: seq<Item>, space: Spaces) {
    forall i :: 0 <= i < |items| ==>
      match items[i]
      case Plain(text) => BracketFree(text)
      case Cite(tag) => PrintableTag(tag, space)
  }

  ghost predicate PrintableTag(tag: Tag, space: Spaces) {
    Solid(tag.docId, space) && Solid(tag.section, space) && BracketFree(tag.docId) && BracketFree(tag.section)
  }

  /** No closing bracket follows: neither in the leading run, nor right after the whitespace behind it. */
  function NoCloseAhead(s: string, space: Spaces): bool {
    s == "" || (if space(s[0]) then NoCloseAfterSpaces(s[1..], space) else s[0] != ']' && NoCloseAhead(s[1..], space))
  }

  function NoCloseAfterSpaces(s: string, space: Spaces): bool {
    s == "" || (if space(s[0]) then NoCloseAfterSpaces(s[1..], space) else s[0] != ']')
  }

  lemma {:induction false} NothingCloses(s: string, space: Spaces)
    requires NoCloseAhead(s, space)
    ensures forall i :: 0 <= i < |TakeRun(s, space).0| ==> TakeRun(s, space).0[i] != ']'
    ensures var close := DropSpaces(TakeRun(s, space).1, space); close == "" || close[0] != ']'
  {
    if s != "" && !space(s[0]) {
      NothingCloses(s[1..], space);
    } else if s != "" {
      NothingClosesAfterSpaces(s[1..], space);
    }
  }

  lemma {:induction false} NothingClosesAfterSpaces(s: string, space: Spaces)
    requires NoCloseAfterSpaces(s, space)
    ensures DropSpaces(s, space) == "" || DropSpaces(s, space)[0] != ']'
  {
    if s != "" && space(s[0]) { NothingClosesAfterSpaces(s[1..], space); }
  }

  lemma {:induction false} TextDoesNotClose(text: string, s: string, space: Spaces)
    requires BracketFree(text) && NoCloseAhead(s, space) && NoCloseAfterSpaces(s, space)
    ensures NoCloseAhead(text + s, space) && NoCloseAfterSpaces(text + s, space)
  {
    if text == "" {
      assert text + s == s;
    } else {
      assert (text + s)[1..] == text[1..] + s;
      TextDoesNotClose(text[1..], s, space);
    }
  }

  lemma {:induction false} SolidDoesNotClose(docId: string, s: string, space: Spaces)
    requires BracketFree(docId) && (forall i :: 0 <= i < |docId| ==> !space(docId[i])) && NoCloseAhead(s, space)
    ensures NoCloseAhead(docId + s, space)
  {
    if docId == "" {
      assert docId + s == s;
    } else {
      assert (docId + s)[1..] == docId[1..] + s;
      SolidDoesNotClose(docId[1..], s, space);
    }
  }

  lemma {:induction false} TagDoesNotClose(tag: Tag, s: string, space: Spaces)
    requires PrintableTag(tag, space) && space(' ') && !space('[')
    ensures NoCloseAhead(Format(tag) + s, space) && NoCloseAfterSpaces(Format(tag) + s, space)
  {
    var tail := tag.section + ("]" + s);
    assert tail[0] == tag.section[0];
    assert (" " + tail)[1..] == tail;
    assert NoCloseAhead(" " + tail, space);
    SolidDoesNotClose(tag.docId, " " + tail, space);
    var t := Format(tag) + s;
    assert t == "[" + (tag.docId + (" " + tail));
    assert t[1..] == tag.docId + (" " + tail);
  }

  lemma {:induction false} RenderedItemsDoNotClose(items: seq<Item>, space: Spaces)
    requires Printable(items, space) && space(' ') && !space('[')
    ensures NoCloseAhead(Render(items), space) && NoCloseAfterSpaces(Render(items), space)
  {
    if items != [] {
      RenderedItemsDoNotClose(items[1..], space);
      match items[0]
      case Plain(text) => TextDoesNotClose(text, Render(items[1..]), space);
      case Cite(tag) => TagDoesNotClose(tag, Render(items[1..]), space);
    }
  }

  lemma {:induction false} CutWithoutLaterClose(section: string, tail: string)
    requires section != "" && BracketFree(section) && forall i :: 0 <= i < |tail| ==> tail[i] != ']'
    ensures CutAtLastClose(section + ("]" + tail)) == Some((section, tail))
  {
    var run := section + ("]" + tail);
    if |section| > 1 {
      assert run[1..] == section[1..] + ("]" + tail);
      CutWithoutLaterClose(section[1..], tail);
      assert [run[0]] + section[1..] == section;
    } else {
      assert run[1..] == "]" + tail && run[2..] == tail && [run[0]] == section;
      NoCutWithoutClose("]", tail);
    }
  }

  lemma {:induction false} NoCutWithoutClose(head: string, tail: string)
    requires |head| == 1 && forall i :: 0 <= i < |tail| ==> tail[i] != ']'
    ensures CutAtLastClose(head + tail).None?
    decreases |tail|
  {
    if tail != "" {
      assert (head + tail)[1..] == tail == [tail[0]] + tail[1..];
      NoCutWithoutClose([tail[0]], tail[1..]);
    }
  }

  lemma {:induction false} FormatReads(tag: Tag, s: string, space: Spaces)
    requires PrintableTag(tag, space) && space(' ')
    ensures ReadsAs(Format(tag) + s, "", tag.docId, " ", tag.section, "", s, space)
  {
    assert Format(tag) + s == "[" + ("" + (tag.docId + (" " + (tag.section + ("" + ("]" + s))))));
  }

  /** A tag whose section is followed at once by its bracket is parsed as such, when no later bracket closes the run. */
  lemma {:induction false} ParseOfReading(t: string, tag: Tag, gap: string, s: string, space: Spaces)
    requires ReadsAs(t, "", tag.docId, gap, tag.section, "", s, space) && BracketFree(tag.section)
    requires NoCloseAhead(s, space) && !space(']')
    ensures Parse(t, space) == Some(Found(tag, s))
  {
    ReadingFixesTheDocument(t, "", tag.docId, gap, tag.section, "", s, space);
    RunOfAReading(tag.section, "", s, space);
    NothingCloses(s, space);
    CutWithoutLaterClose(tag.section, TakeRun(s, space).0);
  }

  /** A printed tag is parsed back, whatever harmless text follows. */
  lemma {:induction false} ParseOfFormat(tag: Tag, s: string, space: Spaces)
    requires PrintableTag(tag, space) && NoCloseAhead(s, space) && space(' ') && !space(']')
    ensures Parse(Format(tag) + s, space) == Some(Found(tag, s))
  {
    FormatReads(tag, s, space);
    ParseOfReading(Format(tag) + s, tag, " ", s, space);
  }

  lemma {:induction false} TextHasNoTags(text: string, s: string, space: Spaces)
    requires BracketFree(text)
    ensures Tags(text + s, space) == Tags(s, space)
  {
    if text == "" {
      assert text + s == s;
    } else {
      assert (text + s)[1..] == text[1..] + s;
      TextHasNoTags(text[1..], s, space);
    }
  }

  /** Extraction returns exactly the printed tags, in order. */
  lemma {:induction false} RoundTrip(items: seq<Item>, space: Spaces)
    requires Printable(items, space) && space(' ') && !space('[') && !space(']')
    ensures Tags(Render(items), space) == Cited(items)
  {
    if items != [] {
      RoundTrip(items[1..], space);
      match items[0]
      case Plain(text) =>
        TextHasNoTags(text, Render(items[1..]), space);
      case Cite(tag) =>
        RenderedItemsDoNotClose(items[1..], space);
        ParseOfFormat(tag, Render(items[1..]), space);
    }
  }

  // ----- The identifiers the corpus produces -----

  predicate SafeForDocId(c: char) {
    'A' <= c <= 'Z' || 'a' <= c <= 'z' || '0' <= c <= '9' || c == '.' || c == '_' || c == '/' || c == '-'
  }

  /** make_doc_id, from the path without its extension. */
  function DocId(stem: string): (id: string)
    ensures |id| == |stem| && forall i :: 0 <= i < |id| ==> SafeForDocId(id[i])
    ensures forall i :: 0 <= i < |id| ==> id[i] == if SafeForDocId(stem[i]) then stem[i] else '_'
  {
    if stem == "" then "" else [if SafeForDocId(stem[0]) then stem[0] else '_'] + DocId(stem[1..])
  }

  function Digit(d: nat): (c: char)
    requires d < 10
    ensures '0' <= c <= '9'
  {
    "0123456789"[d]
  }

  function Decimal(n: nat): (s: string)
    ensures s != "" && forall i :: 0 <= i < |s| ==> '0' <= s[i] <= '9'
  {
    if n < 10 then [Digit(n)] else Decimal(n / 10) + [Digit(n % 10)]
  }

  function SectionLabel(n: nat): string { "\U{00A7}" + Decimal(n) }

  /** What a string of digits amounts to. */
  ghost function ValueOf(digits: string): int {
    if digits == "" then 0 else 10 * ValueOf(digits[..|digits| - 1]) + (digits[|digits| - 1] as int - '0' as int)
  }

  lemma {:induction false} DigitIsItsValue(d: nat)
    requires d < 10
    ensures Digit(d) as int - '0' as int == d
  {
  }

  /** A section's label is the section sign and its number in decimal, with no leading zero. */
  lemma {:induction false} LabelsAreDecimal(n: nat)
    ensures var text := SectionLabel(n);
      && |text| > 1 && text[0] == '\U{00A7}' && ValueOf(text[1..]) == n && (n > 0 ==> text[1] != '0')
  {
    assert SectionLabel(n)[1..] == Decimal(n);
    DecimalReadsBack(n);
  }

  lemma {:induction false} DecimalReadsBack(n: nat)
    ensures ValueOf(Decimal(n)) == n && (n > 0 ==> Decimal(n)[0] != '0')
  {
    DigitIsItsValue(n % 10);
    if n < 10 {
      assert [Digit(n)][..0] == "" && ValueOf("") == 0;
    } else {
      DecimalReadsBack(n / 10);
      assert Decimal(n)[..|Decimal(n)| - 1] == Decimal(n / 10);
    }
  }

  lemma {:induction false} DecimalLength(n: nat)
    ensures |Decimal(n)| == 1 <==> n < 10
  {
  }

  lemma {:induction false} DigitIsInjective(a: nat, b: nat)
    requires a < 10 && b < 10 && Digit(a) == Digit(b)
    ensures a == b
  {
  }

  lemma {:induction false} DecimalIsInjective(m: nat, n: nat)
    requires Decimal(m) == Decimal(n)
    ensures m == n
  {
    DecimalLength(m);
    DecimalLength(n);
    if m >= 10 {
      SameLast(Decimal(m / 10), Digit(m % 10), Decimal(n / 10), Digit(n % 10));
      DigitIsInjective(m % 10, n % 10);
      DecimalIsInjective(m / 10, n / 10);
    } else {
      assert Digit(m) == Decimal(m)[0] == Digit(n);
      DigitIsInjective(m, n);
    }
  }

  /** The tags of an ingested corpus can be printed, for either class of whitespace. */
  lemma {:induction false} CorpusTagsArePrintable(stem: string, n: nat)
    requires stem != ""
    ensures PrintableTag(Tag(DocId(stem), SectionLabel(n)), PythonSpace)
    ensures PrintableTag(Tag(DocId(stem), SectionLabel(n)), JavaScriptSpace)
  {
    var id, section := DocId(stem), SectionLabel(n);
    forall i | 0 <= i < |id| ensures !PythonSpace(id[i]) && !JavaScriptSpace(id[i]) && id[i] != '[' && id[i] != ']' {
      assert SafeForDocId(id[i]);
    }
    assert forall i :: 0 < i < |section| ==> section[i] == Decimal(n)[i - 1];
  }

  /** Two documents' sections never share a lookup key. */
  lemma {:induction false} KeyIsInjective(a: string, m: nat, b: string, n: nat)
    requires Key(Tag(DocId(a), SectionLabel(m))) == Key(Tag(DocId(b), SectionLabel(n)))
    ensures DocId(a) == DocId(b) && m == n
  {
    SplitAtColon(DocId(a), SectionLabel(m), DocId(b), SectionLabel(n));
    assert Decimal(m) == SectionLabel(m)[1..] == SectionLabel(n)[1..] == Decimal(n);
    DecimalIsInjective(m, n);
  }

  lemma {:induction false} ColonNotBefore(x: string, p: string, y: string, q: string)
    requires ':' !in y && x + "::" + p == y + "::" + q
    ensures |y| <= |x|
  {
    var s := x + "::" + p;
    assert s[|x|] == ':';
    assert forall i :: 0 <= i < |y| ==> s[i] == y[i];
  }

  /** What stands before the first colon, and behind it, can be told. */
  lemma {:induction false} SplitAtColon(x: string, p: string, y: string, q: string)
    requires ':' !in x && ':' !in y && x + "::" + p == y + "::" + q
    ensures x == y && p == q
  {
    var s := x + "::" + p;
    ColonNotBefore(x, p, y, q);
    ColonNotBefore(y, q, x, p);
    assert x == s[..|x|] && y == s[..|y|];
    assert p == s[|x| + 2..] && q == s[|y| + 2..];
  }

  // ----- The answer text as the UI cuts it -----

  datatype Segment = TextSegment(text: string) | CitationSegment(text: string, tag: Tag)

  function SegmentTexts(segments: seq<Segment>): string {
    if segments == [] then "" else SegmentTexts(segments[..|segments| - 1]) + segments[|segments| - 1].text
  }

  function CitationsOf(segments: seq<Segment>): seq<Tag> {
    if segments == [] then []
    else
      var before, last := CitationsOf(segments[..|segments| - 1]), segments[|segments| - 1];
      if last.CitationSegment? then before + [last.tag] else before
  }

  lemma {:induction false} SliceGrows(text: string, a: nat, b: nat)
    requires a <= b <= |text|
    ensures text[..a] + text[a..b] == text[..b]
  {
  }

  ghost predicate NoneEmpty(segments: seq<Segment>) {
    forall i :: 0 <= i < |segments| ==> segments[i].text != ""
  }

  datatype Match = Match(index: nat, end: nat, tag: Tag)

  /** m is the first tag at or after position from, and none at all is left when there is no m. */
  ghost predicate IsNextMatch(m: Option<Match>, text: string, from: nat, space: Spaces)
    requires from <= |text|
  {
    match m
    case None => Tags(text[from..], space) == []
    case Some(m) =>
      from <= m.index < m.end <= |text| && Tags(text[from..], space) == [m.tag] + Tags(text[m.end..], space)
  }

  /** The tag that starts at a position. */
  function MatchAt(text: string, pos: nat, space: Spaces): (m: Option<Match>)
    requires pos < |text|
    ensures m.Some? ==> m.value.index == pos && pos < m.value.end <= |text|
  {
    match Parse(text[pos..], space)
    case None => None
    case Some(found) => Some(Match(pos, |text| - |found.rest|, found.tag))
  }

  lemma {:induction false} NoMatchAt(text: string, pos: nat, space: Spaces)
    requires pos < |text| && MatchAt(text, pos, space).None?
    ensures Tags(text[pos..], space) == Tags(text[pos + 1..], space)
  {
    assert text[pos..][1..] == text[pos + 1..];
  }

  lemma {:induction false} AMatchAt(text: string, pos: nat, m: Match, space: Spaces)
    requires pos < |text| && MatchAt(text, pos, space) == Some(m)
    ensures Tags(text[pos..], space) == [m.tag] + Tags(text[m.end..], space)
  {
    var rest := Parse(text[pos..], space).value.rest;
    ParseLeavesASuffix(text[pos..], space);
    assert rest == text[m.end..];
  }

  /** The pattern tried at one position, when there was no tag between from and there. */
  method TryAt(text: string, ghost from: nat, pos: nat, space: Spaces) returns (m: Option<Match>)
    requires from <= pos < |text| && Tags(text[from..], space) == Tags(text[pos..], space)
    ensures if m.None? then Tags(text[from..], space) == Tags(text[pos + 1..], space)
      else IsNextMatch(m, text, from, space)
  {
    m := MatchAt(text, pos, space);
    if m.None? {
      NoMatchAt(text, pos, space);
    } else {
      AMatchAt(text, pos, m.value, space);
    }
  }

  /** The pattern's exec: search from a position on. */
  method NextMatch(text: string, from: nat, space: Spaces) returns (m: Option<Match>)
    requires from <= |text|
    ensures IsNextMatch(m, text, from, space)
  {
    for pos := from to |text|
      invariant Tags(text[from..], space) == Tags(text[pos..], space)
    {
      m := TryAt(text, from, pos, space);
      if m.Some? {
        return;
      }
    }
    m := None;
  }

  /** The segments so far are the text up to lastIndex and show its tags. */
  ghost predicate ScannedTo(segments: seq<Segment>, text: string, lastIndex: nat, space: Spaces)
    requires lastIndex <= |text|
  {
    SegmentTexts(segments) == text[..lastIndex] && CitationsOf(segments) + Tags(text[lastIndex..], space) ==
      Tags(text, space)
  }

  lemma {:induction false} ScanPastMatch(segments: seq<Segment>, more: seq<Segment>, text: string, lastIndex: nat,
                                         m: Match, space: Spaces)
    requires lastIndex <= |text| && ScannedTo(segments, text, lastIndex, space)
      && IsNextMatch(Some(m), text, lastIndex, space)
    requires SegmentTexts(more) == SegmentTexts(segments) + text[lastIndex..m.index] + text[m.index..m.end]
    requires CitationsOf(more) == CitationsOf(segments) + [m.tag]
    ensures ScannedTo(more, text, m.end, space)
  {
    SliceGrows(text, lastIndex, m.index);
    SliceGrows(text, m.index, m.end);
    ConcatIsAssociative(CitationsOf(segments), [m.tag], Tags(text[m.end..], space));
  }

  /** splitAnswerIntoSegments: its pieces are the input, and its citations are the tags extraction finds. */
  method SplitAnswerIntoSegments(text: string, space: Spaces) returns (segments: seq<Segment>)
    ensures SegmentTexts(segments) == text
    ensures CitationsOf(segments) == Tags(text, space)
    ensures NoneEmpty(segments)
  {
    segments := [];
    var lastIndex := 0;
    assert text[0..] == text;
    var found := NextMatch(text, lastIndex, space);
    while found.Some?
      invariant lastIndex <= |text| && IsNextMatch(found, text, lastIndex, space)
      invariant ScannedTo(segments, text, lastIndex, space) && NoneEmpty(segments)
      decreases |text| - lastIndex, found.Some?
    {
      var m := found.value;
      var more := PushMatch(segments, text[lastIndex..m.index], text[m.index..m.end], m.tag);
      ScanPastMatch(segments, more, text, lastIndex, m, space);
      segments, lastIndex := more, m.end;
      found := NextMatch(text, lastIndex, space);
    }
    AllTagsSeen(segments, text, lastIndex, space);
    if lastIndex < |text| {
      segments := PushTail(segments, text, lastIndex);
    }
  }

  lemma {:induction false} AllTagsSeen(segments: seq<Segment>, text: string, lastIndex: nat, space: Spaces)
    requires lastIndex <= |text| && ScannedTo(segments, text, lastIndex, space)
    requires IsNextMatch(None, text, lastIndex, space)
    ensures CitationsOf(segments) == Tags(text, space) && (lastIndex == |text| ==> SegmentTexts(segments) == text)
  {
    assert text[..|text|] == text;
  }

  /** The text behind the last match. */
  function PushTail(segments: seq<Segment>, text: string, lastIndex: nat): (r: seq<Segment>)
    requires lastIndex < |text| && SegmentTexts(segments) == text[..lastIndex] && NoneEmpty(segments)
    ensures SegmentTexts(r) == text && CitationsOf(r) == CitationsOf(segments) && NoneEmpty(r)
  {
    Push(segments, TextSegment(text[lastIndex..]))
  }

  /** The text before a match, unless it is empty, and then the match. */
  function PushMatch(segments: seq<Segment>, before: string, full: string, tag: Tag): (r: seq<Segment>)
    requires full != "" && NoneEmpty(segments)
    ensures SegmentTexts(r) == SegmentTexts(segments) + before + full
    ensures CitationsOf(r) == CitationsOf(segments) + [tag]
    ensures NoneEmpty(r)
  {
    Push(if before == "" then segments else Push(segments, TextSegment(before)), CitationSegment(full, tag))
  }

  function Push(segments: seq<Segment>, s: Segment): (r: seq<Segment>)
    ensures SegmentTexts(r) == SegmentTexts(segments) + s.text
    ensures CitationsOf(r) == CitationsOf(segments) + if s.CitationSegment? then [s.tag] else []
    ensures |r| == |segments| + 1 && r[|segments|] == s && forall i :: 0 <= i < |segments| ==> r[i] == segments[i]
  {
    assert (segments + [s])[..|segments|] == segments;
    segments + [s]
  }

  ghost predicate IsSuffix(r: string, s: string) {
    |r| <= |s| && r == s[|s| - |r|..]
  }

  lemma {:induction false} SuffixOfSuffix(a: string, b: string, c: string)
    requires IsSuffix(a, b) && IsSuffix(b, c)
    ensures IsSuffix(a, c)
  {
  }

  lemma {:induction false} SuffixOfConcat(front: string, rest: string)
    ensures IsSuffix(rest, front + rest)
  {
  }

  lemma {:induction false} DropLeavesASuffix(s: string, space: Spaces)
    ensures IsSuffix(DropSpaces(s, space), s)
  {
    if s != "" && space(s[0]) {
      DropLeavesASuffix(s[1..], space);
      SuffixOfSuffix(DropSpaces(s, space), s[1..], s);
    }
  }

  lemma {:induction false} RunLeavesASuffix(s: string, space: Spaces)
    ensures IsSuffix(TakeRun(s, space).1, s)
  {
    SuffixOfConcat(TakeRun(s, space).0, TakeRun(s, space).1);
  }

  lemma {:induction false} ParseLeavesASuffix(s: string, space: Spaces)
    requires Parse(s, space).Some?
    ensures IsSuffix(Parse(s, space).value.rest, s)
  {
    var start := DropSpaces(s[1..], space);
    var afterDoc := TakeRun(start, space).1;
    var gap := DropSpaces(afterDoc, space);
    var (run, afterRun) := TakeRun(gap, space);
    assert IsSuffix(gap, s) by {
      DropLeavesASuffix(s[1..], space);
      SuffixOfSuffix(start, s[1..], s);
      RunLeavesASuffix(start, space);
      SuffixOfSuffix(afterDoc, start, s);
      DropLeavesASuffix(afterDoc, space);
      SuffixOfSuffix(gap, afterDoc, s);
    }
    AfterTheSection(gap, run, afterRun, Parse(s, space).value.rest, space);
    SuffixOfSuffix(Parse(s, space).value.rest, gap, s);
  }

  lemma {:induction false} AfterTheSection(gap: string, run: string, afterRun: string, rest: string, space: Spaces)
    requires gap == run + afterRun
    requires var close := DropSpaces(afterRun, space);
      if close != "" && close[0] == ']' then rest == close[1..]
      else CutAtLastClose(run).Some? && rest == CutAtLastClose(run).value.1 + afterRun
    ensures IsSuffix(rest, gap)
  {
    var close := DropSpaces(afterRun, space);
    if close != "" && close[0] == ']' {
      DropLeavesASuffix(afterRun, space);
      SuffixOfConcat(run, afterRun);
      SuffixOfSuffix(close, afterRun, gap);
      SuffixOfSuffix(rest, close, gap);
    } else {
      var (section, tail) := CutAtLastClose(run).value;
      assert gap == (section + "]") + rest;
      SuffixOfConcat(section + "]", rest);
    }
  }

  // ----- Server and browser read the same tags -----

  /** No character of s is whitespace to one and not to the other. */
  ghost predicate SameSpaces(s: string, a: Spaces, b: Spaces) {
    forall i :: 0 <= i < |s| ==> a(s[i]) == b(s[i])
  }

  lemma {:induction false} SameDrop(s: string, a: Spaces, b: Spaces)
    requires SameSpaces(s, a, b)
    ensures DropSpaces(s, a) == DropSpaces(s, b) && SameSpaces(DropSpaces(s, a), a, b)
  {
    if s != "" && a(s[0]) {
      assert SameSpaces(s[1..], a, b);
      SameDrop(s[1..], a, b);
    }
  }

  lemma {:induction false} SameRun(s: string, a: Spaces, b: Spaces)
    requires SameSpaces(s, a, b)
    ensures TakeRun(s, a) == TakeRun(s, b) && SameSpaces(TakeRun(s, a).1, a, b)
  {
    if s != "" && !a(s[0]) {
      assert SameSpaces(s[1..], a, b);
      SameRun(s[1..], a, b);
    }
  }

  lemma {:induction false} SameParse(s: string, a: Spaces, b: Spaces)
    requires SameSpaces(s, a, b)
    ensures Parse(s, a) == Parse(s, b)
  {
    if s != "" && s[0] == '[' {
      assert SameSpaces(s[1..], a, b);
      SameDrop(s[1..], a, b);
      SameRun(DropSpaces(s[1..], a), a, b);
      var afterDoc := TakeRun(DropSpaces(s[1..], a), a).1;
      SameDrop(afterDoc, a, b);
      SameRun(DropSpaces(afterDoc, a), a, b);
      SameDrop(TakeRun(DropSpaces(afterDoc, a), a).1, a, b);
    }
  }

  /** On a text without such a character, the browser's segments show exactly the tags the server validates. */
  lemma {:induction false} BothSidesReadTheSameTags(s: string, a: Spaces, b: Spaces)
    requires SameSpaces(s, a, b)
    ensures Tags(s, a) == Tags(s, b)
    decreases |s|
  {
    if s != "" {
      SameParse(s, a, b);
      match Parse(s, a)
      case Some(found) =>
        ParseLeavesASuffix(s, a);
        assert SameSpaces(found.rest, a, b) by {
          assert forall i :: 0 <= i < |found.rest| ==> found.rest[i] == s[|s| - |found.rest| + i];
        }
        BothSidesReadTheSameTags(found.rest, a, b);
      case None =>
        assert SameSpaces(s[1..], a, b);
        BothSidesReadTheSameTags(s[1..], a, b);
    }
  }

  // ----- Exactly when the two sides agree -----

  /** A text without whitespace shows no tag. */
  lemma {:induction false} NoSpaceNoTags(s: string, space: Spaces)
    requires forall i :: 0 <= i < |s| ==> !space(s[i])
    ensures Tags(s, space) == []
  {
    if s != "" {
      TakeRunOf(s[1..], "", space);
      assert s[1..] + "" == s[1..] && Parse(s, space).None?;
      NoSpaceNoTags(s[1..], space);
    }
  }

  function Bracketed(p: char, c: char, q: char): string { "[" + ([p] + ([c] + ([q] + "]"))) }

  /** A character between two letters in brackets: whitespace makes it a tag, anything else does not. */
  lemma {:induction false} TagExactlyWithSpace(p: char, c: char, q: char, space: Spaces)
    requires !space('[') && !space(']') && !space(p) && !space(q) && q != '[' && q != ']'
    ensures Tags(Bracketed(p, c, q), space) == if space(c) then [Tag([p], [q])] else []
  {
    var s := Bracketed(p, c, q);
    if space(c) {
      assert s == "[" + ("" + ([p] + ([c] + ([q] + ("" + ("]" + ""))))));
      ParseOfReading(s, Tag([p], [q]), [c], "", space);
      OneTag(s, Tag([p], [q]), space);
    } else {
      NoSpaceNoTags(s, space);
    }
  }

  lemma {:induction false} OneTag(s: string, tag: Tag, space: Spaces)
    requires Parse(s, space) == Some(Found(tag, ""))
    ensures Tags(s, space) == [tag]
  {
    assert Tags("", space) == [];
  }

  ghost predicate Over(s: string, alphabet: set<char>) {
    forall i :: 0 <= i < |s| ==> s[i] in alphabet
  }

  /** Whatever is written with these characters, both classes lead to the same tags. */
  ghost predicate SameTagsOver(alphabet: set<char>, a: Spaces, b: Spaces) {
    forall s: string :: Over(s, alphabet) ==> Tags(s, a) == Tags(s, b)
  }

  /**
    * Over any characters that include the brackets and two letters, two whitespace classes lead to the same tags
    * exactly when they agree on every one of them.
    */
  lemma {:induction false} SidesAgreeExactly(alphabet: set<char>, p: char, q: char, a: Spaces, b: Spaces)
    requires {'[', ']', p, q} <= alphabet && q != '[' && q != ']'
    requires forall c :: c in {'[', ']', p, q} ==> !a(c) && !b(c)
    ensures SameTagsOver(alphabet, a, b) <==> forall c :: c in alphabet ==> a(c) == b(c)
  {
    if forall c :: c in alphabet ==> a(c) == b(c) {
      forall s: string | Over(s, alphabet) ensures Tags(s, a) == Tags(s, b) {
        BothSidesReadTheSameTags(s, a, b);
      }
    }
    if c :| c in alphabet && a(c) != b(c) {
      TagExactlyWithSpace(p, c, q, a);
      TagExactlyWithSpace(p, c, q, b);
      assert Over(Bracketed(p, c, q), alphabet) by { AroundOver(p, c, q, alphabet); }
    }
  }

  lemma {:induction false} AroundOver(p: char, c: char, q: char, alphabet: set<char>)
    requires {'[', ']', p, c, q} <= alphabet
    ensures Over(Bracketed(p, c, q), alphabet)
  {
    var s := Bracketed(p, c, q);
    assert s == ['[', p, c, q, ']'];
  }

  /** The characters that are whitespace to one side only. */
  predicate OneSided(c: char) {
    '\U{001C}' <= c <= '\U{001F}' || c == '\U{0085}' || c == '\U{FEFF}'
  }

  /** Server and browser read the same tags over such characters exactly when none of these six is among them. */
  lemma {:induction false} ServerAndBrowserAgreeExactly(alphabet: set<char>)
    requires {'[', ']', 'a', 'b'} <= alphabet
    ensures SameTagsOver(alphabet, PythonSpace, JavaScriptSpace) <==> forall c :: c in alphabet ==> !OneSided(c)
  {
    assert forall c: char :: PythonSpace(c) != JavaScriptSpace(c) <==> OneSided(c);
    SidesAgreeExactly(alphabet, 'a', 'b', PythonSpace, JavaScriptSpace);
  }
}
