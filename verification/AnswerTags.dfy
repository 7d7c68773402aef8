/** What the tags of a whole answer are, given those of its sentences. */
module AnswerTags {
  import opened Collections
  import opened Options
  import opened EvidenceRows
  import opened Text
  import opened Sentences
  import opened CitationTags
  import opened TagSeams
  import opened Session
  import opened Grounding
  import opened Generation

  // ----- A turn's citations are the tags of its texts -----

  function KeysOf(tags: seq<Tag>): (keys: seq<string>)
    ensures |keys| == |tags| && forall i :: 0 <= i < |keys| ==> keys[i] == Key(tags[i])
  {
    if tags == [] then [] else KeysOf(tags[..|tags| - 1]) + [Key(tags[|tags| - 1])]
  }

  function CitedKeys(citations: seq<Citation>): (keys: seq<string>)
    ensures |keys| == |citations|
    ensures forall i :: 0 <= i < |keys| ==> keys[i] == Key(Tag(citations[i].docId, citations[i].section))
  {
    if citations == [] then []
    else
      var last := citations[|citations| - 1];
      CitedKeys(citations[..|citations| - 1]) + [Key(Tag(last.docId, last.section))]
  }

  lemma {:induction false} KeysOfConcat(a: seq<Tag>, b: seq<Tag>)
    ensures KeysOf(a + b) == KeysOf(a) + KeysOf(b)
  {
    if b == [] {
      assert a + b == a;
    } else {
      assert (a + b)[..|a + b| - 1] == a + b[..|b| - 1];
      KeysOfConcat(a, b[..|b| - 1]);
    }
  }

  lemma {:induction false} CitedKeysOfConcat(a: seq<Citation>, b: seq<Citation>)
    ensures CitedKeys(a + b) == CitedKeys(a) + CitedKeys(b)
  {
    if b == [] {
      assert a + b == a;
    } else {
      assert (a + b)[..|a + b| - 1] == a + b[..|b| - 1];
      CitedKeysOfConcat(a, b[..|b| - 1]);
    }
  }

  lemma {:induction false} SameKeys(citations: seq<Citation>, tags: seq<Tag>)
    requires |citations| == |tags|
    requires forall i :: 0 <= i < |tags| ==> Key(Tag(citations[i].docId, citations[i].section)) == Key(tags[i])
    ensures CitedKeys(citations) == KeysOf(tags)
  {
    if tags != [] { SameKeys(citations[..|tags| - 1], tags[..|tags| - 1]); }
  }

  lemma {:induction false} ExtractedKeysAre(s: string, space: Spaces)
    ensures ExtractKeys(s, space) == KeysOf(Tags(s, space))
  {
    KeysAt(Tags(s, space));
  }

  lemma {:induction false} KeysAt(tags: seq<Tag>)
    ensures |KeysOf(tags)| == |tags| && forall i :: 0 <= i < |tags| ==> KeysOf(tags)[i] == Key(tags[i])
  {
    if tags != [] { KeysAt(tags[..|tags| - 1]); }
  }

  /** A settled sentence has one citation per tag it shows, and a stand-in shows none. */
  lemma {:induction false} SettledShowsItsCitations(t: Turn, sentence: string, calls: nat, evidence: seq<Row>,
                                                    chunks: map<Id, RetrievedChunk>)
    requires IsLookup(t.lookup, evidence, chunks) && Usual(t.reader.space)
    ensures var v := Settled(t, sentence, calls).0;
      CitedKeys(SettledCitations(v)) == KeysOf(Tags(SettledText(v), t.reader.space))
  {
    FinalShowsItsCitations(t, sentence, evidence, chunks);
    if t.complete(calls).Some? {
      FinalShowsItsCitations(t, Strip(t.complete(calls).value, t.reader.space), evidence, chunks);
    }
  }

  lemma {:induction false} FinalShowsItsCitations(t: Turn, sentence: string, evidence: seq<Row>,
                                                  chunks: map<Id, RetrievedChunk>)
    requires IsLookup(t.lookup, evidence, chunks) && Usual(t.reader.space)
    ensures var v := Finalize(sentence, t.lookup, t.reader, t.versionId);
      CitedKeys(SettledCitations(v)) == KeysOf(Tags(SettledText(v), t.reader.space))
  {
    var v := Finalize(sentence, t.lookup, t.reader, t.versionId);
    if v.Accept? {
      AcceptedShowsItsCitations(t, sentence, v, evidence, chunks);
    } else {
      StandInShowsNoCitation(t, sentence, v);
    }
  }

  lemma {:induction false} AcceptedShowsItsCitations(t: Turn, sentence: string, v: Validation, evidence: seq<Row>,
                                                     chunks: map<Id, RetrievedChunk>)
    requires IsLookup(t.lookup, evidence, chunks)
    requires v == Finalize(sentence, t.lookup, t.reader, t.versionId) && v.Accept?
    ensures CitedKeys(v.citations) == KeysOf(Tags(v.text, t.reader.space))
  {
    AcceptedExactlyWhenGrounded(sentence, t.lookup, t.reader, t.versionId);
    AcceptedCiteTheirTags(v.citations, Tags(sentence, t.reader.space), sentence, t, evidence, chunks);
  }

  lemma {:induction false} StandInShowsNoCitation(t: Turn, sentence: string, v: Validation)
    requires Usual(t.reader.space) && v == Finalize(sentence, t.lookup, t.reader, t.versionId) && v.Uncertain?
    ensures Tags(UncertaintyText(v.reason), t.reader.space) == []
  {
    ReasonsAreBracketFree(v.reason);
    UncertaintyShowsNoCitation(v.reason, t.reader.space);
  }

  lemma {:induction false} ReasonsAreBracketFree(reason: string)
    requires IsReason(reason)
    ensures BracketFree(reason)
  {
  }

  lemma {:induction false} AcceptedCiteTheirTags(citations: seq<Citation>, tags: seq<Tag>, sentence: string, t: Turn,
                                                 evidence: seq<Row>, chunks: map<Id, RetrievedChunk>)
    requires IsLookup(t.lookup, evidence, chunks) && AllResolve(tags, t.lookup) && |citations| == |tags|
    requires forall i :: 0 <= i < |tags| ==>
      citations[i] == CitationFor(sentence, t.lookup[Key(tags[i])], t.reader, t.versionId)
    ensures CitedKeys(citations) == KeysOf(tags)
  {
    forall i | 0 <= i < |tags| ensures Key(Tag(citations[i].docId, citations[i].section)) == Key(tags[i]) {
      assert IsEntry(t.lookup[Key(tags[i])], Key(tags[i]), evidence, chunks);
    }
    SameKeys(citations, tags);
  }

  lemma {:induction false} StepShowsItsCitations(a: Answered, t: Turn, sentence: string, isFinal: bool,
                                                 evidence: seq<Row>, chunks: map<Id, RetrievedChunk>)
    requires IsLookup(t.lookup, evidence, chunks) && Usual(t.reader.space)
    requires CitedKeys(a.citations) == KeysOf(TagsOfAll(a.texts, t.reader.space))
    ensures var b := Step(a, t, sentence, isFinal); CitedKeys(b.citations) == KeysOf(TagsOfAll(b.texts, t.reader.space))
  {
    var v := Settled(t, sentence, a.calls).0;
    SettledShowsItsCitations(t, sentence, a.calls, evidence, chunks);
    CitedKeysOfConcat(a.citations, SettledCitations(v));
    var texts := a.texts + [SettledText(v)];
    assert texts[..|a.texts|] == a.texts;
    KeysOfConcat(TagsOfAll(a.texts, t.reader.space), Tags(SettledText(v), t.reader.space));
  }

  lemma {:induction false} FoldShowsItsCitations(t: Turn, sentences: seq<string>, evidence: seq<Row>,
                                                 chunks: map<Id, RetrievedChunk>)
    requires IsLookup(t.lookup, evidence, chunks) && Usual(t.reader.space)
    ensures CitedKeys(Fold(t, sentences).citations) == KeysOf(TagsOfAll(Fold(t, sentences).texts, t.reader.space))
  {
    if sentences != [] {
      var before := sentences[..|sentences| - 1];
      FoldShowsItsCitations(t, before, evidence, chunks);
      StepShowsItsCitations(Fold(t, before), t, sentences[|sentences| - 1], false, evidence, chunks);
    }
  }

  /** Sentence by sentence, an answer's citations are exactly the tags its texts show, in order. */
  lemma {:induction false} CitationsAreTheTags(t: Turn, split: Split, fails: bool, evidence: seq<Row>,
                                               chunks: map<Id, RetrievedChunk>)
    requires IsLookup(t.lookup, evidence, chunks) && Usual(t.reader.space)
    ensures var a := AnswerOf(t, split, fails); CitedKeys(a.citations) == KeysOf(TagsOfAll(a.texts, t.reader.space))
  {
    FoldShowsItsCitations(t, split.sentences, evidence, chunks);
    StepShowsItsCitations(WithError(Fold(t, split.sentences), fails), t, split.rest, true, evidence, chunks);
  }

  /**
    * The text of a version shows exactly the tags of its sentences, each over its own sentence, if and only if no
    * sentence completes a bracket that the ones before it leave open. Then its tags are exactly its citations.
    */
  lemma {:induction false} VersionShowsItsCitationsExactly(t: Turn, split: Split, fails: bool, evidence: seq<Row>,
                                                           chunks: map<Id, RetrievedChunk>)
    requires IsLookup(t.lookup, evidence, chunks) && Usual(t.reader.space)
    ensures var a, space := AnswerOf(t, split, fails), t.reader.space;
      && (ShownFrom(Join(a.texts, " "), 0, space) == Layout(a.texts, space) <==> NoSeamBridged(a.texts, space))
      && (NoSeamBridged(a.texts, space) ==> ExtractKeys(Join(a.texts, " "), space) == CitedKeys(a.citations))
  {
    var a, space := AnswerOf(t, split, fails), t.reader.space;
    AnswerShowsItsTextsExactly(a.texts, space);
    CitationsAreTheTags(t, split, fails, evidence, chunks);
    LayoutShowsAll(a.texts, space);
    ShownAreTheTags(Join(a.texts, " "), 0, space);
    ExtractedKeysAre(Join(a.texts, " "), space);
  }

  // ----- Sentences whose brackets all belong to tags -----

  /**
    * A sentence whose brackets all belong to printed tags, or the stand-in for a sentence that could not be grounded.
    */
  datatype Piece = Sentence(items: seq<Item>) | StandIn(reason: string)

  function TextOfPiece(p: Piece): string {
    match p
    case Sentence(items) => Render(items)
    case StandIn(reason) => UncertaintyText(reason)
  }

  function TagsOfPiece(p: Piece): seq<Tag> {
    if p.Sentence? then Cited(p.items) else []
  }

  function TextsOf(pieces: seq<Piece>): (texts: seq<string>)
    ensures |texts| == |pieces| && forall i :: 0 <= i < |pieces| ==> texts[i] == TextOfPiece(pieces[i])
  {
    seq(|pieces|, i requires 0 <= i < |pieces| => TextOfPiece(pieces[i]))
  }

  function AllTags(pieces: seq<Piece>): seq<Tag> {
    if pieces == [] then [] else TagsOfPiece(pieces[0]) + AllTags(pieces[1..])
  }

  ghost predicate Tidy(pieces: seq<Piece>, space: Spaces) {
    forall i :: 0 <= i < |pieces| ==> TidyPiece(pieces[i], space)
  }

  ghost predicate TidyPiece(p: Piece, space: Spaces) {
    match p
    case Sentence(items) => Printable(items, space)
    case StandIn(reason) => BracketFree(reason)
  }

  /** The whitespace a reader must know, and the characters it must not take for whitespace. */
  ghost predicate Usual(space: Spaces) {
    space(' ') && !space('[') && !space(']') && LettersAreSolid(space)
  }

  /** Nothing at the start of s could close a tag left open before it. */
  ghost predicate Harmless(s: string, space: Spaces) {
    NoCloseAhead(s, space) && NoCloseAfterSpaces(s, space)
  }

  lemma {:induction false} RenderThen(items: seq<Item>, s: string, space: Spaces)
    requires Printable(items, space) && Usual(space) && Harmless(s, space)
    ensures Tags(Render(items) + s, space) == Cited(items) + Tags(s, space) && Harmless(Render(items) + s, space)
  {
    if items == [] {
      assert Render(items) + s == s;
    } else {
      var rest := Render(items[1..]) + s;
      RenderThen(items[1..], s, space);
      ConcatIsAssociative(Print(items[0]), Render(items[1..]), s);
      ItemThen(items[0], rest, space);
      ConcatIsAssociative(CitedOne(items[0]), Cited(items[1..]), Tags(s, space));
      CitedFront(items);
    }
  }

  function CitedOne(item: Item): seq<Tag> {
    if item.Cite? then [item.tag] else []
  }

  lemma {:induction false} CitedFront(items: seq<Item>)
    requires items != []
    ensures Cited(items) == CitedOne(items[0]) + Cited(items[1..])
  {
  }

  ghost predicate PrintableItem(item: Item, space: Spaces) {
    match item
    case Plain(text) => BracketFree(text)
    case Cite(tag) => PrintableTag(tag, space)
  }

  lemma {:induction false} ItemThen(item: Item, rest: string, space: Spaces)
    requires PrintableItem(item, space) && Usual(space) && Harmless(rest, space)
    ensures Tags(Print(item) + rest, space) == CitedOne(item) + Tags(rest, space)
    ensures Harmless(Print(item) + rest, space)
  {
    match item
    case Plain(text) =>
      TextHasNoTags(text, rest, space);
      TextDoesNotClose(text, rest, space);
    case Cite(tag) =>
      TagThen(tag, rest, space);
  }

  lemma {:induction false} TagThen(tag: Tag, rest: string, space: Spaces)
    requires PrintableTag(tag, space) && Usual(space) && Harmless(rest, space)
    ensures Tags(Format(tag) + rest, space) == [tag] + Tags(rest, space) && Harmless(Format(tag) + rest, space)
  {
    ParseOfFormat(tag, rest, space);
    TagDoesNotClose(tag, rest, space);
  }

  lemma {:induction false} NoOpeningThen(text: string, s: string, space: Spaces)
    requires NoOpening(text)
    ensures Tags(text + s, space) == Tags(s, space)
  {
    if text == "" {
      assert text + s == s;
    } else {
      assert (text + s)[1..] == text[1..] + s;
      NoOpeningThen(text[1..], s, space);
    }
  }

  lemma {:induction false} TwoWordsThen(docId: string, section: string, tail: string, s: string, space: Spaces)
    requires Usual(space) && |tail| > 1 && space(tail[0]) && !space(tail[1]) && tail[1] != ']'
    requires Solid(docId, space) && Solid(section, space) && BracketFree(docId) && BracketFree(section)
      && NoOpening(tail)
    ensures var t := "[" + (docId + (" " + (section + (tail + s))));
      Tags(t, space) == Tags(s, space) && Harmless(t, space)
  {
    var after := tail + s;
    var t := "[" + (docId + (" " + (section + after)));
    assert t[1..] == docId + (" " + (section + after));
    NoTagInTwoWords(t, docId, section, after, space);
    SkipTwoWords(docId, section, tail, s, space);
    assert (section + after)[0] == section[0];
    WordDoesNotClose(docId, section + after, space);
  }

  lemma {:induction false} SkipTwoWords(docId: string, section: string, tail: string, s: string, space: Spaces)
    requires NoOpening(docId) && NoOpening(section) && NoOpening(tail)
    ensures Tags(docId + (" " + (section + (tail + s))), space) == Tags(s, space)
  {
    NoOpeningThen(docId, " " + (section + (tail + s)), space);
    NoOpeningThen(" ", section + (tail + s), space);
    NoOpeningThen(section, tail + s, space);
    NoOpeningThen(tail, s, space);
  }

  lemma {:induction false} StandInThen(reason: string, s: string, space: Spaces)
    requires BracketFree(reason) && Usual(space)
    ensures Tags(UncertaintyText(reason) + s, space) == Tags(s, space) && Harmless(UncertaintyText(reason) + s, space)
  {
    var tail := StandInTail(reason);
    SecondLetter(" v", tail, reason);
    StandInTailHasNoOpening(reason);
    TwoWordsThen("Unable", "to", tail, s, space);
    StandInHead(tail + s);
    assert UncertaintyText(reason) + s == "[Unable to" + (tail + s);
  }

  lemma {:induction false} WordDoesNotClose(word: string, rest: string, space: Spaces)
    requires Solid(word, space) && BracketFree(word) && rest != "" && rest[0] != ']' && !space(rest[0]) && Usual(space)
    ensures Harmless("[" + (word + (" " + rest)), space)
  {
    assert (" " + rest)[1..] == rest;
    assert NoCloseAhead(" " + rest, space);
    SolidDoesNotClose(word, " " + rest, space);
    assert ("[" + (word + (" " + rest)))[1..] == word + (" " + rest);
  }

  lemma {:induction false} PieceThen(p: Piece, s: string, space: Spaces)
    requires TidyPiece(p, space) && Usual(space) && Harmless(s, space)
    ensures Tags(TextOfPiece(p) + s, space) == TagsOfPiece(p) + Tags(s, space) && Harmless(TextOfPiece(p) + s, space)
  {
    match p
    case Sentence(items) => RenderThen(items, s, space);
    case StandIn(reason) => StandInThen(reason, s, space);
  }

  lemma {:induction false} PieceAlone(p: Piece, space: Spaces)
    requires TidyPiece(p, space) && Usual(space)
    ensures Tags(TextOfPiece(p), space) == TagsOfPiece(p) && Harmless(TextOfPiece(p), space)
  {
    PieceThen(p, "", space);
    assert TextOfPiece(p) + "" == TextOfPiece(p) && TagsOfPiece(p) + [] == TagsOfPiece(p);
  }

  lemma {:induction false} JoinFront(text: string, texts: seq<string>, separator: string)
    requires texts != []
    ensures Join([text] + texts, separator) == text + (separator + Join(texts, separator))
  {
    var all, before, last := [text] + texts, texts[..|texts| - 1], texts[|texts| - 1];
    assert all[..|texts|] == [text] + before && all[|texts|] == last;
    if |texts| == 1 {
      assert all[..1] == [text];
      ConcatIsAssociative(text, separator, last);
    } else {
      JoinFront(text, before, separator);
      MoveBrackets(text, separator, Join(before, separator), last);
    }
  }

  lemma {:induction false} MoveBrackets(a: string, b: string, c: string, d: string)
    ensures (a + (b + c)) + b + d == a + (b + (c + b + d))
  {
  }

  lemma {:induction false} AcrossTheBlank(s: string, space: Spaces)
    requires Harmless(s, space) && Usual(space)
    ensures Harmless(" " + s, space) && Tags(" " + s, space) == Tags(s, space)
  {
    assert (" " + s)[1..] == s;
  }

  lemma {:induction false} TextsCons(pieces: seq<Piece>)
    requires pieces != []
    ensures TextsOf(pieces) == [TextOfPiece(pieces[0])] + TextsOf(pieces[1..])
  {
  }

  lemma {:induction false} PieceInFront(p: Piece, texts: seq<string>, tags: seq<Tag>, space: Spaces)
    requires TidyPiece(p, space) && Usual(space) && texts != []
    requires Tags(Join(texts, " "), space) == tags && Harmless(Join(texts, " "), space)
    ensures var text := Join([TextOfPiece(p)] + texts, " ");
      Tags(text, space) == TagsOfPiece(p) + tags && Harmless(text, space)
  {
    AcrossTheBlank(Join(texts, " "), space);
    JoinFront(TextOfPiece(p), texts, " ");
    PieceThen(p, " " + Join(texts, " "), space);
  }

  lemma {:induction false} JoinedPieces(pieces: seq<Piece>, space: Spaces)
    requires Tidy(pieces, space) && Usual(space)
    ensures var text := Join(TextsOf(pieces), " "); Tags(text, space) == AllTags(pieces) && Harmless(text, space)
  {
    if pieces != [] {
      var p, rest := pieces[0], pieces[1..];
      TextsCons(pieces);
      assert TidyPiece(p, space);
      if rest == [] {
        PieceAlone(p, space);
        assert TagsOfPiece(p) + [] == TagsOfPiece(p);
      } else {
        JoinedPieces(rest, space);
        PieceInFront(p, TextsOf(rest), AllTags(rest), space);
      }
    }
  }

  lemma {:induction false} TagsOfPieces(pieces: seq<Piece>, texts: seq<string>, space: Spaces)
    requires Tidy(pieces, space) && Usual(space) && texts == TextsOf(pieces)
    ensures TagsOfAll(texts, space) == AllTags(pieces)
  {
    if pieces != [] {
      var k := |pieces| - 1;
      TagsOfPieces(pieces[..k], texts[..k], space);
      PieceAlone(pieces[k], space);
      AllTagsSnoc(pieces);
    }
  }

  lemma {:induction false} AllTagsSnoc(pieces: seq<Piece>)
    requires pieces != []
    ensures AllTags(pieces) == AllTags(pieces[..|pieces| - 1]) + TagsOfPiece(pieces[|pieces| - 1])
  {
    if |pieces| > 1 {
      AllTagsSnoc(pieces[1..]);
      assert pieces[1..][..|pieces| - 2] == pieces[..|pieces| - 1][1..];
      ConcatIsAssociative(TagsOfPiece(pieces[0]), AllTags(pieces[..|pieces| - 1][1..]),
        TagsOfPiece(pieces[|pieces| - 1]));
    }
  }

  /** When brackets occur only in tags and stand-ins, the version's text shows exactly its citations. */
  lemma {:induction false} TidyVersionShowsItsCitations(t: Turn, split: Split, fails: bool, evidence: seq<Row>,
                                                        chunks: map<Id, RetrievedChunk>, pieces: seq<Piece>)
    requires IsLookup(t.lookup, evidence, chunks) && Usual(t.reader.space) && Tidy(pieces, t.reader.space)
    requires AnswerOf(t, split, fails).texts == TextsOf(pieces)
    ensures var a := AnswerOf(t, split, fails);
      ExtractKeys(Join(a.texts, " "), t.reader.space) == CitedKeys(a.citations)
  {
    CitationsAreTheTags(t, split, fails, evidence, chunks);
    TagsOfPieces(pieces, TextsOf(pieces), t.reader.space);
    JoinedPieces(pieces, t.reader.space);
    ExtractedKeysAre(Join(TextsOf(pieces), " "), t.reader.space);
  }

  // ----- Sentences with other brackets -----

  /** A sentence that cites a and then opens a bracket. */
  function Opening(a: Tag, word: string): string { Format(a) + (" [" + word) }

  /** A sentence that closes a bracket and then cites a. */
  function Closing(word: string, a: Tag): string { word + ("] " + (Format(a) + ".")) }

  /**
    * Without that condition it fails, whatever the two tags: both sentences show the one tag a, yet their joined text
    * shows b besides, for which neither sentence was validated.
    */
  lemma {:induction false} JoiningCanMakeATag(a: Tag, b: Tag, space: Spaces)
    requires Usual(space) && !space('.') && PrintableTag(a, space) && PrintableTag(b, space)
    ensures Tags(Opening(a, b.docId), space) == [a] == Tags(Closing(b.section, a), space)
    ensures Tags(Join([Opening(a, b.docId), Closing(b.section, a)], " "), space) == [a, b, a]
  {
    OpeningShows(a, b.docId, space);
    ClosingShows(b.section, a, space);
    BothShow(a, b, space);
    JoinTwo(Opening(a, b.docId), Closing(b.section, a));
    SameText(Format(a), b.docId, b.section);
  }

  lemma {:induction false} JoinTwo(x: string, y: string)
    ensures Join([x, y], " ") == x + (" " + y)
  {
    JoinFront(x, [y], " ");
    assert [x] + [y] == [x, y];
  }

  lemma {:induction false} SameText(a: string, docId: string, section: string)
    ensures (a + (" [" + docId)) + (" " + (section + ("] " + (a + ".")))) ==
            a + (" " + (Format(Tag(docId, section)) + (" " + (a + "."))))
  {
    var end := a + ".";
    assert " [" == " " + "[" && "] " == "]" + " ";
    assert Format(Tag(docId, section)) + (" " + end) == "[" + (docId + (" " + (section + ("] " + end))));
    assert (a + (" [" + docId)) + (" " + (section + ("] " + end))) ==
      a + (" " + ("[" + (docId + (" " + (section + ("] " + end))))));
  }

  lemma {:induction false} OpeningShows(a: Tag, word: string, space: Spaces)
    requires Usual(space) && PrintableTag(a, space) && Solid(word, space) && BracketFree(word)
    ensures Tags(Opening(a, word), space) == [a]
  {
    var open := "[" + word;
    assert open[1..] == word;
    NoCloseInWord(word, space);
    assert Harmless(open, space);
    NoTagInOneWord(word, space);
    AcrossTheBlank(open, space);
    assert " [" + word == " " + open;
    TagThen(a, " " + open, space);
  }

  lemma {:induction false} NoCloseInWord(word: string, space: Spaces)
    requires Solid(word, space) && BracketFree(word)
    ensures NoCloseAhead(word, space)
  {
    assert word + "" == word && NoCloseAhead("", space);
    SolidDoesNotClose(word, "", space);
  }

  lemma {:induction false} NoTagInOneWord(word: string, space: Spaces)
    requires Solid(word, space) && BracketFree(word)
    ensures Tags("[" + word, space) == []
  {
    var s := "[" + word;
    assert s[1..] == word && word + "" == word;
    TakeRunOf(word, "", space);
    assert Parse(s, space).None?;
    NoOpeningNoTags(word, space);
  }

  lemma {:induction false} ClosingShows(word: string, a: Tag, space: Spaces)
    requires Usual(space) && !space('.') && PrintableTag(a, space) && BracketFree(word)
    ensures Tags(Closing(word, a), space) == [a]
  {
    NoOpeningThen(word, "] " + (Format(a) + "."), space);
    NoOpeningThen("] ", Format(a) + ".", space);
    FullStop(space);
    TagThen(a, ".", space);
  }

  lemma {:induction false} FullStop(space: Spaces)
    requires !space('.')
    ensures Tags(".", space) == [] && Harmless(".", space)
  {
    NoOpeningNoTags(".", space);
    assert "."[1..] == "";
  }

  lemma {:induction false} BothShow(a: Tag, b: Tag, space: Spaces)
    requires Usual(space) && !space('.') && PrintableTag(a, space) && PrintableTag(b, space)
    ensures Tags(Format(a) + (" " + (Format(b) + (" " + (Format(a) + ".")))), space) == [a, b, a]
  {
    FullStop(space);
    TagThen(a, ".", space);
    AcrossTheBlank(Format(a) + ".", space);
    TagThen(b, " " + (Format(a) + "."), space);
    AcrossTheBlank(Format(b) + (" " + (Format(a) + ".")), space);
    TagThen(a, " " + (Format(b) + (" " + (Format(a) + "."))), space);
  }

  // ----- A turn in which that happens -----

  ghost predicate NoMarks(s: string) {
    forall i :: 0 <= i < |s| ==> !IsEnd(s[i])
  }

  /** Starts and ends visibly and holds no boundary. */
  ghost predicate IsOneSentence(c: string, space: Spaces) {
    c != "" && !space(c[0]) && !space(c[|c| - 1]) && forall p :: 0 <= p < |c| ==> !Boundary(c, p, space)
  }

  lemma {:induction false} StripOfOneSentence(c: string, space: Spaces)
    requires c != "" && !space(c[0]) && !space(c[|c| - 1])
    ensures Strip(c, space) == c
  {
    assert SpacesEnd(c, 0, space) == 0 && SolidEnd(c, |c|, space) == |c|;
  }

  const FIRST := "No."

  /** The splitter makes two sentences of such a stream. */
  lemma {:induction false} TwoSentences(c: string, space: Spaces)
    requires Usual(space) && MarksAreSolid(space) && IsOneSentence(c, space)
    ensures OneShot(FIRST + (" " + c), space) == Split([FIRST], c)
  {
    var s := FIRST + (" " + c);
    assert !Boundary(s, 0, space) && !Boundary(s, 1, space) && !Boundary(s, 2, space) && Boundary(s, 3, space);
    assert FirstBoundary(s, 3, space) == Some(3) == FirstBoundary(s, 2, space) == FirstBoundary(s, 1, space);
    assert SpacesEnd(s, 4, space) == 4 == SpacesEnd(s, 3, space) && s[4..] == c;
    var head := s[..4];
    assert head == "No. ";
    assert SpacesEnd(head, 0, space) == 0 && SolidEnd(head, 3, space) == 3 == SolidEnd(head, 4, space);
    assert head[0..3] == FIRST;
    OneShotUnfolds(s, space);
    OneShotUnfolds(c, space);
    StripOfOneSentence(c, space);
  }

  lemma {:induction false} ClosingIsOneSentence(word: string, a: Tag, space: Spaces)
    requires Usual(space) && MarksAreSolid(space) && PrintableTag(a, space) && Solid(word, space)
    requires NoMarks(word) && NoMarks(a.docId) && NoMarks(a.section)
    ensures IsOneSentence(Closing(word, a), space)
  {
    var c := Closing(word, a);
    var body := word + ("] " + Format(a));
    assert c == body + ".";
    assert NoMarks(body);
    assert c[0] == word[0];
  }

  lemma {:induction false} OpeningIsStripped(a: Tag, word: string, space: Spaces)
    requires Usual(space) && Solid(word, space)
    ensures Strip(Opening(a, word), space) == Opening(a, word)
  {
    var o := Opening(a, word);
    assert o == ("[" + a.docId + " " + a.section + "]" + " [") + word;
    assert o[0] == '[' && o[|o| - 1] == word[|word| - 1];
    StripOfOneSentence(o, space);
  }

  /** A sentence that shows only a resolved tag, and enough of its chunk's words, is accepted. */
  lemma {:induction false} OneTagIsAccepted(sentence: string, tag: Tag, t: Turn)
    requires Tags(sentence, t.reader.space) == [tag] && Supports(t.lookup, tag, sentence, t.reader)
    ensures var v := Finalize(sentence, t.lookup, t.reader, t.versionId);
      v.Accept? && v.text == sentence && CitedKeys(v.citations) ==
        [Key(Tag(t.lookup[Key(tag)].docId, t.lookup[Key(tag)].section))]
  {
    var tags := Tags(sentence, t.reader.space);
    assert Supports(t.lookup, tags[0], sentence, t.reader);
    AcceptedExactlyWhenGrounded(sentence, t.lookup, t.reader, t.versionId);
    var citations := Finalize(sentence, t.lookup, t.reader, t.versionId).citations;
    assert citations[..0] == [] && CitedKeys([]) == [];
  }

  /**
    * The model streams "No." and the closing sentence; its rewrite of "No." is the opening one. Both are accepted on
    * the evidence for a, yet the version's text shows b, which the lookup does not know.
    */
  lemma {:induction false} AVersionCanShowAnInventedTag(a: Tag, b: Tag, t: Turn)
    requires Usual(t.reader.space) && MarksAreSolid(t.reader.space)
    requires PrintableTag(a, t.reader.space) && PrintableTag(b, t.reader.space)
    requires NoMarks(a.docId) && NoMarks(a.section) && NoMarks(b.section)
    requires t.complete(0) == Some(Opening(a, b.docId))
    requires Supports(t.lookup, a, Opening(a, b.docId), t.reader)
      && Supports(t.lookup, a, Closing(b.section, a), t.reader)
    ensures var answer := AnswerOf(t, OneShot(FIRST + (" " + Closing(b.section, a)), t.reader.space), false);
      && answer.texts == [Opening(a, b.docId), Closing(b.section, a)]
      && Tags(Join(answer.texts, " "), t.reader.space) == [a, b, a]
  {
    var space, c, o := t.reader.space, Closing(b.section, a), Opening(a, b.docId);
    ClosingIsOneSentence(b.section, a, space);
    TwoSentences(c, space);
    JoiningCanMakeATag(a, b, space);
    OpeningIsStripped(a, b.docId, space);
    RewriteIsTaken(o, a, t);
    OneTagIsAccepted(c, a, t);
    FoldOfOne(t, FIRST, o);
    TakenAtOnce(t, c, 1);
    AnswerOfTwo(t, FIRST, c, o);
  }

  lemma {:induction false} RewriteIsTaken(o: string, a: Tag, t: Turn)
    requires t.complete(0) == Some(o) && Strip(o, t.reader.space) == o
    requires Tags(o, t.reader.space) == [a] && Supports(t.lookup, a, o, t.reader)
    ensures SettledText(Settled(t, FIRST, 0).0) == o && Settled(t, FIRST, 0).1 == 1
  {
    NoOpeningNoTags(FIRST, t.reader.space);
    OneTagIsAccepted(o, a, t);
  }

  lemma {:induction false} FoldOfOne(t: Turn, first: string, text: string)
    requires SettledText(Settled(t, first, 0).0) == text && Settled(t, first, 0).1 == 1
    ensures Fold(t, [first]).texts == [text] && Fold(t, [first]).calls == 1
  {
    assert [first][..0] == [] && Fold(t, []) == NOTHING;
    assert Fold(t, [first]) == Step(NOTHING, t, first, false);
  }

  lemma {:induction false} TakenAtOnce(t: Turn, sentence: string, calls: nat)
    requires var v := Finalize(sentence, t.lookup, t.reader, t.versionId); v.Accept? && v.text == sentence
    ensures SettledText(Settled(t, sentence, calls).0) == sentence
  {
  }

  lemma {:induction false} AnswerOfTwo(t: Turn, first: string, last: string, text: string)
    requires last != "" && Fold(t, [first]).texts == [text] && Fold(t, [first]).calls == 1
    requires SettledText(Settled(t, last, 1).0) == last
    ensures AnswerOf(t, Split([first], last), false).texts == [text, last]
  {
    assert AnswerOf(t, Split([first], last), false) == Step(Fold(t, [first]), t, last, true);
    assert [text] + [last] == [text, last];
  }

  // ----- Such a turn, in full -----

  /** Joining two texts with a blank loses no word of either. */
  ghost predicate KeepsWords(words: string -> set<string>) {
    forall x, y :: words(x) <= words(x + (" " + y)) && words(y) <= words(x + (" " + y))
  }

  /**
    * Any two tags of an ingested corpus, the first of a chunk whose text is both sentences, and any reader that finds
    * words in them, loses none by joining, and asks for no more than full support.
    */
  lemma {:induction false} SuchATurn(a: Tag, b: Tag, row: Row, versionId: Id, reader: Reader)
    returns (t: Turn, chunk: RetrievedChunk)
    requires PrintableTag(a, PythonSpace) && PrintableTag(b, PythonSpace) && Key(a) != Key(b)
    requires NoMarks(a.docId) && NoMarks(a.section) && NoMarks(b.section) && row.duplicateOf.None?
    requires reader.space == PythonSpace && reader.entailmentMin <= 1.0 && KeepsWords(reader.words)
    requires reader.words(Opening(a, b.docId)) != {} && reader.words(Closing(b.section, a)) != {}
    ensures chunk.chunkId == row.chunkId && TagOf(chunk) == a && t.reader == reader
    ensures IsLookup(t.lookup, [row], map[row.chunkId := chunk]) && Key(b) !in t.lookup
    ensures var answer := AnswerOf(t, OneShot(FIRST + (" " + Closing(b.section, a)), PythonSpace), false);
      |answer.texts| == 2 && Tags(Join(answer.texts, " "), PythonSpace) == [a, b, a]
  {
    var o, c := Opening(a, b.docId), Closing(b.section, a);
    var both := o + (" " + c);
    chunk := RetrievedChunk(row.chunkId, a.docId, a.section, both, 0);
    t := Turn(map[Key(a) := Entry(row, chunk)], reader, versionId, 1, 0, (n: nat) => Some(o));
    OneRowLookup(row, chunk);
    PythonMarksAreSolid();
    assert reader.words(o) <= reader.words(both) && reader.words(c) <= reader.words(both);
    OverlapIsAShare(reader, o, both);
    OverlapIsAShare(reader, c, both);
    AVersionCanShowAnInventedTag(a, b, t);
  }

  lemma {:induction false} OneRowLookup(row: Row, chunk: RetrievedChunk)
    requires row.duplicateOf.None? && chunk.chunkId == row.chunkId
    ensures IsLookup(map[Key(TagOf(chunk)) := Entry(row, chunk)], [row], map[row.chunkId := chunk])
  {
    assert Citable([row][0], map[row.chunkId := chunk]);
  }
}
