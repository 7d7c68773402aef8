/** What becomes of each sentence the model streams (finalize_sentence, _finalize_and_emit). */
module Finishing {
  import opened Options
  import opened EvidenceRows
  import opened Text
  import opened Sentences
  import opened CitationTags
  import opened Grounding
  import opened Generation

  /** How many of the sentences are not grounded as they stand: that many rewrites have been asked for. */
  ghost function Turned(t: Turn, sentences: seq<string>): nat {
    if sentences == [] then 0
    else
      var before, last := Turned(t, sentences[..|sentences| - 1]), sentences[|sentences| - 1];
      if Grounded(last, t.lookup, t.reader) then before else before + 1
  }

  /** The statement that stands in for a sentence turned down for this reason. */
  ghost predicate StandsIn(text: string, reason: string) {
    text == "[Unable to verify this claim from the retrieved evidence: " + reason + ".]"
  }

  /**
    * A grounded sentence stands as it is; for any other one rewrite is asked for, and that stands if it is grounded;
    * else the reason against the last of the two is stated.
    */
  ghost predicate FinishedAs(text: string, sentence: string, rewrite: Option<string>, t: Turn) {
    if Grounded(sentence, t.lookup, t.reader) then text == sentence
    else if rewrite.None? then StandsIn(text, ReasonAgainst(sentence, t.lookup, t.reader.space))
    else
      var rewritten := Strip(rewrite.value, t.reader.space);
      if Grounded(rewritten, t.lookup, t.reader) then text == rewritten
      else StandsIn(text, ReasonAgainst(rewritten, t.lookup, t.reader.space))
  }

  lemma {:induction false} OpeningWords()
    ensures "[Unable to" + " v" + "erify this claim" == "[Unable to verify this claim"
  {
    assert "[Unable to" + " v" == "[Unable to v";
  }

  lemma {:induction false} MiddleWords(front: string)
    requires front == "[Unable to verify this claim"
    ensures front + " from the retrieved" + " evidence: "
         == "[Unable to verify this claim from the retrieved evidence: "
  {
    assert front + " from the retrieved" == "[Unable to verify this claim from the retrieved";
  }

  lemma {:induction false} UncertaintyStandsIn(reason: string)
    ensures StandsIn(UncertaintyText(reason), reason)
  {
    var a, b, c, d, e := "[Unable to", " v", "erify this claim", " from the retrieved", " evidence: ";
    OpeningWords();
    MiddleWords(a + b + c);
    FiveInFront(a, b, c, d, e, reason, ".]");
  }

  lemma {:induction false} FiveInFront(a: string, b: string, c: string, d: string, e: string, x: string, y: string)
    ensures a + (b + (c + (d + (e + (x + y))))) == a + b + c + d + e + x + y
  {
  }

  lemma {:induction false} SentenceIsFinished(t: Turn, sentence: string, calls: nat)
    ensures var (v, calls') := Settled(t, sentence, calls);
      && FinishedAs(SettledText(v), sentence, t.complete(calls), t)
      && calls' == calls + if Grounded(sentence, t.lookup, t.reader) then 0 else 1
  {
    var (v, _) := Settled(t, sentence, calls);
    if v.Uncertain? { UncertaintyStandsIn(v.reason); }
    AcceptedExactlyWhenGrounded(sentence, t.lookup, t.reader, t.versionId);
    TurnedDownForAReason(sentence, t.lookup, t.reader, t.versionId);
    if t.complete(calls).Some? {
      var rewritten := Strip(t.complete(calls).value, t.reader.space);
      AcceptedExactlyWhenGrounded(rewritten, t.lookup, t.reader, t.versionId);
      TurnedDownForAReason(rewritten, t.lookup, t.reader, t.versionId);
    }
  }

  /** The texts are the sentences, each finished with the rewrite that is next when its turn comes. */
  ghost predicate AllFinished(texts: seq<string>, sentences: seq<string>, t: Turn) {
    |texts| == |sentences| && forall k :: 0 <= k < |texts| ==>
      FinishedAs(texts[k], sentences[k], t.complete(Turned(t, sentences[..k])), t)
  }

  lemma {:induction false} OneMoreFinished(texts: seq<string>, sentences: seq<string>, text: string, sentence: string,
                                           t: Turn)
    requires AllFinished(texts, sentences, t)
    requires FinishedAs(text, sentence, t.complete(Turned(t, sentences)), t)
    ensures AllFinished(texts + [text], sentences + [sentence], t)
  {
    var more := sentences + [sentence];
    forall k | 0 <= k < |more| ensures FinishedAs((texts + [text])[k], more[k], t.complete(Turned(t, more[..k])), t) {
      assert more[..k] == if k < |sentences| then sentences[..k] else sentences;
    }
  }

  lemma {:induction false} TurnedOneMore(t: Turn, sentences: seq<string>, sentence: string)
    ensures Turned(t, sentences + [sentence]) == Turned(t, sentences)
      + if Grounded(sentence, t.lookup, t.reader) then 0 else 1
  {
    assert (sentences + [sentence])[..|sentences|] == sentences;
  }

  /** The answer so far has finished these sentences. */
  ghost predicate HasFinished(a: Answered, sentences: seq<string>, t: Turn) {
    a.calls == Turned(t, sentences) && AllFinished(a.texts, sentences, t)
  }

  lemma {:induction false} StepFinishes(a: Answered, sentences: seq<string>, t: Turn, sentence: string, isFinal: bool)
    requires HasFinished(a, sentences, t)
    ensures HasFinished(Step(a, t, sentence, isFinal), sentences + [sentence], t)
  {
    var (v, _) := Settled(t, sentence, a.calls);
    SentenceIsFinished(t, sentence, a.calls);
    TurnedOneMore(t, sentences, sentence);
    OneMoreFinished(a.texts, sentences, SettledText(v), sentence, t);
  }

  lemma {:induction false} FoldFinishes(t: Turn, sentences: seq<string>)
    ensures HasFinished(Fold(t, sentences), sentences, t)
  {
    if sentences != [] {
      var before, last := sentences[..|sentences| - 1], sentences[|sentences| - 1];
      FoldFinishes(t, before);
      StepFinishes(Fold(t, before), before, t, last, false);
      assert before + [last] == sentences;
    }
  }

  /** Every sentence of the stream, and what is left of it, is finished so, in order, with nothing put in between. */
  lemma {:induction false} EverySentenceIsFinished(t: Turn, split: Split, fails: bool)
    ensures HasFinished(AnswerOf(t, split, fails), split.sentences + if split.rest == "" then [] else [split.rest], t)
  {
    var folded := Fold(t, split.sentences);
    var body := WithError(folded, fails);
    FoldFinishes(t, split.sentences);
    assert body.texts == folded.texts && body.calls == folded.calls;
    if split.rest == "" {
      assert split.sentences + [] == split.sentences;
    } else {
      StepFinishes(body, split.sentences, t, split.rest, true);
    }
  }

  // ----- What a grounded sentence stands on -----

  /** The tag names a citable row of the turn. */
  ghost predicate Names(tag: Tag, i: int, evidence: seq<Row>, chunks: map<Id, RetrievedChunk>) {
    && 0 <= i < |evidence| && evidence[i].duplicateOf.None? && evidence[i].chunkId in chunks
    && Key(tag) == Key(Tag(chunks[evidence[i].chunkId].docId, chunks[evidence[i].chunkId].section))
  }

  ghost predicate NamesSome(tag: Tag, evidence: seq<Row>, chunks: map<Id, RetrievedChunk>) {
    exists i :: Names(tag, i, evidence, chunks)
  }

  /** The tag names a row whose chunk has enough of the sentence's words. */
  ghost predicate NamesSupport(tag: Tag, sentence: string, evidence: seq<Row>, chunks: map<Id, RetrievedChunk>,
                               reader: Reader) {
    exists i :: Names(tag, i, evidence, chunks)
      && reader.Overlap(sentence, chunks[evidence[i].chunkId].text) >= reader.entailmentMin
  }

  /** Every tag of the sentence names a citable row, and one of them a row that supports it. */
  ghost predicate StandsOnEvidence(sentence: string, evidence: seq<Row>, chunks: map<Id, RetrievedChunk>,
                                   reader: Reader) {
    var tags := Tags(sentence, reader.space);
    && (forall i :: 0 <= i < |tags| ==> NamesSome(tags[i], evidence, chunks))
    && exists i :: 0 <= i < |tags| && NamesSupport(tags[i], sentence, evidence, chunks, reader)
  }

  lemma {:induction false} EntryNames(tag: Tag, lookup: Lookup, evidence: seq<Row>, chunks: map<Id, RetrievedChunk>)
    returns (i: nat)
    requires IsLookup(lookup, evidence, chunks) && Key(tag) in lookup
    ensures Names(tag, i, evidence, chunks) && lookup[Key(tag)].text == chunks[evidence[i].chunkId].text
  {
    assert IsEntry(lookup[Key(tag)], Key(tag), evidence, chunks);
    var k :| 0 <= k < |evidence| && Citable(evidence[k], chunks)
      && lookup[Key(tag)] == Entry(evidence[k], chunks[evidence[k].chunkId])
      && Key(tag) == Key(TagOf(chunks[evidence[k].chunkId]));
    i := k;
  }

  lemma {:induction false} GroundedStandsOnEvidence(sentence: string, lookup: Lookup, evidence: seq<Row>,
                                                    chunks: map<Id, RetrievedChunk>, reader: Reader)
    requires IsLookup(lookup, evidence, chunks) && Grounded(sentence, lookup, reader)
    ensures StandsOnEvidence(sentence, evidence, chunks, reader)
  {
    var tags := Tags(sentence, reader.space);
    forall i | 0 <= i < |tags| ensures NamesSome(tags[i], evidence, chunks) {
      var k := EntryNames(tags[i], lookup, evidence, chunks);
    }
    var i :| 0 <= i < |tags| && Supports(lookup, tags[i], sentence, reader);
    var k := EntryNames(tags[i], lookup, evidence, chunks);
    assert NamesSupport(tags[i], sentence, evidence, chunks, reader);
  }

  ghost predicate StandsOrSaysSo(text: string, evidence: seq<Row>, chunks: map<Id, RetrievedChunk>, reader: Reader) {
    StandsOnEvidence(text, evidence, chunks, reader) || exists reason :: IsReason(reason) && StandsIn(text, reason)
  }

  ghost predicate AllStandOrSaySo(texts: seq<string>, evidence: seq<Row>, chunks: map<Id, RetrievedChunk>,
                                  reader: Reader) {
    forall k :: 0 <= k < |texts| ==> StandsOrSaysSo(texts[k], evidence, chunks, reader)
  }

  lemma {:induction false} MayStandOrSaysSo(text: string, t: Turn, evidence: seq<Row>, chunks: map<Id, RetrievedChunk>)
    requires IsLookup(t.lookup, evidence, chunks) && MayStand(text, t)
    ensures StandsOrSaysSo(text, evidence, chunks, t.reader)
  {
    if Grounded(text, t.lookup, t.reader) {
      GroundedStandsOnEvidence(text, t.lookup, evidence, chunks, t.reader);
    } else {
      var reason :| IsReason(reason) && text == UncertaintyText(reason);
      UncertaintyStandsIn(reason);
      assert StandsIn(text, reason);
    }
  }

  /** Each text of an answer stands on the turn's evidence or states openly that it does not. */
  lemma {:induction false} EveryTextStandsOrSaysSo(t: Turn, split: Split, fails: bool, evidence: seq<Row>,
                                                   chunks: map<Id, RetrievedChunk>)
    requires IsLookup(t.lookup, evidence, chunks)
    ensures AllStandOrSaySo(AnswerOf(t, split, fails).texts, evidence, chunks, t.reader)
  {
    var texts := AnswerOf(t, split, fails).texts;
    EverySentenceMayStand(t, split, fails);
    forall k | 0 <= k < |texts| ensures StandsOrSaysSo(texts[k], evidence, chunks, t.reader) {
      MayStandOrSaysSo(texts[k], t, evidence, chunks);
    }
  }
}
