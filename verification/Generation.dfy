/** Grounded streaming generation of one turn's answer (streaming_generator.stream_answer). */
module Generation {
  import opened Options
  import opened EvidenceRows
  import opened Text
  import opened Sentences
  import opened CitationTags
  import opened Session
  import opened Grounding
  import opened MultiIntent
  import opened RankFusion

  /**
    * What the model does in a turn: the tokens it streams, whether the stream then fails, and its rewrites, of which
    * any may fail.
    */
  datatype Llm = Llm(tokens: seq<string>, fails: bool, complete: nat -> Option<string>)

  /** What one turn's sentences are finished with. */
  datatype Turn = Turn(lookup: Lookup, reader: Reader, versionId: Id, versionNo: nat, subQueryId: Id,
    complete: nat -> Option<string>)

  /** The answer so far: its sentences, their citations, the events emitted and the rewrites asked for. */
  datatype Answered = Answered(texts: seq<string>, citations: seq<Citation>, events: seq<Event>, calls: nat)

  const NOTHING: Answered := Answered([], [], [], 0)

  // ----- Specification -----

  /** The outcome for a sentence after at most one rewrite, and the number of rewrites asked for so far. */
  function Settled(t: Turn, sentence: string, calls: nat): (Validation, nat) {
    var first := Finalize(sentence, t.lookup, t.reader, t.versionId);
    if first.Accept? then (first, calls)
    else
      match t.complete(calls)
      case None => (first, calls + 1)
      case Some(rewritten) => (Finalize(Strip(rewritten, t.reader.space), t.lookup, t.reader, t.versionId), calls + 1)
  }

  function CitationEvents(citations: seq<Citation>): (events: seq<Event>)
    ensures |events| == |citations| && forall i :: 0 <= i < |events| ==> events[i] == CitationCreated(citations[i])
  {
    seq(|citations|, i requires 0 <= i < |citations| => CitationCreated(citations[i]))
  }

  function SettledText(v: Validation): string {
    match v
    case Accept(text, _) => text
    case Uncertain(reason) => UncertaintyText(reason)
  }

  function SettledCitations(v: Validation): seq<Citation> {
    if v.Accept? then v.citations else []
  }

  function SettledEvents(t: Turn, v: Validation): seq<Event> {
    match v
    case Accept(_, citations) => CitationEvents(citations)
    case Uncertain(reason) => [Uncertainty(t.subQueryId, reason)]
  }

  /** The answer with one more sentence finished. */
  function Step(a: Answered, t: Turn, sentence: string, isFinal: bool): Answered {
    var (v, calls) := Settled(t, sentence, a.calls);
    Answered(
      a.texts + [SettledText(v)], a.citations + SettledCitations(v),
      a.events + SettledEvents(t, v) + [AnswerDelta(t.versionNo, SettledText(v), isFinal)], calls)
  }

  function Fold(t: Turn, sentences: seq<string>): Answered {
    if sentences == [] then NOTHING
    else Step(Fold(t, sentences[..|sentences| - 1]), t, sentences[|sentences| - 1], false)
  }

  function WithError(a: Answered, fails: bool): Answered {
    if fails then a.(events := a.events + [ErrorEvent("generation")]) else a
  }

  /** A whole answer: complete sentences first, then the stripped remainder, if any, as the final one. */
  function AnswerOf(t: Turn, split: Split, fails: bool): Answered {
    var body := WithError(Fold(t, split.sentences), fails);
    if split.rest == "" then body else Step(body, t, split.rest, true)
  }

  function VersionOf(t: Turn, a: Answered, versions: seq<AnswerVersion>): Option<AnswerVersion> {
    if a.texts == [] then None
    else Some(AnswerVersion(t.versionId, t.versionNo, Join(a.texts, " "), a.citations,
                            if versions == [] then None else Some(versions[|versions| - 1].versionNo)))
  }

  function NextVersionNo(versions: seq<AnswerVersion>): nat {
    if versions == [] then 1 else versions[|versions| - 1].versionNo + 1
  }

  /** No active row, or none relevant enough: nothing to ground an answer in. */
  predicate Insufficient(evidence: seq<Row>, minRelevance: real) {
    !AnyActive(evidence) || Top(evidence) < minRelevance
  }

  /** The highest rerank score of the active rows; 0 when there is none. */
  function Top(evidence: seq<Row>): real {
    if evidence == [] then 0.0
    else
      var before, r := Top(evidence[..|evidence| - 1]), evidence[|evidence| - 1];
      if r.duplicateOf.Some? then before
      else if AnyActive(evidence[..|evidence| - 1]) && before >= r.Score() then before
      else r.Score()
  }

  predicate AnyActive(evidence: seq<Row>) {
    exists i :: 0 <= i < |evidence| && evidence[i].duplicateOf.None?
  }

  lemma {:induction false} TopIsTheBest(evidence: seq<Row>)
    ensures forall i :: 0 <= i < |evidence| && evidence[i].duplicateOf.None? ==> evidence[i].Score() <= Top(evidence)
    ensures AnyActive(evidence) ==>
      exists i :: 0 <= i < |evidence| && evidence[i].duplicateOf.None? && evidence[i].Score() == Top(evidence)
  {
    if evidence != [] {
      var before, last := evidence[..|evidence| - 1], |evidence| - 1;
      TopIsTheBest(before);
      assert forall i :: 0 <= i < last ==> evidence[i] == before[i];
      if AnyActive(before) {
        var i :| 0 <= i < |before| && before[i].duplicateOf.None? && before[i].Score() == Top(before);
        assert evidence[i].duplicateOf.None? && evidence[last] == evidence[last];
      }
    }
  }

  /** There is too little exactly when no active row reaches the minimum. */
  lemma {:induction false} InsufficientExactly(evidence: seq<Row>, minRelevance: real)
    ensures Insufficient(evidence, minRelevance) <==>
      forall i :: 0 <= i < |evidence| && evidence[i].duplicateOf.None? ==>
        (if evidence[i].rerankScore.Some? then evidence[i].rerankScore.value else 0.0) < minRelevance
  {
    TopIsTheBest(evidence);
  }

  function Clarifications(subQueries: seq<SubQuery>): (events: seq<Event>)
    ensures |events| == |subQueries|
    ensures forall i :: 0 <= i < |events| ==>
      events[i] == Uncertainty(subQueries[i].subQueryId, "insufficient_evidence")
  {
    if subQueries == [] then []
    else Clarifications(subQueries[..|subQueries| - 1]) + [Uncertainty(subQueries[|subQueries| - 1].subQueryId,
      "insufficient_evidence")]
  }

  // ----- Safety of the text: grounded or openly uncertain -----

  ghost predicate IsReason(reason: string) {
    reason == FABRICATED_ID || reason == MISSING_CITATION || reason == LOW_ENTAILMENT
  }

  /** What may stand in an answer. */
  ghost predicate MayStand(text: string, t: Turn) {
    Grounded(text, t.lookup, t.reader) || exists reason :: IsReason(reason) && text == UncertaintyText(reason)
  }

  lemma {:induction false} SettledMayStand(t: Turn, sentence: string, calls: nat)
    ensures var (v, calls') := Settled(t, sentence, calls);
      MayStand(SettledText(v), t) && SettledText(v) != "" && calls <= calls' <= calls + 1
  {
    AcceptedExactlyWhenGrounded(sentence, t.lookup, t.reader, t.versionId);
    if t.complete(calls).Some? {
      AcceptedExactlyWhenGrounded(Strip(t.complete(calls).value, t.reader.space), t.lookup, t.reader, t.versionId);
    }
    var (v, _) := Settled(t, sentence, calls);
    if v.Uncertain? {
      assert IsReason(v.reason);
    }
  }

  ghost predicate AllMayStand(a: Answered, t: Turn) {
    && a.calls <= |a.texts|
    && forall i :: 0 <= i < |a.texts| ==> a.texts[i] != "" && MayStand(a.texts[i], t)
  }

  lemma {:induction false} StepMayStand(a: Answered, t: Turn, sentence: string, isFinal: bool)
    requires AllMayStand(a, t)
    ensures AllMayStand(Step(a, t, sentence, isFinal), t) && |Step(a, t, sentence, isFinal).texts| == |a.texts| + 1
  {
    SettledMayStand(t, sentence, a.calls);
  }

  lemma {:induction false} FoldMayStand(t: Turn, sentences: seq<string>)
    ensures AllMayStand(Fold(t, sentences), t) && |Fold(t, sentences).texts| == |sentences|
  {
    if sentences != [] {
      var before := sentences[..|sentences| - 1];
      FoldMayStand(t, before);
      StepMayStand(Fold(t, before), t, sentences[|sentences| - 1], false);
    }
  }

  /**
    * Whatever the model streams, rewrites or fails at: every sentence is grounded or uncertain, with at most one
    * rewrite each.
    */
  lemma {:induction false} EverySentenceMayStand(t: Turn, split: Split, fails: bool)
    ensures AllMayStand(AnswerOf(t, split, fails), t)
    ensures |AnswerOf(t, split, fails).texts| == |split.sentences| + if split.rest == "" then 0 else 1
  {
    FoldMayStand(t, split.sentences);
    var body := WithError(Fold(t, split.sentences), fails);
    assert body.texts == Fold(t, split.sentences).texts;
    StepMayStand(body, t, split.rest, true);
  }

  // ----- Nothing to cite -----

  ghost predicate AllUncertain(a: Answered) {
    a.citations == [] && forall i :: 0 <= i < |a.texts| ==> IsUncertainty(a.texts[i])
  }

  ghost predicate IsUncertainty(text: string) {
    exists reason :: IsReason(reason) && text == UncertaintyText(reason)
  }

  lemma {:induction false} NothingAccepted(t: Turn, sentence: string, calls: nat)
    requires t.lookup == map[]
    ensures Settled(t, sentence, calls).0.Uncertain? && IsReason(Settled(t, sentence, calls).0.reason)
  {
  }

  lemma {:induction false} StepUncertain(a: Answered, t: Turn, sentence: string, isFinal: bool)
    requires t.lookup == map[] && AllUncertain(a)
    ensures AllUncertain(Step(a, t, sentence, isFinal))
  {
    NothingAccepted(t, sentence, a.calls);
  }

  lemma {:induction false} FoldUncertain(t: Turn, sentences: seq<string>)
    requires t.lookup == map[]
    ensures AllUncertain(Fold(t, sentences))
  {
    if sentences != [] {
      FoldUncertain(t, sentences[..|sentences| - 1]);
      StepUncertain(Fold(t, sentences[..|sentences| - 1]), t, sentences[|sentences| - 1], false);
    }
  }

  /** With nothing to cite, whatever the model writes or rewrites, the answer is made of uncertainty statements only. */
  lemma {:induction false} NothingToCiteNothingClaimed(t: Turn, split: Split, fails: bool)
    requires t.lookup == map[]
    ensures AllUncertain(AnswerOf(t, split, fails))
  {
    FoldUncertain(t, split.sentences);
    ErrorKeepsUncertain(Fold(t, split.sentences), fails);
    if split.rest != "" { StepUncertain(WithError(Fold(t, split.sentences), fails), t, split.rest, true); }
  }

  lemma {:induction false} ErrorKeepsUncertain(a: Answered, fails: bool)
    requires AllUncertain(a)
    ensures AllUncertain(WithError(a, fails))
  {
    assert WithError(a, fails).texts == a.texts;
  }

  // ----- Every citation is evidence of this turn -----

  /**
    * The citation names a non-duplicate row of the turn's evidence whose chunk was retrieved in the turn, and says how
    * much of the claim's words that chunk has.
    */
  ghost predicate CitesEvidence(c: Citation, versionId: Id, reader: Reader, evidence: seq<Row>,
                                chunks: map<Id, RetrievedChunk>) {
    && c.answerVersionId == versionId
    && exists i :: 0 <= i < |evidence| && Citable(evidence[i], chunks) && evidence[i].chunkId == c.chunkId
         && chunks[c.chunkId].docId == c.docId && chunks[c.chunkId].section == c.section
         && c.entailment == reader.Overlap(c.claimText, chunks[c.chunkId].text)
  }

  ghost predicate AllCiteEvidence(citations: seq<Citation>, versionId: Id, reader: Reader, evidence: seq<Row>,
                                  chunks: map<Id, RetrievedChunk>) {
    forall i :: 0 <= i < |citations| ==> CitesEvidence(citations[i], versionId, reader, evidence, chunks)
  }

  /** The row is moreover the best citable one of its tag. */
  ghost predicate CitesTheBest(c: Citation, evidence: seq<Row>, chunks: map<Id, RetrievedChunk>) {
    exists i :: 0 <= i < |evidence| && Citable(evidence[i], chunks) && evidence[i].chunkId == c.chunkId
      && TagOf(chunks[c.chunkId]) == Tag(c.docId, c.section) && IsBestOfItsTag(i, evidence, chunks)
  }

  ghost predicate AllCiteTheBest(citations: seq<Citation>, evidence: seq<Row>, chunks: map<Id, RetrievedChunk>) {
    forall i :: 0 <= i < |citations| ==> CitesTheBest(citations[i], evidence, chunks)
  }

  /** The citation is made from an entry of the turn's lookup. */
  ghost predicate CitesEntry(c: Citation, t: Turn) {
    exists key :: key in t.lookup && c == CitationFor(c.claimText, t.lookup[key], t.reader, t.versionId)
  }

  ghost predicate AllCiteEntries(citations: seq<Citation>, t: Turn) {
    forall i :: 0 <= i < |citations| ==> CitesEntry(citations[i], t)
  }

  lemma {:induction false} CitationsOfASentence(sentence: string, t: Turn)
    ensures var v := Finalize(sentence, t.lookup, t.reader, t.versionId); v.Accept? ==> AllCiteEntries(v.citations, t)
  {
    var v := Finalize(sentence, t.lookup, t.reader, t.versionId);
    var tags := Tags(sentence, t.reader.space);
    if v.Accept? {
      forall i | 0 <= i < |v.citations| ensures CitesEntry(v.citations[i], t) {
        assert Key(tags[i]) in t.lookup;
      }
    }
  }

  lemma {:induction false} StepCitesEntries(a: Answered, t: Turn, sentence: string, isFinal: bool)
    requires AllCiteEntries(a.citations, t)
    ensures AllCiteEntries(Step(a, t, sentence, isFinal).citations, t)
  {
    CitationsOfASentence(sentence, t);
    if t.complete(a.calls).Some? {
      CitationsOfASentence(Strip(t.complete(a.calls).value, t.reader.space), t);
    }
  }

  lemma {:induction false} FoldCitesEntries(t: Turn, sentences: seq<string>)
    ensures AllCiteEntries(Fold(t, sentences).citations, t)
  {
    if sentences != [] {
      FoldCitesEntries(t, sentences[..|sentences| - 1]);
      StepCitesEntries(Fold(t, sentences[..|sentences| - 1]), t, sentences[|sentences| - 1], false);
    }
  }

  lemma {:induction false} EveryCitationIsAnEntry(t: Turn, split: Split, fails: bool)
    ensures AllCiteEntries(AnswerOf(t, split, fails).citations, t)
  {
    FoldCitesEntries(t, split.sentences);
    StepCitesEntries(WithError(Fold(t, split.sentences), fails), t, split.rest, true);
  }

  lemma {:induction false} EveryCitationIsEvidence(t: Turn, split: Split, fails: bool, evidence: seq<Row>,
                                                   chunks: map<Id, RetrievedChunk>)
    requires IsLookup(t.lookup, evidence, chunks)
    ensures AllCiteEvidence(AnswerOf(t, split, fails).citations, t.versionId, t.reader, evidence, chunks)
  {
    var citations := AnswerOf(t, split, fails).citations;
    EveryCitationIsAnEntry(t, split, fails);
    forall i | 0 <= i < |citations| ensures CitesEvidence(citations[i], t.versionId, t.reader, evidence, chunks) {
      assert CitesEntry(citations[i], t);
      var key :| key in t.lookup && citations[i] == CitationFor(citations[i].claimText, t.lookup[key], t.reader,
        t.versionId);
      assert IsEntry(t.lookup[key], key, evidence, chunks);
    }
  }

  /** When rows and tags can be told apart, each citation names the best citable row of its tag. */
  lemma {:induction false} EveryCitationIsTheBest(t: Turn, split: Split, fails: bool, evidence: seq<Row>,
                                                  chunks: map<Id, RetrievedChunk>)
    requires IsTurnLookup(t.lookup, evidence, chunks) && KeysAreInjective(evidence, chunks) && DistinctIds(evidence)
    ensures AllCiteTheBest(AnswerOf(t, split, fails).citations, evidence, chunks)
  {
    var citations := AnswerOf(t, split, fails).citations;
    EveryCitationIsAnEntry(t, split, fails);
    forall i | 0 <= i < |citations| ensures CitesTheBest(citations[i], evidence, chunks) {
      assert CitesEntry(citations[i], t);
      var key :| key in t.lookup && citations[i] == CitationFor(citations[i].claimText, t.lookup[key], t.reader,
        t.versionId);
      EntriesAreTheBest(t.lookup, key, evidence, chunks);
    }
  }

  // ----- What the events tell -----

  /** The deltas among some events, and the citations. */
  function Deltas(events: seq<Event>): seq<Event> {
    if events == [] then []
    else
      var before, last := Deltas(events[..|events| - 1]), events[|events| - 1];
      if last.AnswerDelta? then before + [last] else before
  }

  function CitationsIn(events: seq<Event>): seq<Citation> {
    if events == [] then []
    else
      var before, last := CitationsIn(events[..|events| - 1]), events[|events| - 1];
      if last.CitationCreated? then before + [last.citation] else before
  }

  /** One delta per sentence, in order, and one citation event per citation. */
  ghost predicate Tells(a: Answered, versionNo: nat) {
    && CitationsIn(a.events) == a.citations && |Deltas(a.events)| == |a.texts|
    && forall i :: 0 <= i < |a.texts| ==> DeltaShows(Deltas(a.events)[i], versionNo, a.texts[i])
  }

  ghost predicate DeltaShows(e: Event, versionNo: nat, text: string) {
    e.AnswerDelta? && e.versionNo == versionNo && e.text == text
  }

  lemma {:induction false} EventsOfConcat(a: seq<Event>, b: seq<Event>)
    ensures Deltas(a + b) == Deltas(a) + Deltas(b) && CitationsIn(a + b) == CitationsIn(a) + CitationsIn(b)
  {
    if b == [] {
      assert a + b == a;
    } else {
      assert (a + b)[..|a + b| - 1] == a + b[..|b| - 1];
      EventsOfConcat(a, b[..|b| - 1]);
    }
  }

  lemma {:induction false} CitationEventsTell(citations: seq<Citation>)
    ensures Deltas(CitationEvents(citations)) == [] && CitationsIn(CitationEvents(citations)) == citations
  {
    if citations != [] {
      var before := citations[..|citations| - 1];
      CitationEventsTell(before);
      assert CitationEvents(citations)[..|citations| - 1] == CitationEvents(before);
    }
  }

  lemma {:induction false} SettledEventsTell(t: Turn, v: Validation)
    ensures Deltas(SettledEvents(t, v)) == [] && CitationsIn(SettledEvents(t, v)) == SettledCitations(v)
  {
    match v
    case Accept(_, citations) => CitationEventsTell(citations);
    case Uncertain(reason) => assert [Uncertainty(t.subQueryId, reason)][..0] == [];
  }

  lemma {:induction false} OneDelta(e: Event)
    requires e.AnswerDelta?
    ensures Deltas([e]) == [e] && CitationsIn([e]) == []
  {
    assert [e][..0] == [];
  }

  lemma {:induction false} StepTells(a: Answered, t: Turn, sentence: string, isFinal: bool)
    requires Tells(a, t.versionNo)
    ensures Tells(Step(a, t, sentence, isFinal), t.versionNo)
    ensures Deltas(Step(a, t, sentence, isFinal).events) ==
      Deltas(a.events) + [AnswerDelta(t.versionNo, SettledText(Settled(t, sentence, a.calls).0), isFinal)]
  {
    var (v, _) := Settled(t, sentence, a.calls);
    var delta := AnswerDelta(t.versionNo, SettledText(v), isFinal);
    EventsOfConcat(a.events, SettledEvents(t, v));
    EventsOfConcat(a.events + SettledEvents(t, v), [delta]);
    SettledEventsTell(t, v);
    OneDelta(delta);
  }

  /** None of these deltas is marked as the final sentence. */
  ghost predicate NoneFinal(deltas: seq<Event>) {
    forall i :: 0 <= i < |deltas| ==> deltas[i].AnswerDelta? && !deltas[i].isFinalSentence
  }

  ghost predicate IsFinal(delta: Event) {
    delta.AnswerDelta? && delta.isFinalSentence
  }

  lemma {:induction false} FoldTells(t: Turn, sentences: seq<string>)
    ensures Tells(Fold(t, sentences), t.versionNo) && NoneFinal(Deltas(Fold(t, sentences).events))
  {
    if sentences != [] {
      var before := sentences[..|sentences| - 1];
      FoldTells(t, before);
      StepTells(Fold(t, before), t, sentences[|sentences| - 1], false);
    }
  }

  /**
    * The events are the answer: one delta per sentence under the version's number, one citation event per citation,
    * and only the delta of the remainder is marked final.
    */
  lemma {:induction false} EventsTellTheAnswer(t: Turn, split: Split, fails: bool)
    ensures var a := AnswerOf(t, split, fails);
      var deltas := Deltas(a.events);
      && Tells(a, t.versionNo)
      && if split.rest == "" then NoneFinal(deltas)
         else deltas != [] && NoneFinal(deltas[..|deltas| - 1]) && IsFinal(deltas[|deltas| - 1])
  {
    var folded := Fold(t, split.sentences);
    FoldTells(t, split.sentences);
    var body := WithError(folded, fails);
    EventsOfConcat(folded.events, [ErrorEvent("generation")]);
    assert [ErrorEvent("generation")][..0] == [];
    assert Deltas([ErrorEvent("generation")]) == [] && CitationsIn([ErrorEvent("generation")]) == [];
    assert Tells(body, t.versionNo) && Deltas(body.events) == Deltas(folded.events);
    if split.rest != "" {
      StepTells(body, t, split.rest, true);
      var deltas := Deltas(Step(body, t, split.rest, true).events);
      assert deltas[..|deltas| - 1] == Deltas(body.events);
    }
  }

  // ----- Failures are told -----

  function Errors(events: seq<Event>): nat {
    if events == [] then 0
    else Errors(events[..|events| - 1]) + if events[|events| - 1].ErrorEvent? then 1 else 0
  }

  lemma {:induction false} ErrorsOfConcat(a: seq<Event>, b: seq<Event>)
    ensures Errors(a + b) == Errors(a) + Errors(b)
  {
    if b == [] {
      assert a + b == a;
    } else {
      assert (a + b)[..|a + b| - 1] == a + b[..|b| - 1];
      ErrorsOfConcat(a, b[..|b| - 1]);
    }
  }

  lemma {:induction false} NoErrors(events: seq<Event>)
    requires forall i :: 0 <= i < |events| ==> !events[i].ErrorEvent?
    ensures Errors(events) == 0
  {
    if events != [] { NoErrors(events[..|events| - 1]); }
  }

  lemma {:induction false} StepAddsNoError(a: Answered, t: Turn, sentence: string, isFinal: bool)
    ensures Errors(Step(a, t, sentence, isFinal).events) == Errors(a.events)
  {
    var (v, _) := Settled(t, sentence, a.calls);
    var delta := AnswerDelta(t.versionNo, SettledText(v), isFinal);
    ErrorsOfConcat(a.events, SettledEvents(t, v));
    ErrorsOfConcat(a.events + SettledEvents(t, v), [delta]);
    NoErrors(SettledEvents(t, v));
    NoErrors([delta]);
  }

  lemma {:induction false} FoldAddsNoError(t: Turn, sentences: seq<string>)
    ensures Errors(Fold(t, sentences).events) == 0
  {
    if sentences != [] {
      var before := sentences[..|sentences| - 1];
      FoldAddsNoError(t, before);
      StepAddsNoError(Fold(t, before), t, sentences[|sentences| - 1], false);
    }
  }

  /** A stream that fails leaves one error event, and any other none. */
  lemma {:induction false} FailuresAreTold(t: Turn, split: Split, fails: bool)
    ensures Errors(AnswerOf(t, split, fails).events) == if fails then 1 else 0
  {
    var folded := Fold(t, split.sentences);
    FoldAddsNoError(t, split.sentences);
    assert (folded.events + [ErrorEvent("generation")])[..|folded.events|] == folded.events;
    StepAddsNoError(WithError(folded, fails), t, split.rest, true);
  }

  // ----- Versions over a whole session -----

  /** The i-th version has number i and supersedes the one before it. */
  ghost predicate Numbered(versions: seq<AnswerVersion>) {
    forall i :: 0 <= i < |versions| ==>
      versions[i].versionNo == i + 1 && versions[i].supersedes == if i == 0 then None else Some(i)
  }

  lemma {:induction false} NextVersionKeepsNumbering(t: Turn, a: Answered, versions: seq<AnswerVersion>)
    requires Numbered(versions) && t.versionNo == NextVersionNo(versions) && VersionOf(t, a, versions).Some?
    ensures Numbered(versions + [VersionOf(t, a, versions).value])
  {
  }

  // ----- When there is no answer -----

  lemma {:induction false} VisibleSentences(sentences: seq<string>, space: Spaces)
    requires forall i :: 0 <= i < |sentences| ==> IsSentence(sentences[i], space)
    ensures sentences != [] ==> Visible(Concat(sentences), space) != ""
  {
    if sentences != [] {
      var before, last := sentences[..|sentences| - 1], sentences[|sentences| - 1];
      VisibleOfConcat(Concat(before), last, space);
      assert Visible(last, space) != "" by { FirstIsVisible(last, space); }
    }
  }

  lemma {:induction false} FirstIsVisible(s: string, space: Spaces)
    requires s != "" && !space(s[0])
    ensures Visible(s, space) != ""
  {
    VisibleOfConcat([s[0]], s[1..], space);
    assert [s[0]] + s[1..] == s;
    assert [s[0]][..0] == "";
  }

  /** An answer comes about exactly when the stream holds a visible character. */
  lemma {:induction false} AnswerExactlyWhenVisible(t: Turn, tokens: seq<string>, fails: bool)
    requires MarksAreSolid(t.reader.space)
    ensures AnswerOf(t, OneShot(Concat(tokens), t.reader.space), fails).texts != [] <==>
      Visible(Concat(tokens), t.reader.space) != ""
  {
    var space := t.reader.space;
    var split := OneShot(Concat(tokens), space);
    EverySentenceMayStand(t, split, fails);
    StreamingIsOneShot(tokens, space);
    NoVisibleCharacterIsLost(tokens, space);
    EveryPieceIsASentence(Concat(tokens), space);
    VisibleSentences(split.sentences, space);
    VisibleOfConcat(Concat(split.sentences), split.rest, space);
    if split.rest != "" {
      StripStartsVisibly(SplitAll(Concat(tokens), space).rest, space);
      FirstIsVisible(split.rest, space);
    }
  }

  lemma {:induction false} StripStartsVisibly(s: string, space: Spaces)
    requires Strip(s, space) != ""
    ensures !space(Strip(s, space)[0])
  {
    SpacesEndIsTheEnd(s, 0, space);
  }

  // ----- The implementation -----

  /** _finalize_and_emit, with its retry loop. */
  method FinalizeAndEmit(session: SessionRecord, t: Turn, sentence: string, isFinal: bool, calls: nat,
                         ghost a: Answered, ghost log: seq<Event>)
    returns (text: string, citations: seq<Citation>, calls': nat)
    requires a.calls == calls && session.eventLog == log + a.events
    modifies session`eventLog
    ensures Answered(a.texts + [text], a.citations + citations, Step(a, t, sentence, isFinal).events, calls') ==
      Step(a, t, sentence, isFinal)
    ensures session.eventLog == log + Step(a, t, sentence, isFinal).events
  {
    var result := Finalize(sentence, t.lookup, t.reader, t.versionId);
    calls' := calls;
    var attempt, failed := 0, false;
    while result.Uncertain? && attempt < REGENERATE_MAX_ATTEMPTS && !failed
      invariant attempt <= REGENERATE_MAX_ATTEMPTS && (failed ==> attempt == 1)
      invariant attempt == 0 ==> result == Finalize(sentence, t.lookup, t.reader, t.versionId) && calls' == calls
      invariant attempt == 1 ==> (result, calls') == Settled(t, sentence, calls)
      decreases REGENERATE_MAX_ATTEMPTS - attempt
    {
      attempt := attempt + 1;
      var rewritten := t.complete(calls');
      calls' := calls' + 1;
      match rewritten
      case None => failed := true;
      case Some(text) => result := Finalize(Strip(text, t.reader.space), t.lookup, t.reader, t.versionId);
    }
    EmitOutcome(session, t, result);
    text, citations := SettledText(result), SettledCitations(result);
    session.Emit(AnswerDelta(t.versionNo, text, isFinal));
    AppendedTwice(log, a.events, SettledEvents(t, result), AnswerDelta(t.versionNo, text, isFinal));
  }

  lemma {:induction false} AppendedTwice(log: seq<Event>, before: seq<Event>, events: seq<Event>, last: Event)
    ensures log + before + events + [last] == log + (before + events + [last])
  {
  }

  /** The citations of an accepted sentence one by one, or the reason why it was not accepted. */
  method EmitOutcome(session: SessionRecord, t: Turn, v: Validation)
    modifies session`eventLog
    ensures session.eventLog == old(session.eventLog) + SettledEvents(t, v)
  {
    match v
    case Uncertain(reason) => session.Emit(Uncertainty(t.subQueryId, reason));
    case Accept(_, citations) =>
      for n := 0 to |citations|
        invariant session.eventLog == old(session.eventLog) + CitationEvents(citations)[..n]
      {
        session.Emit(CitationCreated(citations[n]));
      }
  }

  const REGENERATE_MAX_ATTEMPTS := 1

  lemma {:induction false} SplitOffNext(done: seq<string>, buffer: string, all: Split, space: Spaces)
    requires Prepend(done, SplitAll(buffer, space)) == all && SplitSentence(buffer, space).Some?
    ensures var (sentence, rest) := SplitSentence(buffer, space).value;
      Prepend(done + [sentence], SplitAll(rest, space)) == all
  {
    var (sentence, rest) := SplitSentence(buffer, space).value;
    PrependTwice(done, [sentence], SplitAll(rest, space));
  }

  lemma {:induction false} FoldNext(t: Turn, done: seq<string>, sentence: string)
    ensures Fold(t, done + [sentence]) == Step(Fold(t, done), t, sentence, false)
  {
    assert (done + [sentence])[..|done|] == done;
  }

  /** The sentences, citations and log so far are those of the finished sentences. */
  ghost predicate InStep(texts: seq<string>, citations: seq<Citation>, calls: nat, log: seq<Event>, log0: seq<Event>,
                         a: Answered) {
    texts == a.texts && citations == a.citations && calls == a.calls && log == log0 + a.events
  }

  /** The loop that cuts complete sentences off the buffer. */
  method DrainSentences(session: SessionRecord, t: Turn, buffer0: string, texts0: seq<string>,
                        citations0: seq<Citation>, calls0: nat, ghost done0: seq<string>, ghost log0: seq<Event>)
    returns (buffer: string, texts: seq<string>, citations: seq<Citation>, calls: nat)
    requires InStep(texts0, citations0, calls0, session.eventLog, log0, Fold(t, done0))
    modifies session`eventLog
    ensures var all := Prepend(done0, SplitAll(buffer0, t.reader.space));
      buffer == all.rest && InStep(texts, citations, calls, session.eventLog, log0, Fold(t, all.sentences))
  {
    ghost var all, done := Prepend(done0, SplitAll(buffer0, t.reader.space)), done0;
    buffer, texts, citations, calls := buffer0, texts0, citations0, calls0;
    var split := SplitSentence(buffer, t.reader.space);
    while split.Some?
      invariant split == SplitSentence(buffer, t.reader.space)
      invariant Prepend(done, SplitAll(buffer, t.reader.space)) == all
      invariant InStep(texts, citations, calls, session.eventLog, log0, Fold(t, done))
      decreases |buffer|
    {
      var (sentence, rest) := split.value;
      SplitOffNext(done, buffer, all, t.reader.space);
      FoldNext(t, done, sentence);
      var text, more;
      text, more, calls := FinalizeAndEmit(session, t, sentence, false, calls, Fold(t, done), log0);
      texts, citations, buffer := texts + [text], citations + more, rest;
      done := done + [sentence];
      split := SplitSentence(buffer, t.reader.space);
    }
    assert done + [] == done;
  }

  /** The loop over the token stream. */
  method ConsumeTokens(session: SessionRecord, t: Turn, tokens: seq<string>)
    returns (buffer: string, texts: seq<string>, citations: seq<Citation>, calls: nat)
    modifies session`eventLog
    ensures buffer == Stream(tokens, t.reader.space).rest
    ensures InStep(texts, citations, calls, session.eventLog, old(session.eventLog),
      Fold(t, Stream(tokens, t.reader.space).sentences))
  {
    buffer, texts, citations, calls := "", [], [], 0;
    for n := 0 to |tokens|
      invariant buffer == Stream(tokens[..n], t.reader.space).rest
      invariant InStep(texts, citations, calls, session.eventLog, old(session.eventLog),
        Fold(t, Stream(tokens[..n], t.reader.space).sentences))
    {
      assert tokens[..n + 1][..n] == tokens[..n];
      buffer, texts, citations, calls := DrainSentences(session, t, buffer + tokens[n], texts, citations, calls,
        Stream(tokens[..n], t.reader.space).sentences, old(session.eventLog));
    }
    assert tokens[..|tokens|] == tokens;
  }

  /** The stream, ended by a failure or not, and the remainder it leaves. */
  method StreamSentences(session: SessionRecord, t: Turn, llm: Llm)
    returns (texts: seq<string>, citations: seq<Citation>)
    requires MarksAreSolid(t.reader.space) && t.complete == llm.complete
    modifies session`eventLog
    ensures var a := AnswerOf(t, OneShot(Concat(llm.tokens), t.reader.space), llm.fails);
      texts == a.texts && citations == a.citations && session.eventLog == old(session.eventLog) + a.events
  {
    ghost var log0 := session.eventLog;
    var buffer, calls;
    buffer, texts, citations, calls := ConsumeTokens(session, t, llm.tokens);
    StreamingIsOneShot(llm.tokens, t.reader.space);
    if llm.fails {
      session.Emit(ErrorEvent("generation"));
    }
    var rest := Strip(buffer, t.reader.space);
    if rest != "" {
      var text, more;
      text, more, calls := FinalizeAndEmit(session, t, rest, true, calls,
        WithError(Fold(t, Stream(llm.tokens, t.reader.space).sentences), llm.fails), log0);
      texts, citations := texts + [text], citations + more;
    }
  }

  /** What a turn without enough evidence emits. */
  method AskForMore(session: SessionRecord, subQueries: seq<SubQuery>)
    modifies session`eventLog
    ensures session.eventLog == old(session.eventLog) + Clarifications(subQueries)
  {
    for n := 0 to |subQueries|
      invariant session.eventLog == old(session.eventLog) + Clarifications(subQueries[..n])
    {
      assert subQueries[..n + 1][..n] == subQueries[..n];
      session.Emit(Uncertainty(subQueries[n].subQueryId, "insufficient_evidence"));
    }
    assert subQueries[..|subQueries|] == subQueries;
  }

  /** The answer that the turn, if it has enough to go on, ends with. */
  ghost predicate Answers(answer: Option<AnswerVersion>, versions0: seq<AnswerVersion>, log0: seq<Event>,
                          versions: seq<AnswerVersion>, log: seq<Event>, t: Turn, llm: Llm)
  {
    var a := AnswerOf(t, OneShot(Concat(llm.tokens), t.reader.space), llm.fails);
    && answer == VersionOf(t, a, versions0)
    && match answer
       case None => versions == versions0 && log == log0 + a.events
       case Some(v) => versions == versions0 + [v] && log == log0 + a.events + [AnswerVersionCreated(v)]
  }

  /** The answer of a turn that has enough to go on, committed with its version event. */
  method AnswerFrom(session: SessionRecord, t: Turn, llm: Llm) returns (answer: Option<AnswerVersion>)
    requires MarksAreSolid(t.reader.space) && t.complete == llm.complete
    requires t.versionNo == NextVersionNo(session.answerVersions)
    modifies session`answerVersions, session`eventLog
    ensures Answers(answer, old(session.answerVersions), old(session.eventLog), session.answerVersions,
      session.eventLog, t, llm)
  {
    answer := None;
    var texts, citations := StreamSentences(session, t, llm);
    if texts == [] {
      return;
    }
    var prior := session.answerVersions;
    var version := AnswerVersion(t.versionId, t.versionNo, Join(texts, " "), citations,
                                 if prior == [] then None else Some(prior[|prior| - 1].versionNo));
    session.answerVersions := prior + [version];
    session.Emit(AnswerVersionCreated(version));
    answer := Some(version);
  }

  /** stream_answer */
  method StreamAnswer(session: SessionRecord, subQueries: seq<SubQuery>, evidence: seq<Row>,
                      retrievals: seq<RetrievalResult>, llm: Llm, reader: Reader, minRelevance: real, versionId: Id)
    returns (answer: Option<AnswerVersion>, ghost t: Turn)
    requires MarksAreSolid(reader.space)
    modifies session`answerVersions, session`eventLog
    ensures subQueries == [] ==>
      answer.None? && session.answerVersions == old(session.answerVersions) && session.eventLog == old(session.eventLog)
    ensures subQueries != [] && Insufficient(evidence, minRelevance) ==>
      answer.None? && session.answerVersions == old(session.answerVersions)
      && session.eventLog == old(session.eventLog) + Clarifications(subQueries)
    ensures subQueries != [] && !Insufficient(evidence, minRelevance) ==>
      IsTurnLookup(t.lookup, evidence, ChunksById(retrievals))
      && t == Turn(t.lookup, reader, versionId, NextVersionNo(old(session.answerVersions)), subQueries[0].subQueryId,
        llm.complete)
      && Answers(answer, old(session.answerVersions), old(session.eventLog), session.answerVersions, session.eventLog,
        t, llm)
  {
    answer := None;
    t := Turn(map[], reader, versionId, NextVersionNo(session.answerVersions), 0, llm.complete);
    if subQueries == [] {
      return;
    }
    var lookup := BuildEvidenceLookup(evidence, ChunksById(retrievals));
    if Insufficient(evidence, minRelevance) {
      AskForMore(session, subQueries);
      return;
    }
    var turn := Turn(lookup, reader, versionId, NextVersionNo(session.answerVersions), subQueries[0].subQueryId,
      llm.complete);
    t := turn;
    answer := AnswerFrom(session, turn, llm);
  }
}
