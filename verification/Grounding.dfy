/** Which sentences may stand, and on what evidence (citation_validator). */
module Grounding {
  import opened Collections
  import opened Options
  import opened EvidenceRows
  import opened Text
  import opened CitationTags
  import opened Session

  datatype EvidenceChunk = EvidenceChunk(evidenceId: Id, chunkId: Id, docId: string, section: string, text: string,
    pairId: Option<Id>)

  type Lookup = map<string, EvidenceChunk>

  // ----- The lookup -----

  /** A row that may be cited: no duplicate, and its chunk is among the turn's retrievals. */
  predicate Citable(r: Row, chunks: map<Id, RetrievedChunk>) {
    r.duplicateOf.None? && r.chunkId in chunks
  }

  function TagOf(c: RetrievedChunk): Tag { Tag(c.docId, c.section) }

  function Entry(r: Row, c: RetrievedChunk): (ec: EvidenceChunk)
    ensures ec.evidenceId == r.evidenceId && ec.chunkId == r.chunkId && ec.pairId == r.pairId
    ensures ec.docId == c.docId && ec.section == c.section && ec.text == c.text
  {
    EvidenceChunk(r.evidenceId, r.chunkId, c.docId, c.section, c.text, r.pairId)
  }

  /** The fusion score of the first row with this id, as the loop reads it back. */
  function ScoreOfId(evidence: seq<Row>, id: Id): real {
    if evidence == [] then 0.0
    else if evidence[0].evidenceId == id then evidence[0].fusionScore
    else ScoreOfId(evidence[1..], id)
  }

  /** The row that holds the tag's slot after the first n rows: a later row takes it only with a higher score. */
  ghost function Holder(evidence: seq<Row>, chunks: map<Id, RetrievedChunk>, tag: Tag, n: nat): (h: Option<nat>)
    requires n <= |evidence|
    ensures h.Some? ==>
      h.value < n && Citable(evidence[h.value], chunks) && TagOf(chunks[evidence[h.value].chunkId]) == tag
  {
    if n == 0 then None
    else
      var before, r := Holder(evidence, chunks, tag, n - 1), evidence[n - 1];
      if !Citable(r, chunks) || TagOf(chunks[r.chunkId]) != tag then before
      else if before.Some? && r.fusionScore <= ScoreOfId(evidence, evidence[before.value].evidenceId) then before
      else Some(n - 1)
  }

  lemma {:induction false} ScoreAtId(evidence: seq<Row>, i: nat)
    requires DistinctIds(evidence) && i < |evidence|
    ensures ScoreOfId(evidence, evidence[i].evidenceId) == evidence[i].fusionScore
  {
    if i > 0 {
      assert evidence[i] == evidence[1..][i - 1];
      ScoreAtId(evidence[1..], i - 1);
    }
  }

  /**
    * Every citable row has its slot taken by a citable row of the same tag and no lower score; the first of the best
    * wins.
    */
  lemma {:induction false} TheBestRowHoldsTheSlot(evidence: seq<Row>, chunks: map<Id, RetrievedChunk>, n: nat, i: nat)
    requires DistinctIds(evidence) && i < n <= |evidence| && Citable(evidence[i], chunks)
    ensures var h := Holder(evidence, chunks, TagOf(chunks[evidence[i].chunkId]), n);
      h.Some? && evidence[h.value].fusionScore >= evidence[i].fusionScore
      && (evidence[h.value].fusionScore == evidence[i].fusionScore ==> h.value <= i)
    decreases n
  {
    var tag := TagOf(chunks[evidence[i].chunkId]);
    var before := Holder(evidence, chunks, tag, n - 1);
    if i < n - 1 {
      TheBestRowHoldsTheSlot(evidence, chunks, n - 1, i);
    }
    if before.Some? {
      ScoreAtId(evidence, before.value);
    }
  }

  /** The dictionary of the loop, with its keys in insertion order. */
  ghost predicate Holding(byTag: map<Tag, EvidenceChunk>, evidence: seq<Row>, chunks: map<Id, RetrievedChunk>, n: nat)
    requires n <= |evidence|
  {
    forall tag ::
      (tag in byTag <==> Holder(evidence, chunks, tag, n).Some?)
      && (tag in byTag ==> HeldBy(byTag[tag], evidence, chunks, tag, n))
  }

  ghost predicate HeldBy(held: EvidenceChunk, evidence: seq<Row>, chunks: map<Id, RetrievedChunk>, tag: Tag, n: nat)
    requires n <= |evidence|
  {
    var h := Holder(evidence, chunks, tag, n);
    h.Some? && held == Entry(evidence[h.value], chunks[evidence[h.value].chunkId])
  }

  ghost predicate ListsKeys(order: seq<Tag>, byTag: map<Tag, EvidenceChunk>) {
    forall tag :: tag in order <==> tag in byTag
  }

  /** The tags of the citable rows among the first n, in the order of their first rows. */
  ghost function SlotOrder(evidence: seq<Row>, chunks: map<Id, RetrievedChunk>, n: nat): seq<Tag>
    requires n <= |evidence|
  {
    if n == 0 then []
    else
      var before, r := SlotOrder(evidence, chunks, n - 1), evidence[n - 1];
      if Citable(r, chunks) && TagOf(chunks[r.chunkId]) !in before then before + [TagOf(chunks[r.chunkId])] else before
  }

  /** The row is the first citable one of this tag. */
  ghost predicate IsFirstOfItsTag(i: int, evidence: seq<Row>, chunks: map<Id, RetrievedChunk>, tag: Tag) {
    && 0 <= i < |evidence| && Citable(evidence[i], chunks) && TagOf(chunks[evidence[i].chunkId]) == tag
    && forall j :: 0 <= j < i && Citable(evidence[j], chunks) ==> TagOf(chunks[evidence[j].chunkId]) != tag
  }

  /** The slots stand in the order of their tags' first rows. */
  lemma {:induction false} SlotsStandInOrder(evidence: seq<Row>, chunks: map<Id, RetrievedChunk>, n: nat)
    returns (firsts: seq<nat>)
    requires n <= |evidence|
    ensures |firsts| == |SlotOrder(evidence, chunks, n)|
    ensures forall k :: 0 <= k < |firsts| ==>
      firsts[k] < n && IsFirstOfItsTag(firsts[k], evidence, chunks, SlotOrder(evidence, chunks, n)[k])
    ensures forall k, m :: 0 <= k < m < |firsts| ==> firsts[k] < firsts[m]
    ensures forall i :: 0 <= i < n && Citable(evidence[i], chunks) ==>
      TagOf(chunks[evidence[i].chunkId]) in SlotOrder(evidence, chunks, n)
  {
    if n == 0 {
      firsts := [];
    } else {
      firsts := SlotsStandInOrder(evidence, chunks, n - 1);
      var r := evidence[n - 1];
      if Citable(r, chunks) && TagOf(chunks[r.chunkId]) !in SlotOrder(evidence, chunks, n - 1) {
        assert IsFirstOfItsTag(n - 1, evidence, chunks, TagOf(chunks[r.chunkId]));
        firsts := firsts + [n - 1];
      }
    }
  }

  /** What one row more does to the dictionary. */
  lemma {:induction false} HoldingNext(byTag: map<Tag, EvidenceChunk>, evidence: seq<Row>,
                                       chunks: map<Id, RetrievedChunk>, n: nat)
    requires n < |evidence| && Holding(byTag, evidence, chunks, n)
    ensures var r := evidence[n];
      if Citable(r, chunks) then
        var tag := TagOf(chunks[r.chunkId]);
        if tag !in byTag || r.fusionScore > ScoreOfId(evidence, byTag[tag].evidenceId)
        then Holding(byTag[tag := Entry(r, chunks[r.chunkId])], evidence, chunks, n + 1)
        else Holding(byTag, evidence, chunks, n + 1)
      else Holding(byTag, evidence, chunks, n + 1)
  {
    var r := evidence[n];
    if Citable(r, chunks) {
      var tag := TagOf(chunks[r.chunkId]);
      assert Holder(evidence, chunks, tag, n).Some? <==> tag in byTag;
      assert tag in byTag ==> HeldBy(byTag[tag], evidence, chunks, tag, n);
    }
  }

  /** The loop over the evidence rows. */
  method FillByTag(evidence: seq<Row>, chunks: map<Id, RetrievedChunk>)
    returns (order: seq<Tag>, byTag: map<Tag, EvidenceChunk>)
    ensures order == SlotOrder(evidence, chunks, |evidence|)
    ensures ListsKeys(order, byTag) && Holding(byTag, evidence, chunks, |evidence|)
  {
    order, byTag := [], map[];
    for n := 0 to |evidence|
      invariant order == SlotOrder(evidence, chunks, n)
      invariant ListsKeys(order, byTag) && Holding(byTag, evidence, chunks, n)
    {
      HoldingNext(byTag, evidence, chunks, n);
      var r := evidence[n];
      if r.duplicateOf.None? && r.chunkId in chunks {
        var tag := TagOf(chunks[r.chunkId]);
        if tag !in byTag || r.fusionScore > ScoreOfId(evidence, byTag[tag].evidenceId) {
          order := if tag in byTag then order else order + [tag];
          byTag := byTag[tag := Entry(r, chunks[r.chunkId])];
        }
      }
    }
  }

  /** Every entry is a citable row of the turn under its own key. */
  ghost predicate IsEntry(ec: EvidenceChunk, key: string, evidence: seq<Row>, chunks: map<Id, RetrievedChunk>) {
    exists i :: 0 <= i < |evidence| && Citable(evidence[i], chunks)
      && ec == Entry(evidence[i], chunks[evidence[i].chunkId]) && key == Key(TagOf(chunks[evidence[i].chunkId]))
  }

  ghost predicate IsLookup(lookup: Lookup, evidence: seq<Row>, chunks: map<Id, RetrievedChunk>) {
    && (forall key :: key in lookup ==> IsEntry(lookup[key], key, evidence, chunks))
    && (forall i :: 0 <= i < |evidence| && Citable(evidence[i], chunks) ==>
      Key(TagOf(chunks[evidence[i].chunkId])) in lookup)
  }

  /** No two tags of the turn share a key: so it is for the tags an ingested corpus produces. */
  ghost predicate KeysAreInjective(evidence: seq<Row>, chunks: map<Id, RetrievedChunk>) {
    forall i, j ::
      0 <= i < |evidence| && 0 <= j < |evidence| && Citable(evidence[i], chunks) && Citable(evidence[j], chunks)
      && Key(TagOf(chunks[evidence[i].chunkId])) == Key(TagOf(chunks[evidence[j].chunkId]))
      ==> TagOf(chunks[evidence[i].chunkId]) == TagOf(chunks[evidence[j].chunkId])
  }

  /** Its document and section are labelled as ingestion labels them. */
  ghost predicate FromACorpus(c: RetrievedChunk) {
    exists stem, n: nat :: c.docId == DocId(stem) && c.section == SectionLabel(n)
  }

  /** Keys tell the tags of ingested chunks apart. */
  lemma {:induction false} CorpusKeysAreInjective(evidence: seq<Row>, chunks: map<Id, RetrievedChunk>)
    requires forall c :: c in chunks ==> FromACorpus(chunks[c])
    ensures KeysAreInjective(evidence, chunks)
  {
    forall i, j | 0 <= i < |evidence| && 0 <= j < |evidence|
      && Citable(evidence[i], chunks) && Citable(evidence[j], chunks)
      && Key(TagOf(chunks[evidence[i].chunkId])) == Key(TagOf(chunks[evidence[j].chunkId]))
      ensures TagOf(chunks[evidence[i].chunkId]) == TagOf(chunks[evidence[j].chunkId])
    {
      SameKeySameTag(chunks[evidence[i].chunkId], chunks[evidence[j].chunkId]);
    }
  }

  lemma {:induction false} SameKeySameTag(c: RetrievedChunk, d: RetrievedChunk)
    requires FromACorpus(c) && FromACorpus(d) && Key(TagOf(c)) == Key(TagOf(d))
    ensures TagOf(c) == TagOf(d)
  {
    var a, m: nat :| c.docId == DocId(a) && c.section == SectionLabel(m);
    var b, n: nat :| d.docId == DocId(b) && d.section == SectionLabel(n);
    KeyIsInjective(a, m, b, n);
  }

  lemma {:induction false} SomebodyHolds(evidence: seq<Row>, chunks: map<Id, RetrievedChunk>, n: nat, i: nat)
    requires i < n <= |evidence| && Citable(evidence[i], chunks)
    ensures Holder(evidence, chunks, TagOf(chunks[evidence[i].chunkId]), n).Some?
    decreases n
  {
    if i < n - 1 { SomebodyHolds(evidence, chunks, n - 1, i); }
  }

  /** Every entry is a row's. */
  ghost predicate OnlyEntries(lookup: Lookup, evidence: seq<Row>, chunks: map<Id, RetrievedChunk>) {
    forall key :: key in lookup ==> IsEntry(lookup[key], key, evidence, chunks)
  }

  /** The first n tags have their slots, each holding its tag's winner when the keys tell the tags apart. */
  ghost predicate Slotted(lookup: Lookup, order: seq<Tag>, n: nat, evidence: seq<Row>, chunks: map<Id, RetrievedChunk>)
    requires n <= |order|
  {
    && (forall k :: 0 <= k < n ==> Key(order[k]) in lookup)
    && (KeysAreInjective(evidence, chunks) ==> forall k :: 0 <= k < n ==>
      HeldBy(lookup[Key(order[k])], evidence, chunks, order[k], |evidence|))
  }

  lemma {:induction false} SlotOneMore(lookup: Lookup, order: seq<Tag>, n: nat, held: EvidenceChunk,
                                       evidence: seq<Row>, chunks: map<Id, RetrievedChunk>)
    requires n < |order| && OnlyEntries(lookup, evidence, chunks) && Slotted(lookup, order, n, evidence, chunks)
    requires HeldBy(held, evidence, chunks, order[n], |evidence|)
    requires forall k :: 0 <= k < n ==> Holder(evidence, chunks, order[k], |evidence|).Some?
    ensures OnlyEntries(lookup[Key(order[n]) := held], evidence, chunks)
    ensures Slotted(lookup[Key(order[n]) := held], order, n + 1, evidence, chunks)
  {
    var more := lookup[Key(order[n]) := held];
    assert IsEntry(held, Key(order[n]), evidence, chunks);
    if KeysAreInjective(evidence, chunks) {
      forall k | 0 <= k < n + 1 ensures HeldBy(more[Key(order[k])], evidence, chunks, order[k], |evidence|) {
        if Key(order[k]) == Key(order[n]) {
          var i, j := Holder(evidence, chunks, order[k], |evidence|).value,
            Holder(evidence, chunks, order[n], |evidence|).value;
          assert TagOf(chunks[evidence[i].chunkId]) == TagOf(chunks[evidence[j].chunkId]);
        }
      }
    }
  }

  lemma {:induction false} SlotsAreComplete(lookup: Lookup, order: seq<Tag>, byTag: map<Tag, EvidenceChunk>,
                                            evidence: seq<Row>, chunks: map<Id, RetrievedChunk>)
    requires ListsKeys(order, byTag) && Holding(byTag, evidence, chunks, |evidence|)
    requires OnlyEntries(lookup, evidence, chunks) && Slotted(lookup, order, |order|, evidence, chunks)
    ensures IsTurnLookup(lookup, evidence, chunks)
  {
    forall i | 0 <= i < |evidence|
      && Citable(evidence[i], chunks) ensures Key(TagOf(chunks[evidence[i].chunkId])) in lookup {
      SomebodyHolds(evidence, chunks, |evidence|, i);
      assert TagOf(chunks[evidence[i].chunkId]) in byTag;
      assert TagOf(chunks[evidence[i].chunkId]) in order;
    }
    if KeysAreInjective(evidence, chunks) {
      forall tag | Holder(evidence, chunks, tag, |evidence|).Some?
        ensures Key(tag) in lookup && HeldBy(lookup[Key(tag)], evidence, chunks, tag, |evidence|)
      {
        assert tag in byTag;
        var k :| 0 <= k < |order| && order[k] == tag;
      }
    }
  }

  ghost predicate EverySlotHasItsWinner(lookup: Lookup, evidence: seq<Row>, chunks: map<Id, RetrievedChunk>) {
    forall tag :: Holder(evidence, chunks, tag, |evidence|).Some? ==>
      Key(tag) in lookup && HeldBy(lookup[Key(tag)], evidence, chunks, tag, |evidence|)
  }

  /** A turn's lookup: besides its keys and entries, each slot has its tag's winner when keys tell the tags apart. */
  ghost predicate IsTurnLookup(lookup: Lookup, evidence: seq<Row>, chunks: map<Id, RetrievedChunk>) {
    && IsLookup(lookup, evidence, chunks)
    && (KeysAreInjective(evidence, chunks) ==> EverySlotHasItsWinner(lookup, evidence, chunks))
  }

  ghost predicate SameTag(i: nat, j: nat, evidence: seq<Row>, chunks: map<Id, RetrievedChunk>)
    requires i < |evidence| && Citable(evidence[i], chunks) && j < |evidence|
  {
    Citable(evidence[j], chunks) && TagOf(chunks[evidence[j].chunkId]) == TagOf(chunks[evidence[i].chunkId])
  }

  /** No citable row of the tag scores higher, and none before it as high. */
  ghost predicate IsBestOfItsTag(i: nat, evidence: seq<Row>, chunks: map<Id, RetrievedChunk>)
    requires i < |evidence| && Citable(evidence[i], chunks)
  {
    forall j | 0 <= j < |evidence| && SameTag(i, j, evidence, chunks) ::
      evidence[i].fusionScore >= evidence[j].fusionScore
      && (evidence[i].fusionScore == evidence[j].fusionScore ==> i <= j)
  }

  /** The entry is that of the best citable row of its tag. */
  ghost predicate IsBestEntry(ec: EvidenceChunk, evidence: seq<Row>, chunks: map<Id, RetrievedChunk>) {
    exists i :: 0 <= i < |evidence| && Citable(evidence[i], chunks)
      && ec == Entry(evidence[i], chunks[evidence[i].chunkId]) && IsBestOfItsTag(i, evidence, chunks)
  }

  lemma {:induction false} HolderIsTheBest(tag: Tag, evidence: seq<Row>, chunks: map<Id, RetrievedChunk>)
    requires DistinctIds(evidence) && Holder(evidence, chunks, tag, |evidence|).Some?
    ensures IsBestOfItsTag(Holder(evidence, chunks, tag, |evidence|).value, evidence, chunks)
  {
    var h := Holder(evidence, chunks, tag, |evidence|).value;
    forall j | 0 <= j < |evidence| && SameTag(h, j, evidence, chunks)
      ensures evidence[h].fusionScore >= evidence[j].fusionScore
        && (evidence[h].fusionScore == evidence[j].fusionScore ==> h <= j)
    {
      TheBestRowHoldsTheSlot(evidence, chunks, |evidence|, j);
    }
  }

  /** Every entry is that of its tag's best row, when rows and tags can be told apart. */
  lemma {:induction false} EntriesAreTheBest(lookup: Lookup, key: string, evidence: seq<Row>,
                                             chunks: map<Id, RetrievedChunk>)
    requires IsTurnLookup(lookup, evidence, chunks) && KeysAreInjective(evidence, chunks) && DistinctIds(evidence)
    requires key in lookup
    ensures IsBestEntry(lookup[key], evidence, chunks)
  {
    assert IsEntry(lookup[key], key, evidence, chunks);
    var i :| 0 <= i < |evidence| && Citable(evidence[i], chunks) && key == Key(TagOf(chunks[evidence[i].chunkId]));
    var tag := TagOf(chunks[evidence[i].chunkId]);
    SomebodyHolds(evidence, chunks, |evidence|, i);
    HolderIsTheBest(tag, evidence, chunks);
    assert HeldBy(lookup[Key(tag)], evidence, chunks, tag, |evidence|);
  }

  /**
    * build_evidence_lookup: exactly the citable rows' tags are keys, every entry is a citable row, and as long as no
    * two tags share a key each slot holds its tag's winner.
    */
  method BuildEvidenceLookup(evidence: seq<Row>, chunks: map<Id, RetrievedChunk>) returns (lookup: Lookup)
    ensures IsTurnLookup(lookup, evidence, chunks)
  {
    var order, byTag := FillByTag(evidence, chunks);
    lookup := map[];
    for n := 0 to |order|
      invariant OnlyEntries(lookup, evidence, chunks) && Slotted(lookup, order, n, evidence, chunks)
    {
      assert order[n] in byTag && forall k :: 0 <= k < n ==> order[k] in byTag;
      SlotOneMore(lookup, order, n, byTag[order[n]], evidence, chunks);
      lookup := lookup[Key(order[n]) := byTag[order[n]]];
    }
    SlotsAreComplete(lookup, order, byTag, evidence, chunks);
  }

  /** There is something to cite exactly when some row is citable: not a duplicate, and retrieved in this turn. */
  lemma {:induction false} NothingToCiteExactlyWithoutCitableRows(lookup: Lookup, evidence: seq<Row>,
      chunks: map<Id, RetrievedChunk>)
    requires IsLookup(lookup, evidence, chunks)
    ensures lookup == map[] <==> forall i :: 0 <= i < |evidence| ==> !Citable(evidence[i], chunks)
  {
    if lookup != map[] {
      var key :| key in lookup;
      assert IsEntry(lookup[key], key, evidence, chunks);
    }
  }

  // ----- Validation of one sentence -----

  const FABRICATED_ID := "fabricated_id"
  const MISSING_CITATION := "missing_citation"
  const LOW_ENTAILMENT := "low_entailment"

  datatype Validation = Accept(text: string, citations: seq<Citation>) | Uncertain(reason: string)

  /** How sentences are read: whitespace, the words of a text, and the entailment an accepted sentence needs. */
  datatype Reader = Reader(space: Spaces, words: string -> set<string>, entailmentMin: real)
  {
    /** lexical_overlap: the share of the sentence's words that the chunk has. */
    function Overlap(sentence: string, chunkText: string): real {
      var mine, theirs := words(sentence), words(chunkText);
      if mine == {} || theirs == {} then 0.0 else |mine * theirs| as real / |mine| as real
    }
  }

  lemma {:induction false} OverlapIsAShare(reader: Reader, sentence: string, chunkText: string)
    ensures 0.0 <= reader.Overlap(sentence, chunkText) <= 1.0
    ensures reader.words(sentence) != {} ==>
      (reader.Overlap(sentence, chunkText) == 1.0 <==> reader.words(sentence) <= reader.words(chunkText))
    ensures reader.Overlap(sentence, chunkText) > 0.0 <==> reader.words(sentence) * reader.words(chunkText) != {}
    ensures reader.Overlap(sentence, chunkText) * |reader.words(sentence)| as real
         == |reader.words(sentence) * reader.words(chunkText)| as real
  {
    var mine, theirs := reader.words(sentence), reader.words(chunkText);
    var shared := mine * theirs;
    assert |shared| <= |mine| by { SubsetIsNoLarger(shared, mine); }
    if mine != {} && theirs != {} {
      assert |mine| > 0;
      Share(|shared|, |mine|);
      assert |shared| as real / |mine| as real * |mine| as real == |shared| as real;
      if |shared| == |mine| {
        SameSizeSubset(shared, mine);
      }
      if mine <= theirs {
        assert shared == mine;
      }
    }
  }

  lemma {:induction false} Share(k: nat, n: nat)
    requires k <= n && n > 0
    ensures 0.0 <= k as real / n as real <= 1.0
    ensures k as real / n as real == 1.0 <==> k == n
    ensures k as real / n as real > 0.0 <==> k > 0
  {
  }

  ghost predicate AllResolve(tags: seq<Tag>, lookup: Lookup) {
    forall i :: 0 <= i < |tags| ==> Key(tags[i]) in lookup
  }

  function FirstUnresolved(tags: seq<Tag>, lookup: Lookup): (b: bool)
    ensures b <==> exists i :: 0 <= i < |tags| && Key(tags[i]) !in lookup
  {
    tags != [] && (Key(tags[0]) !in lookup || FirstUnresolved(tags[1..], lookup))
  }

  function BestOverlap(sentence: string, tags: seq<Tag>, lookup: Lookup, reader: Reader): (best: real)
    requires tags != [] && forall i :: 0 <= i < |tags| ==> Key(tags[i]) in lookup
    ensures exists i :: 0 <= i < |tags| && best == reader.Overlap(sentence, lookup[Key(tags[i])].text)
    ensures forall i :: 0 <= i < |tags| ==> reader.Overlap(sentence, lookup[Key(tags[i])].text) <= best
  {
    var first := reader.Overlap(sentence, lookup[Key(tags[0])].text);
    if |tags| == 1 then first
    else
      var rest := BestOverlap(sentence, tags[1..], lookup, reader);
      if rest > first then rest else first
  }

  function CitationFor(sentence: string, ec: EvidenceChunk, reader: Reader, versionId: Id): Citation {
    Citation(versionId, ec.chunkId, ec.docId, ec.section, sentence, reader.Overlap(sentence, ec.text))
  }

  function CitationsFor(sentence: string, tags: seq<Tag>, lookup: Lookup, reader: Reader,
                        versionId: Id): (citations: seq<Citation>)
    requires forall i :: 0 <= i < |tags| ==> Key(tags[i]) in lookup
    ensures |citations| == |tags|
    ensures forall i :: 0 <= i < |tags| ==>
      citations[i] == CitationFor(sentence, lookup[Key(tags[i])], reader, versionId)
  {
    if tags == [] then []
    else [CitationFor(sentence, lookup[Key(tags[0])], reader, versionId)] + CitationsFor(sentence, tags[1..], lookup,
      reader, versionId)
  }

  /** validate_sentence and finalize_sentence, with the citations already stamped with the answer's id. */
  function Finalize(sentence: string, lookup: Lookup, reader: Reader, versionId: Id): Validation {
    var tags := Tags(sentence, reader.space);
    if FirstUnresolved(tags, lookup) then Uncertain(FABRICATED_ID)
    else if tags == [] then Uncertain(MISSING_CITATION)
    else if BestOverlap(sentence, tags, lookup, reader) < reader.entailmentMin then Uncertain(LOW_ENTAILMENT)
    else Accept(sentence, CitationsFor(sentence, tags, lookup, reader, versionId))
  }

  /** A sentence is grounded when it cites, every tag resolves, and one cited chunk supports it well enough. */
  ghost predicate Grounded(sentence: string, lookup: Lookup, reader: Reader) {
    && AllResolve(Tags(sentence, reader.space), lookup)
    && exists i ::
      0 <= i < |Tags(sentence, reader.space)| && Supports(lookup, Tags(sentence, reader.space)[i], sentence, reader)
  }

  /** Why a sentence that is not grounded is turned down: a tag that names nothing, no tag, or too little support. */
  ghost function ReasonAgainst(sentence: string, lookup: Lookup, space: Spaces): string {
    var tags := Tags(sentence, space);
    if exists i :: 0 <= i < |tags| && Key(tags[i]) !in lookup then "fabricated_id"
    else if |tags| == 0 then "missing_citation"
    else "low_entailment"
  }

  /** The reason given is the first of these that applies. */
  lemma {:induction false} TurnedDownForAReason(sentence: string, lookup: Lookup, reader: Reader, versionId: Id)
    ensures var v := Finalize(sentence, lookup, reader, versionId);
      v.Uncertain? ==> v.reason == ReasonAgainst(sentence, lookup, reader.space)
  {
  }

  ghost predicate Supports(lookup: Lookup, tag: Tag, sentence: string, reader: Reader) {
    Key(tag) in lookup && reader.Overlap(sentence, lookup[Key(tag)].text) >= reader.entailmentMin
  }

  /** Exactly the grounded sentences are accepted, unchanged, with one citation per tag in the order of the tags. */
  lemma {:induction false} AcceptedExactlyWhenGrounded(sentence: string, lookup: Lookup, reader: Reader, versionId: Id)
    ensures Finalize(sentence, lookup, reader, versionId).Accept? <==> Grounded(sentence, lookup, reader)
    ensures Grounded(sentence, lookup, reader) ==>
      var a := Finalize(sentence, lookup, reader, versionId);
      var tags := Tags(sentence, reader.space);
      a.text == sentence != "" && |a.citations| == |tags|
      && forall i :: 0 <= i < |tags| ==>
        a.citations[i] == CitationFor(sentence, lookup[Key(tags[i])], reader, versionId)
  {
    var tags := Tags(sentence, reader.space);
    if tags != [] && AllResolve(tags, lookup) {
      var best := BestOverlap(sentence, tags, lookup, reader);
      if best >= reader.entailmentMin {
        var i :| 0 <= i < |tags| && best == reader.Overlap(sentence, lookup[Key(tags[i])].text);
        assert Supports(lookup, tags[i], sentence, reader);
      }
    }
  }

  // ----- The stand-in for a sentence that could not be grounded -----

  function UncertaintyText(reason: string): string {
    "[Unable to" + StandInTail(reason)
  }

  function StandInTail(reason: string): string {
    " v" + ("erify this claim" + (" from the retrieved" + (" evidence: " + (reason + ".]"))))
  }

  predicate NoOpening(s: string) {
    forall i :: 0 <= i < |s| ==> s[i] != '['
  }

  lemma {:induction false} NoOpeningTogether(a: string, b: string)
    requires NoOpening(a) && NoOpening(b)
    ensures NoOpening(a + b)
  {
  }

  lemma {:induction false} StandInTailHasNoOpening(reason: string)
    requires BracketFree(reason)
    ensures NoOpening(StandInTail(reason))
  {
    NoOpeningTogether(reason, ".]");
    NoOpeningTogether(" evidence: ", reason + ".]");
    NoOpeningTogether(" from the retrieved", " evidence: " + (reason + ".]"));
    NoOpeningTogether("erify this claim", " from the retrieved" + (" evidence: " + (reason + ".]")));
    NoOpeningTogether(" v", "erify this claim" + (" from the retrieved" + (" evidence: " + (reason + ".]"))));
  }

  ghost predicate LettersAreSolid(space: Spaces) {
    forall c :: 'A' <= c <= 'Z' || 'a' <= c <= 'z' ==> !space(c)
  }

  lemma {:induction false} NoOpeningNoTags(s: string, space: Spaces)
    requires NoOpening(s)
    ensures Tags(s, space) == []
  {
    if s != "" { NoOpeningNoTags(s[1..], space); }
  }

  /** The stand-in is never read as a citation, although it stands in brackets. */
  lemma {:induction false} UncertaintyShowsNoCitation(reason: string, space: Spaces)
    requires BracketFree(reason) && space(' ') && LettersAreSolid(space)
    ensures Tags(UncertaintyText(reason), space) == []
  {
    var after := StandInTail(reason);
    StandInHead(after);
    SecondLetter(" v", after, reason);
    StandInTailHasNoOpening(reason);
    TwoWordsAreNoTag(UncertaintyText(reason), "Unable", "to", after, space);
  }

  lemma {:induction false} StandInHead(after: string)
    ensures "[Unable to" + after == "[" + ("Unable" + (" " + ("to" + after)))
  {
    assert "[Unable to" == "[" + ("Unable" + (" " + "to"));
  }

  lemma {:induction false} TwoWordsAreNoTag(s: string, docId: string, section: string, after: string, space: Spaces)
    requires s == "[" + (docId + (" " + (section + after))) && space(' ') && |after| > 1 && space(after[0])
    requires Solid(docId, space) && Solid(section, space) && !space(after[1]) && after[1] != ']'
    requires BracketFree(docId) && BracketFree(section) && NoOpening(after)
    ensures Tags(s, space) == []
  {
    assert s[1..] == docId + (" " + (section + after));
    NoTagInTwoWords(s, docId, section, after, space);
    NoOpeningNoTags(s[1..], space);
  }

  lemma {:induction false} SecondLetter(front: string, after: string, reason: string)
    requires after == StandInTail(reason) && front == " v"
    ensures |after| > 1 && after[0] == front[0] && after[1] == front[1]
  {
  }

  lemma {:induction false} NoTagInTwoWords(s: string, docId: string, section: string, after: string, space: Spaces)
    requires s != "" && s[1..] == docId + (" " + (section + after)) && space(' ') && |after| > 1 && space(after[0])
    requires Solid(docId, space) && Solid(section, space) && !space(after[1]) && after[1] != ']'
    requires forall i :: 0 <= i < |section| ==> section[i] != ']'
    ensures Parse(s, space).None?
  {
    var gap := section + after;
    assert (docId + (" " + gap))[0] == docId[0] && gap[0] == section[0];
    TakeRunOf(docId, " " + gap, space);
    assert TakeRun(" " + gap, space) == ("", " " + gap) && docId + "" == docId;
    assert (" " + gap)[1..] == gap;
    assert DropSpaces(" " + gap, space) == gap;
    TakeRunOf(section, after, space);
    assert TakeRun(after, space) == ("", after) && section + "" == section;
    assert DropSpaces(after, space) == after[1..];
    NoCutInside(section);
  }

  lemma {:induction false} NoCutInside(run: string)
    requires forall i :: 0 <= i < |run| ==> run[i] != ']'
    ensures CutAtLastClose(run).None?
  {
    if |run| >= 2 { NoCutInside(run[1..]); }
  }
}
