/** One session's record: the transcript buffer and the controller's and generator's rolling state (SessionRecord). */
module Session {
  import opened Collections
  import opened Options
  import opened EvidenceRows
  import opened Vectors
  import opened ReorderBuffer

  type Entities = map<string, string>

  datatype Citation = Citation(answerVersionId: Id, chunkId: Id, docId: string, section: string, claimText: string,
    entailment: real)

  datatype AnswerVersion = AnswerVersion(answerVersionId: Id, versionNo: nat, text: string, citations: seq<Citation>,
    supersedes: Option<nat>)

  datatype Trigger = Provisional | Final | ForcedAfterMaxWait | Delta

  datatype Reason = PresentationOnly | NoNewEntity | AmbiguousRefinement | IntentUnstable

  datatype Decision = Wait(reason: Reason) | Retrieve(trigger: Trigger) | NoRetrieval(reason: Reason)

  /** The telemetry events that the record's log and the client see. */
  datatype Event =
    | RetrievalDecision(decision: Decision)
    | PipelineEvent
    | CitationCreated(citation: Citation)
    | Uncertainty(subQueryId: Id, reason: string)
    | AnswerDelta(versionNo: nat, text: string, isFinalSentence: bool)
    | AnswerVersionCreated(version: AnswerVersion)
    | SessionResync(latestVersion: Option<nat>)
    | ErrorEvent(stage: string)

  /** The controller's part of the record. */
  datatype Rolling = Rolling(
    entities: Entities,
    embeddingHistory: seq<Vec>,
    waitCount: nat,
    hasRetrievedForTopic: bool,
    topicEmbedding: Option<Vec>,
    lastEvidence: seq<Row>)

  const FRESH: Rolling := Rolling(map[], [], 0, false, None, [])

  /** The raw concatenation of the committed chunks. */
  function TextOf(buffer: seq<TranscriptChunk>): string {
    if buffer == [] then "" else TextOf(buffer[..|buffer| - 1]) + buffer[|buffer| - 1].text
  }

  /** It is the empty text of no chunk, the text of one, and the texts of two stretches one behind the other. */
  lemma {:induction false} TextIsTheConcatenation(a: seq<TranscriptChunk>, c: TranscriptChunk, b: seq<TranscriptChunk>)
    ensures TextOf([]) == "" && TextOf([c]) == c.text && TextOf(a + b) == TextOf(a) + TextOf(b)
  {
    assert [c][..0] == [] && TextOf([c]) == TextOf([]) + c.text;
    if b == [] {
      assert a + b == a;
    } else {
      var n := |b| - 1;
      assert (a + b)[..|a| + n] == a + b[..n];
      TextIsTheConcatenation(a, c, b[..n]);
      ConcatIsAssociative(TextOf(a), TextOf(b[..n]), b[n].text);
    }
  }

  /** What is left of p0 without the keys strictly between lo and next. */
  ghost predicate LeftOf(p: map<nat, TranscriptChunk>, p0: map<nat, TranscriptChunk>, lo: nat, next: nat) {
    && (forall k :: k in p <==> k in p0 && !(lo < k < next))
    && (forall k :: k in p ==> p[k] == p0[k])
  }

  lemma {:induction false} DrainOne(committed: seq<TranscriptChunk>, p: map<nat, TranscriptChunk>,
                                    p0: map<nat, TranscriptChunk>, lo: nat, next: nat)
    requires LeftOf(p, p0, lo, next) && next in p && lo < next
    ensures LeftOf(p - {next}, p0, lo, next + 1) && (p - {next}).Keys < p.Keys
    ensures committed + HeldRun(p, next) == (committed + [p[next]]) + HeldRun(p - {next}, next + 1)
  {
    assert next !in p - {next};
    assert committed + ([p[next]] + HeldRun(p - {next}, next + 1)) ==
      (committed + [p[next]]) + HeldRun(p - {next}, next + 1);
  }

  /** The drained state is the specification's. */
  lemma {:induction false} Drained(s: Buffered, chunk: TranscriptChunk, p: map<nat, TranscriptChunk>, next: nat)
    requires LeftOf(p, s.pending, chunk.seqNo, next) && next == chunk.seqNo + 1 + |HeldRun(s.pending, chunk.seqNo + 1)|
    ensures CommitRun(s, chunk).state.pending == p
  {
  }

  class SessionRecord {
    var buffer: seq<TranscriptChunk>
    var pending: map<nat, TranscriptChunk>
    var nextSeq: Option<nat>
    var gapOpenedAtMs: Option<nat>

    var entities: Entities
    var embeddingHistory: seq<Vec>
    var waitCount: nat
    var hasRetrievedForTopic: bool
    var topicEmbedding: Option<Vec>
    var lastEvidence: seq<Row>

    var answerVersions: seq<AnswerVersion>
    var eventLog: seq<Event>

    constructor ()
      ensures Buffering() == EMPTY && RollingState() == FRESH && answerVersions == [] && eventLog == []
    {
      buffer, pending, nextSeq, gapOpenedAtMs := [], map[], None, None;
      entities, embeddingHistory, waitCount := map[], [], 0;
      hasRetrievedForTopic, topicEmbedding, lastEvidence := false, None, [];
      answerVersions, eventLog := [], [];
    }

    ghost function Buffering(): Buffered
      reads this
    {
      Buffered(buffer, pending, nextSeq, gapOpenedAtMs)
    }

    ghost function RollingState(): Rolling
      reads this
    {
      Rolling(entities, embeddingHistory, waitCount, hasRetrievedForTopic, topicEmbedding, lastEvidence)
    }

    function BufferText(): string
      reads this
    {
      TextOf(buffer)
    }

    method Emit(event: Event)
      modifies this`eventLog
      ensures eventLog == old(eventLog) + [event]
    {
      eventLog := eventLog + [event];
    }

    /** ingest_chunk */
    method IngestChunk(chunk: TranscriptChunk, reorderWindowMs: nat)
      returns (committed: seq<TranscriptChunk>, sequenceGap: bool)
      modifies this`buffer, this`pending, this`nextSeq, this`gapOpenedAtMs
      ensures Ingested(Buffering(), committed, sequenceGap) == Ingest(old(Buffering()), chunk, reorderWindowMs)
      ensures old(WellFormed(Buffering(), reorderWindowMs)) ==>
        IngestedExactly(old(Buffering()), chunk, reorderWindowMs, Ingested(Buffering(), committed, sequenceGap))
    {
      if WellFormed(Buffering(), reorderWindowMs) {
        EveryArrivalIsIngestedExactly(Buffering(), chunk, reorderWindowMs);
      }
      if nextSeq.None? {
        nextSeq := Some(chunk.seqNo);
      }
      if chunk.seqNo < nextSeq.value {
        return [], false;
      }
      if chunk.seqNo == nextSeq.value {
        committed := CommitWithHeld(chunk);
        return committed, false;
      }
      committed, sequenceGap := HoldBack(chunk, reorderWindowMs);
    }

    /** The branch for the chunk that was waited for, with the loop that drains the held run behind it. */
    method CommitWithHeld(chunk: TranscriptChunk) returns (committed: seq<TranscriptChunk>)
      modifies this`buffer, this`pending, this`nextSeq, this`gapOpenedAtMs
      ensures Ingested(Buffering(), committed, false) == CommitRun(old(Buffering()), chunk)
    {
      ghost var batch := [chunk] + HeldRun(pending, chunk.seqNo + 1);
      committed := [chunk];
      buffer := buffer + [chunk];
      var next := chunk.seqNo + 1;
      while next in pending
        invariant chunk.seqNo < next == chunk.seqNo + |committed|
        invariant buffer == old(buffer) + committed
        invariant committed + HeldRun(pending, next) == batch
        invariant LeftOf(pending, old(pending), chunk.seqNo, next)
        invariant gapOpenedAtMs == old(gapOpenedAtMs)
        decreases pending.Keys
      {
        DrainOne(committed, pending, old(pending), chunk.seqNo, next);
        var nxt := pending[next];
        ConcatIsAssociative(old(buffer), committed, [nxt]);
        pending := pending - {next};
        buffer := buffer + [nxt];
        committed := committed + [nxt];
        next := next + 1;
      }
      nextSeq := Some(next);
      if pending == map[] {
        gapOpenedAtMs := None;
      }
      assert committed == batch;
      Drained(old(Buffering()), chunk, pending, next);
    }

    /** The branch for a chunk beyond a gap. */
    method HoldBack(chunk: TranscriptChunk, reorderWindowMs: nat)
      returns (committed: seq<TranscriptChunk>, sequenceGap: bool)
      requires nextSeq.Some?
      modifies this`buffer, this`pending, this`nextSeq, this`gapOpenedAtMs
      ensures Ingested(Buffering(), committed, sequenceGap)
           == HoldOrFlush(old(Buffering()), old(nextSeq).value, chunk, reorderWindowMs)
      ensures old(WellFormed(Buffering(), reorderWindowMs)) && chunk.seqNo > old(nextSeq).value ==>
        IngestedExactly(old(Buffering()), chunk, reorderWindowMs, Ingested(Buffering(), committed, sequenceGap))
    {
      if WellFormed(Buffering(), reorderWindowMs) && chunk.seqNo > nextSeq.value {
        EveryArrivalIsIngestedExactly(Buffering(), chunk, reorderWindowMs);
      }
      pending := pending[chunk.seqNo := chunk];
      if gapOpenedAtMs.None? {
        gapOpenedAtMs := Some(chunk.tOffsetMs);
      }
      var elapsed := chunk.tOffsetMs - gapOpenedAtMs.value;
      if elapsed < reorderWindowMs {
        return [], false;
      }
      assert chunk.seqNo in pending;
      var forced := AllHeld(pending);
      pending := map[];
      buffer := buffer + forced;
      nextSeq := Some(forced[|forced| - 1].seqNo + 1);
      gapOpenedAtMs := None;
      return forced, true;
    }
  }
}
