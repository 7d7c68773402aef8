/**
  * One turn's evidence: fusion, deduplication, flagging, reranking, cap and budget
  * (retrieval_controller._fuse_and_rerank).
  */
module EvidencePipeline {
  import opened Options
  import opened EvidenceRows
  import opened Vectors
  import opened Sorting
  import opened MultiIntent
  import opened RankFusion
  import opened Dedup
  import opened EvidenceCap
  import opened Rerank
  import Contradictions

  datatype Settings = Settings(rrfK: nat, dedupThreshold: real, minRelevance: real, finalK: nat, rerankCandidates: nat,
                               maxTotal: nat, tokenBudget: nat)

  // ----- Specification -----

  /** A sub-query's rows that are not duplicates. */
  ghost function Candidates(rows: seq<Row>, subQueryId: Id): seq<Row> {
    if rows == [] then []
    else if rows[0].subQueryId == subQueryId
      && rows[0].duplicateOf.None? then [rows[0]] + Candidates(rows[1..], subQueryId)
    else Candidates(rows[1..], subQueryId)
  }

  lemma {:induction false} CandidatesAre(rows: seq<Row>, id: Id)
    ensures forall r :: r in Candidates(rows, id) <==> r in rows && r.subQueryId == id && r.duplicateOf.None?
  {
    if rows != [] {
      CandidatesAre(rows[1..], id);
      assert rows == [rows[0]] + rows[1..];
    }
  }

  lemma {:induction false} CandidatesResolved(rows: seq<Row>, id: Id, chunks: map<Id, RetrievedChunk>)
    requires AllResolved(rows, chunks)
    ensures AllResolved(Candidates(rows, id), chunks)
  {
    CandidatesAre(rows, id);
    var c := Candidates(rows, id);
    assert forall i :: 0 <= i < |c| ==> c[i] in rows;
  }

  /** The kept rows of one sub-query. */
  ghost function KeptFor(sq: SubQuery, rows: seq<Row>, chunks: map<Id, RetrievedChunk>, score: Scorer,
                         st: Settings): seq<Row>
    requires OneScorePerPair(score) && AllResolved(rows, chunks)
  {
    CandidatesResolved(rows, sq.subQueryId, chunks);
    Reranked(sq.text, Candidates(rows, sq.subQueryId), chunks, score, st.minRelevance, st.finalK, st.rerankCandidates)
  }

  /** The kept rows of every sub-query, in sub-query order. */
  ghost function Groups(subQueries: seq<SubQuery>, rows: seq<Row>, chunks: map<Id, RetrievedChunk>, score: Scorer,
                        st: Settings): (groups: seq<seq<Row>>)
    requires OneScorePerPair(score) && AllResolved(rows, chunks)
    ensures |groups| == |subQueries|
  {
    if subQueries == [] then []
    else [KeptFor(subQueries[0], rows, chunks, score, st)] + Groups(subQueries[1..], rows, chunks, score, st)
  }

  // ----- Where a kept row comes from -----

  /** r is a judged row, not a duplicate, with a rerank score added. */
  ghost predicate IsJudged(r: Row, rows: seq<Row>) {
    exists k :: 0 <= k < |rows| && r.duplicateOf.None? && r == rows[k].(rerankScore := r.rerankScore)
  }

  /** What every row kept for a sub-query satisfies. */
  ghost predicate FitsGroup(r: Row, id: Id, rows: seq<Row>, minRelevance: real) {
    r.subQueryId == id && IsJudged(r, rows) && r.rerankScore.Some? && Score(r) >= minRelevance
  }

  ghost predicate GroupFits(group: seq<Row>, id: Id, rows: seq<Row>, st: Settings) {
    |group| <= st.finalK && Descending(group, Score) && forall i :: 0 <= i < |group| ==>
      FitsGroup(group[i], id, rows, st.minRelevance)
  }

  lemma {:induction false} KeptRowsFit(sq: SubQuery, rows: seq<Row>, chunks: map<Id, RetrievedChunk>, score: Scorer,
                                       st: Settings)
    requires OneScorePerPair(score) && AllResolved(rows, chunks)
    ensures GroupFits(KeptFor(sq, rows, chunks, score, st), sq.subQueryId, rows, st)
  {
    var candidates := Candidates(rows, sq.subQueryId);
    CandidatesResolved(rows, sq.subQueryId, chunks);
    var kept := KeptFor(sq, rows, chunks, score, st);
    var scored := Judgements(sq.text, candidates, chunks, score, st.rerankCandidates);
    RerankedIsKept(sq.text, candidates, chunks, score, st.minRelevance, st.finalK, st.rerankCandidates);
    forall i | 0 <= i < |kept| ensures FitsGroup(kept[i], sq.subQueryId, rows, st.minRelevance) {
      assert kept[i] in scored;
      ScoredRowsAreJudged(sq, rows, chunks, score, st.rerankCandidates, kept[i]);
    }
  }

  lemma {:induction false} ScoredRowsAreJudged(sq: SubQuery, rows: seq<Row>, chunks: map<Id, RetrievedChunk>,
                                               score: Scorer, n: nat, r: Row)
    requires OneScorePerPair(score) && AllResolved(rows, chunks) && AllResolved(Candidates(rows, sq.subQueryId), chunks)
    requires r in Judgements(sq.text, Candidates(rows, sq.subQueryId), chunks, score, n)
    ensures r.subQueryId == sq.subQueryId && r.rerankScore.Some? && IsJudged(r, rows)
  {
    var candidates := Candidates(rows, sq.subQueryId);
    var pool := Pool(candidates, n);
    PoolComesFromCandidates(candidates, n);
    var scored := Judgements(sq.text, candidates, chunks, score, n);
    var k :| 0 <= k < |scored| && scored[k] == r;
    assert pool[k] in pool;
    CandidatesAre(rows, sq.subQueryId);
    var m :| 0 <= m < |rows| && rows[m] == pool[k];
  }

  // ----- Evidence ids stay distinct -----

  lemma {:induction false} CandidatesHaveDistinctIds(rows: seq<Row>, id: Id)
    requires DistinctIds(rows)
    ensures DistinctIds(Candidates(rows, id))
  {
    if rows != [] {
      CandidatesHaveDistinctIds(rows[1..], id);
      CandidatesAre(rows[1..], id);
      var rest := Candidates(rows[1..], id);
      assert forall i :: 0 <= i < |rest| ==> rest[i] in rows[1..];
      assert ([rows[0]] + rest)[1..] == rest;
    }
  }

  lemma {:induction false} ScoredHaveDistinctIds(pool: seq<Row>, scores: seq<real>)
    requires DistinctIds(pool) && |scores| == |pool|
    ensures DistinctIds(Scored(pool, scores))
  {
    if pool != [] {
      ScoredHaveDistinctIds(pool[1..], scores[1..]);
      assert Scored(pool, scores)[1..] == Scored(pool[1..], scores[1..]);
      assert forall i :: 0 <= i < |pool| - 1 ==>
        Scored(pool[1..], scores[1..])[i].evidenceId == pool[1..][i].evidenceId;
    }
  }

  lemma {:induction false} KeptHaveDistinctIds(sq: SubQuery, rows: seq<Row>, chunks: map<Id, RetrievedChunk>,
                                               score: Scorer, st: Settings)
    requires OneScorePerPair(score) && AllResolved(rows, chunks) && DistinctIds(rows)
    ensures DistinctIds(KeptFor(sq, rows, chunks, score, st))
  {
    var candidates := Candidates(rows, sq.subQueryId);
    CandidatesResolved(rows, sq.subQueryId, chunks);
    CandidatesHaveDistinctIds(rows, sq.subQueryId);
    var pool := Pool(candidates, st.rerankCandidates);
    PoolComesFromCandidates(candidates, st.rerankCandidates);
    SubBagHasDistinctIds(pool, candidates);
    PoolIsResolved(candidates, st.rerankCandidates, chunks);
    ScoredHaveDistinctIds(pool, score(Rerank.Pairs(sq.text, pool, chunks)));
    RerankedIsKept(sq.text, candidates, chunks, score, st.minRelevance, st.finalK, st.rerankCandidates);
    SubBagHasDistinctIds(KeptFor(sq, rows, chunks, score, st),
                         Judgements(sq.text, candidates, chunks, score, st.rerankCandidates));
  }

  /** Two judged rows with one evidence id name the same sub-query. */
  lemma {:induction false} SameIdSameRow(a: Row, b: Row, rows: seq<Row>)
    requires IsJudged(a, rows) && IsJudged(b, rows) && DistinctIds(rows) && a.evidenceId == b.evidenceId
    ensures a.subQueryId == b.subQueryId && a.chunkId == b.chunkId
  {
    IdsDiffer(rows);
    var i :| 0 <= i < |rows| && a == rows[i].(rerankScore := a.rerankScore);
    var j :| 0 <= j < |rows| && b == rows[j].(rerankScore := b.rerankScore);
    assert i == j;
  }

  lemma {:induction false} ConcatHasDistinctIds(a: seq<Row>, b: seq<Row>)
    requires DistinctIds(a) && DistinctIds(b)
    requires forall i :: 0 <= i < |a| ==> FreshIn(a[i].evidenceId, b)
    ensures DistinctIds(a + b)
  {
    if a == [] {
      assert a + b == b;
    } else {
      assert (a + b)[1..] == a[1..] + b;
      assert forall i :: 0 <= i < |a| - 1 ==> a[1..][i] == a[i + 1];
      ConcatHasDistinctIds(a[1..], b);
      assert FreshIn(a[0].evidenceId, a[1..] + b);
    }
  }

  ghost predicate DistinctQueries(subQueries: seq<SubQuery>) {
    subQueries == [] || (NotAmong(subQueries[0].subQueryId, subQueries[1..]) && DistinctQueries(subQueries[1..]))
  }

  ghost predicate NotAmong(id: Id, subQueries: seq<SubQuery>) {
    forall i :: 0 <= i < |subQueries| ==> subQueries[i].subQueryId != id
  }

  /** Every row of the groups was kept for one of the sub-queries. */
  ghost predicate KeptForSome(r: Row, subQueries: seq<SubQuery>, rows: seq<Row>, minRelevance: real) {
    exists g :: 0 <= g < |subQueries| && FitsGroup(r, subQueries[g].subQueryId, rows, minRelevance)
  }

  ghost predicate AllKept(kept: seq<Row>, subQueries: seq<SubQuery>, rows: seq<Row>, minRelevance: real) {
    forall i :: 0 <= i < |kept| ==> KeptForSome(kept[i], subQueries, rows, minRelevance)
  }

  lemma {:induction false} GroupedRowsFit(subQueries: seq<SubQuery>, rows: seq<Row>, chunks: map<Id, RetrievedChunk>,
                                          score: Scorer, st: Settings)
    requires OneScorePerPair(score) && AllResolved(rows, chunks)
    ensures AllKept(Flatten(Groups(subQueries, rows, chunks, score, st)), subQueries, rows, st.minRelevance)
  {
    if subQueries != [] {
      var head := KeptFor(subQueries[0], rows, chunks, score, st);
      var tail := Flatten(Groups(subQueries[1..], rows, chunks, score, st));
      GroupedRowsFit(subQueries[1..], rows, chunks, score, st);
      KeptRowsFit(subQueries[0], rows, chunks, score, st);
      var all := Flatten(Groups(subQueries, rows, chunks, score, st));
      assert all == head + tail;
      forall i | 0 <= i < |all| ensures KeptForSome(all[i], subQueries, rows, st.minRelevance) {
        if i < |head| {
          assert FitsGroup(all[i], subQueries[0].subQueryId, rows, st.minRelevance);
        } else {
          assert KeptForSome(tail[i - |head|], subQueries[1..], rows, st.minRelevance);
          LaterQuery(tail[i - |head|], subQueries, rows, st.minRelevance);
        }
      }
    }
  }

  lemma {:induction false} LaterQuery(r: Row, subQueries: seq<SubQuery>, rows: seq<Row>, minRelevance: real)
    requires subQueries != [] && KeptForSome(r, subQueries[1..], rows, minRelevance)
    ensures KeptForSome(r, subQueries, rows, minRelevance)
  {
    var g :| 0 <= g < |subQueries| - 1 && FitsGroup(r, subQueries[1..][g].subQueryId, rows, minRelevance);
    assert subQueries[g + 1] == subQueries[1..][g];
  }

  lemma {:induction false} GroupsHaveDistinctIds(subQueries: seq<SubQuery>, rows: seq<Row>,
                                                 chunks: map<Id, RetrievedChunk>, score: Scorer, st: Settings)
    requires OneScorePerPair(score) && AllResolved(rows, chunks) && DistinctIds(rows) && DistinctQueries(subQueries)
    ensures DistinctIds(Flatten(Groups(subQueries, rows, chunks, score, st)))
  {
    if subQueries != [] {
      var head := KeptFor(subQueries[0], rows, chunks, score, st);
      var tail := Flatten(Groups(subQueries[1..], rows, chunks, score, st));
      GroupsHaveDistinctIds(subQueries[1..], rows, chunks, score, st);
      KeptHaveDistinctIds(subQueries[0], rows, chunks, score, st);
      KeptRowsFit(subQueries[0], rows, chunks, score, st);
      GroupedRowsFit(subQueries[1..], rows, chunks, score, st);
      forall i | 0 <= i < |head| ensures FreshIn(head[i].evidenceId, tail) {
        assert FitsGroup(head[i], subQueries[0].subQueryId, rows, st.minRelevance);
        forall j | 0 <= j < |tail| ensures tail[j].evidenceId != head[i].evidenceId {
          assert KeptForSome(tail[j], subQueries[1..], rows, st.minRelevance);
          OtherQuerysRow(head[i], tail[j], subQueries, rows, st.minRelevance);
        }
      }
      ConcatHasDistinctIds(head, tail);
    }
  }

  lemma {:induction false} OtherQuerysRow(a: Row, b: Row, subQueries: seq<SubQuery>, rows: seq<Row>, minRelevance: real)
    requires subQueries != [] && NotAmong(subQueries[0].subQueryId, subQueries[1..]) && DistinctIds(rows)
    requires FitsGroup(a, subQueries[0].subQueryId, rows, minRelevance)
      && KeptForSome(b, subQueries[1..], rows, minRelevance)
    ensures a.evidenceId != b.evidenceId
  {
    var g :| 0 <= g < |subQueries| - 1 && FitsGroup(b, subQueries[1..][g].subQueryId, rows, minRelevance);
    assert b.subQueryId != a.subQueryId;
    if a.evidenceId == b.evidenceId {
      SameIdSameRow(a, b, rows);
    }
  }

  // ----- The turn's evidence -----

  /** The cap over all sub-queries' kept rows. */
  ghost function Capped(subQueries: seq<SubQuery>, rows: seq<Row>, chunks: map<Id, RetrievedChunk>, score: Scorer,
                        st: Settings): seq<Row>
    requires OneScorePerPair(score) && AllResolved(rows, chunks)
  {
    CapGlobalEvidence(Groups(subQueries, rows, chunks, score, st), st.maxTotal)
  }

  lemma {:induction false} CappedIsASelection(subQueries: seq<SubQuery>, rows: seq<Row>,
                                              chunks: map<Id, RetrievedChunk>, score: Scorer, st: Settings)
    requires OneScorePerPair(score) && AllResolved(rows, chunks) && DistinctIds(rows) && DistinctQueries(subQueries)
    ensures var all, cap := Flatten(Groups(subQueries, rows, chunks, score, st)),
      Capped(subQueries, rows, chunks, score, st);
      && DistinctIds(cap) && Descending(cap, Score)
      && |cap| == (if |all| <= st.maxTotal then |all| else st.maxTotal)
      && (forall r :: r in cap ==> r in all)
  {
    var groups := Groups(subQueries, rows, chunks, score, st);
    GroupsHaveDistinctIds(subQueries, rows, chunks, score, st);
    CapIsASelection(groups, st.maxTotal);
    SubBagHasDistinctIds(CapGlobalEvidence(groups, st.maxTotal), Flatten(groups));
  }

  lemma {:induction false} SelectedRowsFit(cap: seq<Row>, all: seq<Row>, subQueries: seq<SubQuery>, rows: seq<Row>,
                                           chunks: map<Id, RetrievedChunk>, minRelevance: real)
    requires AllResolved(rows, chunks) && AllKept(all, subQueries, rows, minRelevance) && forall r :: r in cap ==>
      r in all
    ensures AllKept(cap, subQueries, rows, minRelevance) && AllResolved(cap, chunks)
  {
    forall i | 0 <= i < |cap| ensures KeptForSome(cap[i], subQueries, rows, minRelevance) && cap[i].chunkId in chunks {
      assert cap[i] in all;
      var k :| 0 <= k < |all| && all[k] == cap[i];
      assert KeptForSome(all[k], subQueries, rows, minRelevance);
    }
  }

  lemma {:induction false} CappedRowsFit(subQueries: seq<SubQuery>, rows: seq<Row>, chunks: map<Id, RetrievedChunk>,
                                         score: Scorer, st: Settings)
    requires OneScorePerPair(score) && AllResolved(rows, chunks) && DistinctIds(rows) && DistinctQueries(subQueries)
    ensures var cap := Capped(subQueries, rows, chunks, score, st);
      AllKept(cap, subQueries, rows, st.minRelevance) && AllResolved(cap, chunks)
  {
    CappedIsASelection(subQueries, rows, chunks, score, st);
    GroupedRowsFit(subQueries, rows, chunks, score, st);
    SelectedRowsFit(Capped(subQueries, rows, chunks, score, st), Flatten(Groups(subQueries, rows, chunks, score, st)),
                    subQueries, rows, chunks, st.minRelevance);
  }

  /** What is left of a list under the token budget: its longest prefix that fits. */
  ghost predicate Budgeted(cap: seq<Row>, kept: seq<Row>, chunks: map<Id, RetrievedChunk>, budget: nat)
    requires AllResolved(cap, chunks)
  {
    && kept <= cap && Tokens(kept, chunks) <= budget
    && forall n :: |kept| < n <= |cap| ==> Tokens(cap[..n], chunks) > budget
  }

  /** The judged rows of a turn: the fused rows with their verdicts, and with the pair ids of contradicting rows. */
  ghost predicate AreTheTurnsRows(rows: seq<Row>, fused: seq<Row>, matches: (Row, Row) -> bool) {
    Contradictions.OnlyPairIdsChange(Deduped(fused, matches), rows)
  }

  /** What a turn's evidence is made from: the retrievals, the sub-queries they answer, and the models and settings. */
  datatype Sources = Sources(results: seq<RetrievalResult>, subQueries: seq<SubQuery>, firstId: Id, embedder: Embedder,
                             score: Scorer, flagging: Contradictions.Flagging, st: Settings)
  {
    ghost predicate Valid() {
      embedder.Valid() && OneScorePerPair(score) && DistinctQueries(subQueries)
    }

    ghost function Fused(): seq<Row> { FusedRows(results, st.rrfK, firstId) }

    /** The retrieved chunks by id. */
    function Chunks(): map<Id, RetrievedChunk> { ChunksById(results) }

    ghost function Matches(): (Row, Row) -> bool
      requires embedder.Valid()
    {
      Matching(Chunks(), st.dedupThreshold, embedder)
    }
  }

  /** The evidence a turn returns, from the retrievals on. */
  ghost predicate IsTurnEvidence(kept: seq<Row>, rows: seq<Row>, src: Sources) {
    && src.Valid() && AreTheTurnsRows(rows, src.Fused(), src.Matches())
    && Contradictions.AreFlagged(rows, src.Chunks(), src.flagging)
    && Usable(rows, src.Fused(), src.Chunks())
    && AllResolved(Capped(src.subQueries, rows, src.Chunks(), src.score, src.st), src.Chunks())
    && Budgeted(Capped(src.subQueries, rows, src.Chunks(), src.score, src.st), kept, src.Chunks(), src.st.tokenBudget)
  }

  /** What fusion and judging see to: every row has its chunk on record and its own id. */
  ghost predicate Usable(rows: seq<Row>, fused: seq<Row>, chunks: map<Id, RetrievedChunk>) {
    && Resolved(fused, chunks) && Unmarked(fused) && DistinctIds(fused)
    && AllResolved(rows, chunks) && DistinctIds(rows)
  }

  /** No row is marked yet. */
  ghost predicate Unmarked(fused: seq<Row>) {
    forall i :: 0 <= i < |fused| ==> fused[i].duplicateOf.None?
  }

  /**
    * A turn's evidence: no row twice, highest rerank score first, every row a non-duplicate candidate of one of the
    * sub-queries that reached the minimal relevance, no more rows than the cap allows, and no more tokens than the
    * budget.
    */
  lemma {:induction false} EvidenceIsRelevantAndBounded(kept: seq<Row>, rows: seq<Row>, src: Sources)
    requires IsTurnEvidence(kept, rows, src)
    ensures DistinctIds(kept) && Descending(kept, Score) && |kept| <= src.st.maxTotal
    ensures AllKept(kept, src.subQueries, rows, src.st.minRelevance)
    ensures AllResolved(kept, src.Chunks()) && Tokens(kept, src.Chunks()) <= src.st.tokenBudget
  {
    var cap := Capped(src.subQueries, rows, src.Chunks(), src.score, src.st);
    CappedIsASelection(src.subQueries, rows, src.Chunks(), src.score, src.st);
    CappedRowsFit(src.subQueries, rows, src.Chunks(), src.score, src.st);
    PrefixInherits(kept, cap);
    SelectedRowsFit(kept, cap, src.subQueries, rows, src.Chunks(), src.st.minRelevance);
  }

  lemma {:induction false} PrefixInherits(kept: seq<Row>, cap: seq<Row>)
    requires kept <= cap && DistinctIds(cap) && Descending(cap, Score)
    ensures DistinctIds(kept) && Descending(kept, Score) && forall r :: r in kept ==> r in cap
  {
    assert kept == cap[..|kept|];
    PrefixIsASubBag(cap, |kept|);
    SubBagHasDistinctIds(kept, cap);
  }

  // ----- No two rows say the same -----

  /** A non-duplicate judged row is a survivor of deduplication, under its own chunk. */
  lemma {:induction false} JudgedRowsSurvive(r: Row, rows: seq<Row>, fused: seq<Row>, chunks: map<Id, RetrievedChunk>,
                                             threshold: real, e: Embedder)
    requires e.Valid() && Resolved(fused, chunks) && Unmarked(fused) && DistinctIds(fused)
    requires AreTheTurnsRows(rows, fused, Matching(chunks, threshold, e)) && IsJudged(r, rows)
    ensures var survivors := Survivors(fused, Matching(chunks, threshold, e));
      exists p :: 0 <= p < |survivors| && survivors[p].evidenceId == r.evidenceId && survivors[p].chunkId == r.chunkId
  {
    var matches := Matching(chunks, threshold, e);
    var k :| 0 <= k < |rows| && r == rows[k].(rerankScore := r.rerankScore) && r.duplicateOf.None?;
    assert fused[k] in fused;
    MatchesItself(chunks, threshold, e, fused[k]);
    JudgementIsFinal(fused, matches, fused[k]);
    assert rows[k].duplicateOf == Judged(fused[k], Survivors(fused, matches), matches).duplicateOf;
    assert Survives(fused[k], fused, matches);
    assert fused[k].evidenceId == r.evidenceId && fused[k].chunkId == r.chunkId;
  }

  /** Two non-duplicate judged rows are different chunks whose texts are no more similar than the threshold. */
  lemma {:induction false} JudgedRowsAreDissimilar(r: Row, t: Row, rows: seq<Row>, fused: seq<Row>,
                                                   chunks: map<Id, RetrievedChunk>, threshold: real, e: Embedder)
    requires e.Valid() && Resolved(fused, chunks) && Unmarked(fused) && DistinctIds(fused)
    requires AreTheTurnsRows(rows, fused, Matching(chunks, threshold, e))
    requires IsJudged(r, rows) && IsJudged(t, rows) && r.evidenceId != t.evidenceId
    ensures r.chunkId in chunks && t.chunkId in chunks && r.chunkId != t.chunkId
    ensures Cosine(e.sqrt, e.embed(chunks[r.chunkId].text), e.embed(chunks[t.chunkId].text)) <= threshold
  {
    var survivors := Survivors(fused, Matching(chunks, threshold, e));
    JudgedRowsSurvive(r, rows, fused, chunks, threshold, e);
    JudgedRowsSurvive(t, rows, fused, chunks, threshold, e);
    var p :| 0 <= p < |survivors| && survivors[p].evidenceId == r.evidenceId && survivors[p].chunkId == r.chunkId;
    var q :| 0 <= q < |survivors| && survivors[q].evidenceId == t.evidenceId && survivors[q].chunkId == t.chunkId;
    SurvivorsAreDissimilar(fused, chunks, threshold, e, p, q);
  }

  /** Any two rows of a turn's evidence are different chunks whose texts are no more similar than the threshold. */
  lemma {:induction false} EvidenceIsDissimilar(kept: seq<Row>, rows: seq<Row>, src: Sources, i: nat, j: nat)
    requires IsTurnEvidence(kept, rows, src) && i < j < |kept|
    ensures var chunks, e := src.Chunks(), src.embedder;
      && kept[i].chunkId in chunks && kept[j].chunkId in chunks && kept[i].chunkId != kept[j].chunkId
      && Cosine(e.sqrt, e.embed(chunks[kept[i].chunkId].text),
        e.embed(chunks[kept[j].chunkId].text)) <= src.st.dedupThreshold
  {
    EvidenceIsRelevantAndBounded(kept, rows, src);
    IdsDiffer(kept);
    KeptIsJudged(kept[i], src.subQueries, rows, src.st.minRelevance);
    KeptIsJudged(kept[j], src.subQueries, rows, src.st.minRelevance);
    JudgedRowsAreDissimilar(kept[i], kept[j], rows, src.Fused(), src.Chunks(), src.st.dedupThreshold, src.embedder);
  }

  ghost predicate Dissimilar(r: Row, t: Row, chunks: map<Id, RetrievedChunk>, e: Embedder, threshold: real) {
    r.chunkId in chunks && t.chunkId in chunks && r.chunkId != t.chunkId
      && |e.embed(chunks[r.chunkId].text)| == |e.embed(chunks[t.chunkId].text)|
      && Cosine(e.sqrt, e.embed(chunks[r.chunkId].text), e.embed(chunks[t.chunkId].text)) <= threshold
  }

  ghost predicate AllDissimilar(evidence: seq<Row>, chunks: map<Id, RetrievedChunk>, e: Embedder, threshold: real) {
    forall i, j :: 0 <= i < j < |evidence| ==> Dissimilar(evidence[i], evidence[j], chunks, e, threshold)
  }

  /**
    * No row twice, every row reached the minimal relevance, and any two are different ones of these chunks, with texts
    * no more similar than the threshold.
    */
  ghost predicate WellChosen(evidence: seq<Row>, chunks: map<Id, RetrievedChunk>, e: Embedder, st: Settings) {
    && DistinctIds(evidence) && AllDissimilar(evidence, chunks, e, st.dedupThreshold)
    && forall i :: 0 <= i < |evidence| ==> evidence[i].chunkId in chunks && Score(evidence[i]) >= st.minRelevance
  }

  lemma {:induction false} KeptIsRelevant(r: Row, subQueries: seq<SubQuery>, rows: seq<Row>, minRelevance: real)
    requires KeptForSome(r, subQueries, rows, minRelevance)
    ensures Score(r) >= minRelevance
  {
  }

  lemma {:induction false} RowsAreDissimilar(kept: seq<Row>, rows: seq<Row>, src: Sources, i: nat, j: nat)
    requires IsTurnEvidence(kept, rows, src) && i < j < |kept|
    ensures Dissimilar(kept[i], kept[j], src.Chunks(), src.embedder, src.st.dedupThreshold)
  {
    EvidenceIsDissimilar(kept, rows, src, i, j);
  }

  /** Every row of a turn's evidence has its chunk among the turn's retrievals. */
  lemma {:induction false} EvidenceWasRetrieved(kept: seq<Row>, rows: seq<Row>, src: Sources, i: nat)
    requires IsTurnEvidence(kept, rows, src) && i < |kept|
    ensures kept[i].chunkId in src.Chunks() && kept[i].duplicateOf.None?
    ensures WasRetrieved(src.results, src.Chunks()[kept[i].chunkId])
      && src.Chunks()[kept[i].chunkId].chunkId == kept[i].chunkId
  {
    EvidenceIsRelevantAndBounded(kept, rows, src);
    ChunksAreThoseRetrieved(src.results);
    KeptIsJudged(kept[i], src.subQueries, rows, src.st.minRelevance);
  }

  /** A turn's evidence is well chosen among the chunks the turn retrieved. */
  lemma {:induction false} EvidenceIsWellChosen(kept: seq<Row>, rows: seq<Row>, src: Sources)
    requires IsTurnEvidence(kept, rows, src)
    ensures WellChosen(kept, ChunksById(src.results), src.embedder, src.st)
  {
    EvidenceIsRelevantAndBounded(kept, rows, src);
    forall i | 0 <= i < |kept| ensures kept[i].chunkId in src.Chunks() && Score(kept[i]) >= src.st.minRelevance {
      KeptIsRelevant(kept[i], src.subQueries, rows, src.st.minRelevance);
      EvidenceWasRetrieved(kept, rows, src, i);
    }
    forall i, j | 0 <= i < j < |kept|
      ensures Dissimilar(kept[i], kept[j], src.Chunks(), src.embedder, src.st.dedupThreshold)
    {
      RowsAreDissimilar(kept, rows, src, i, j);
    }
  }

  lemma {:induction false} KeptIsJudged(r: Row, subQueries: seq<SubQuery>, rows: seq<Row>, minRelevance: real)
    requires KeptForSome(r, subQueries, rows, minRelevance)
    ensures IsJudged(r, rows)
  {
  }

  // ----- At most finalK rows for a sub-query -----

  ghost function OfQuery(rows: seq<Row>, id: Id): seq<Row> {
    if rows == [] then []
    else if rows[0].subQueryId == id then [rows[0]] + OfQuery(rows[1..], id)
    else OfQuery(rows[1..], id)
  }

  lemma {:induction false} OfQueryAre(rows: seq<Row>, id: Id)
    requires DistinctIds(rows)
    ensures DistinctIds(OfQuery(rows, id))
    ensures forall r :: r in OfQuery(rows, id) <==> r in rows && r.subQueryId == id
  {
    if rows != [] {
      OfQueryAre(rows[1..], id);
      var rest := OfQuery(rows[1..], id);
      assert rows == [rows[0]] + rows[1..];
      assert forall i :: 0 <= i < |rest| ==> rest[i] in rows[1..];
      assert ([rows[0]] + rest)[1..] == rest;
    }
  }

  /** Distinct rows that all stand in b are no more than b's. */
  lemma {:induction false} NoMoreThan(a: seq<Row>, b: seq<Row>)
    requires DistinctIds(a) && forall r :: r in a ==> r in b
    ensures |a| <= |b|
  {
    if a != [] {
      assert a[0] in a;
      var k :| 0 <= k < |b| && b[k] == a[0];
      var rest := b[..k] + b[k + 1..];
      forall r | r in a[1..] ensures r in rest {
        assert r in a;
        var m :| 0 <= m < |b| && b[m] == r;
        var t :| 0 <= t < |a| - 1 && a[1..][t] == r;
        assert a[1..][t].evidenceId != a[0].evidenceId;
        assert rest[if m < k then m else m - 1] == r;
      }
      NoMoreThan(a[1..], rest);
    }
  }

  lemma {:induction false} GroupOfARow(r: Row, subQueries: seq<SubQuery>, rows: seq<Row>,
                                       chunks: map<Id, RetrievedChunk>, score: Scorer, st: Settings, g: nat)
    requires OneScorePerPair(score) && AllResolved(rows, chunks) && DistinctQueries(subQueries) && g < |subQueries|
    requires r in Flatten(Groups(subQueries, rows, chunks, score, st)) && r.subQueryId == subQueries[g].subQueryId
    ensures r in KeptFor(subQueries[g], rows, chunks, score, st)
  {
    var head := KeptFor(subQueries[0], rows, chunks, score, st);
    KeptRowsFit(subQueries[0], rows, chunks, score, st);
    if g == 0 {
      if r in Flatten(Groups(subQueries[1..], rows, chunks, score, st)) {
        LaterRowsAreOthers(r, subQueries, rows, chunks, score, st);
      }
    } else {
      assert subQueries[g] == subQueries[1..][g - 1];
      assert r !in head;
      GroupOfARow(r, subQueries[1..], rows, chunks, score, st, g - 1);
    }
  }

  lemma {:induction false} LaterRowsAreOthers(r: Row, subQueries: seq<SubQuery>, rows: seq<Row>,
                                              chunks: map<Id, RetrievedChunk>, score: Scorer, st: Settings)
    requires OneScorePerPair(score) && AllResolved(rows, chunks) && DistinctQueries(subQueries) && subQueries != []
    requires r in Flatten(Groups(subQueries[1..], rows, chunks, score, st))
    ensures r.subQueryId != subQueries[0].subQueryId
  {
    var tail := Flatten(Groups(subQueries[1..], rows, chunks, score, st));
    GroupedRowsFit(subQueries[1..], rows, chunks, score, st);
    var k :| 0 <= k < |tail| && tail[k] == r;
    assert KeptForSome(tail[k], subQueries[1..], rows, st.minRelevance);
  }

  /** No sub-query has more than finalK rows in a turn's evidence. */
  lemma {:induction false} NoSubQueryDominates(kept: seq<Row>, rows: seq<Row>, src: Sources, g: nat)
    requires IsTurnEvidence(kept, rows, src) && g < |src.subQueries|
    ensures |OfQuery(kept, src.subQueries[g].subQueryId)| <= src.st.finalK
  {
    var id := src.subQueries[g].subQueryId;
    EvidenceIsRelevantAndBounded(kept, rows, src);
    CappedIsASelection(src.subQueries, rows, src.Chunks(), src.score, src.st);
    OfQueryAre(kept, id);
    var mine, group := OfQuery(kept, id), KeptFor(src.subQueries[g], rows, src.Chunks(), src.score, src.st);
    forall r | r in mine ensures r in group {
      assert r in Capped(src.subQueries, rows, src.Chunks(), src.score, src.st);
      GroupOfARow(r, src.subQueries, rows, src.Chunks(), src.score, src.st, g);
    }
    NoMoreThan(mine, group);
    KeptRowsFit(src.subQueries[g], rows, src.Chunks(), src.score, src.st);
  }

  // ----- The floor -----

  lemma {:induction false} BestIsInTheFloor(groups: seq<seq<Row>>, g: nat)
    requires g < |groups| && groups[g] != []
    ensures Best(groups[g]) in Floor(groups)
  {
    if g > 0 {
      assert groups[1..][g - 1] == groups[g];
      BestIsInTheFloor(groups[1..], g - 1);
    }
  }

  lemma {:induction false} GroupAt(subQueries: seq<SubQuery>, rows: seq<Row>, chunks: map<Id, RetrievedChunk>,
                                   score: Scorer, st: Settings, g: nat)
    requires OneScorePerPair(score) && AllResolved(rows, chunks) && g < |subQueries|
    ensures Groups(subQueries, rows, chunks, score, st)[g] == KeptFor(subQueries[g], rows, chunks, score, st)
  {
    if g > 0 { GroupAt(subQueries[1..], rows, chunks, score, st, g - 1); }
  }

  lemma {:induction false} BestIsCapped(subQueries: seq<SubQuery>, rows: seq<Row>, chunks: map<Id, RetrievedChunk>,
                                        score: Scorer, st: Settings, g: nat)
    requires OneScorePerPair(score) && AllResolved(rows, chunks) && DistinctIds(rows) && DistinctQueries(subQueries)
    requires g < |subQueries| && KeptFor(subQueries[g], rows, chunks, score, st) != []
    requires |Floor(Groups(subQueries, rows, chunks, score, st))| <= st.maxTotal
    ensures Best(KeptFor(subQueries[g], rows, chunks, score, st)) in Capped(subQueries, rows, chunks, score, st)
  {
    var groups := Groups(subQueries, rows, chunks, score, st);
    GroupAt(subQueries, rows, chunks, score, st, g);
    BestIsInTheFloor(groups, g);
    GroupsHaveDistinctIds(subQueries, rows, chunks, score, st);
    CapIsASelection(groups, st.maxTotal);
    assert Best(groups[g]) in multiset(Floor(groups));
  }

  lemma {:induction false} NothingIsCut(cap: seq<Row>, kept: seq<Row>, chunks: map<Id, RetrievedChunk>, budget: nat)
    requires AllResolved(cap, chunks) && Budgeted(cap, kept, chunks, budget) && Tokens(cap, chunks) <= budget
    ensures kept == cap
  {
    assert cap[..|cap|] == cap;
  }

  /**
    * With slots for every sub-query that kept a row, and a budget that cuts nothing, each of them is represented by
    * its best row.
    */
  lemma {:induction false} EverySubQueryIsRepresented(kept: seq<Row>, rows: seq<Row>, src: Sources, g: nat)
    requires IsTurnEvidence(kept, rows, src) && g < |src.subQueries|
    requires KeptFor(src.subQueries[g], rows, src.Chunks(), src.score, src.st) != []
    requires |Floor(Groups(src.subQueries, rows, src.Chunks(), src.score, src.st))| <= src.st.maxTotal
    requires Tokens(Capped(src.subQueries, rows, src.Chunks(), src.score, src.st), src.Chunks()) <= src.st.tokenBudget
    ensures Best(KeptFor(src.subQueries[g], rows, src.Chunks(), src.score, src.st)) in kept
  {
    BestIsCapped(src.subQueries, rows, src.Chunks(), src.score, src.st, g);
    NothingIsCut(Capped(src.subQueries, rows, src.Chunks(), src.score, src.st), kept, src.Chunks(), src.st.tokenBudget);
  }

  // ----- What the rows are scored for, and what they were chosen from -----

  /** The row carries the cross-encoder's score of its own chunk's text for its own sub-query's text. */
  ghost predicate ScoredForItsQuery(r: Row, src: Sources) {
    exists g :: 0 <= g < |src.subQueries| && src.subQueries[g].subQueryId == r.subQueryId
      && ScoredFor(r, src.subQueries[g].text, src.Chunks(), src.score)
  }

  /** Every row of a turn's evidence is scored for the question it answers. */
  lemma {:induction false} EvidenceIsScoredForItsQuery(kept: seq<Row>, rows: seq<Row>, src: Sources, i: nat)
    requires IsTurnEvidence(kept, rows, src) && i < |kept|
    ensures ScoredForItsQuery(kept[i], src)
  {
    var chunks, st := src.Chunks(), src.st;
    EvidenceIsRelevantAndBounded(kept, rows, src);
    CappedIsASelection(src.subQueries, rows, chunks, src.score, st);
    assert KeptForSome(kept[i], src.subQueries, rows, st.minRelevance);
    var g :| 0 <= g < |src.subQueries| && FitsGroup(kept[i], src.subQueries[g].subQueryId, rows, st.minRelevance);
    var sq := src.subQueries[g];
    assert kept[i] in Capped(src.subQueries, rows, chunks, src.score, st);
    GroupOfARow(kept[i], src.subQueries, rows, chunks, src.score, st, g);
    CandidatesResolved(rows, sq.subQueryId, chunks);
    RerankedAreScoredFor(sq.text, Candidates(rows, sq.subQueryId), chunks, src.score, st.minRelevance, st.finalK,
                         st.rerankCandidates, kept[i]);
  }

  /** Row i is as it was fused, or a duplicate of row k, which says the same, scores no lower and is none itself. */
  ghost predicate KeptOrDuplicate(rows: seq<Row>, fused: seq<Row>, src: Sources, i: nat)
    requires src.embedder.Valid() && i < |fused| == |rows|
  {
    rows[i] == fused[i].(pairId := rows[i].pairId)
    || exists k ::
      && 0 <= k < |fused| && k != i && rows[k].duplicateOf.None? && fused[k].fusionScore >= fused[i].fusionScore
      && rows[i] == fused[i].(duplicateOf := Some(fused[k].evidenceId), pairId := rows[i].pairId)
      && SayTheSame(fused[i], fused[k], src.Chunks(), src.st.dedupThreshold, src.embedder)
  }

  /** The judged rows are those fused from the retrievals under the settings, each with its verdict. */
  lemma {:induction false} JudgedRowsAreTheFused(kept: seq<Row>, rows: seq<Row>, src: Sources, i: nat)
    requires IsTurnEvidence(kept, rows, src) && i < |rows|
    ensures var fused := FusedRows(src.results, src.st.rrfK, src.firstId);
      |rows| == |fused| && KeptOrDuplicate(rows, fused, src, i)
  {
    var fused := src.Fused();
    var judged := Deduped(fused, src.Matches());
    DuplicatesSayTheSame(fused, src.Chunks(), src.st.dedupThreshold, src.embedder, i);
    if judged[i] != fused[i] {
      var k :| DuplicateOf(fused, judged, i, k, src.Chunks(), src.st.dedupThreshold, src.embedder);
      assert rows[k] == judged[k].(pairId := rows[k].pairId) && fused[k].duplicateOf.None?;
    }
  }

  /** Each judged row of the sub-query that is no duplicate, once. */
  ghost predicate AreCandidates(candidates: seq<Row>, rows: seq<Row>, id: Id) {
    DistinctIds(candidates) && forall r :: r in candidates <==> r in rows && r.subQueryId == id && r.duplicateOf.None?
  }

  /** The sub-query's candidates, reranked for its text. */
  ghost predicate IsGroup(group: seq<Row>, sq: SubQuery, rows: seq<Row>, src: Sources) {
    exists candidates | AreCandidates(candidates, rows, sq.subQueryId) ::
      IsReranked(group, sq.text, candidates, src.Chunks(), src.score, src.st.minRelevance, src.st.finalK,
                 src.st.rerankCandidates)
  }

  lemma {:induction false} KeptForIsAGroup(sq: SubQuery, rows: seq<Row>, src: Sources)
    requires OneScorePerPair(src.score) && AllResolved(rows, src.Chunks()) && DistinctIds(rows)
    ensures IsGroup(KeptFor(sq, rows, src.Chunks(), src.score, src.st), sq, rows, src)
  {
    var candidates := Candidates(rows, sq.subQueryId);
    CandidatesResolved(rows, sq.subQueryId, src.Chunks());
    CandidatesHaveDistinctIds(rows, sq.subQueryId);
    CandidatesAre(rows, sq.subQueryId);
    assert AreCandidates(candidates, rows, sq.subQueryId);
    RerankingIsReranking(sq.text, candidates, src.Chunks(), src.score, src.st.minRelevance, src.st.finalK,
                         src.st.rerankCandidates);
  }

  /** A turn's evidence is what cap and budget leave of every sub-query's candidates, reranked for its own text. */
  lemma {:induction false} EvidenceIsCappedGroups(kept: seq<Row>, rows: seq<Row>, src: Sources)
    returns (groups: seq<seq<Row>>)
    requires IsTurnEvidence(kept, rows, src)
    ensures |groups| == |src.subQueries|
    ensures forall g :: 0 <= g < |groups| ==> IsGroup(groups[g], src.subQueries[g], rows, src)
    ensures var cap := CapGlobalEvidence(groups, src.st.maxTotal);
      AllResolved(cap, src.Chunks()) && Budgeted(cap, kept, src.Chunks(), src.st.tokenBudget)
  {
    groups := Groups(src.subQueries, rows, src.Chunks(), src.score, src.st);
    forall g | 0 <= g < |groups| ensures IsGroup(groups[g], src.subQueries[g], rows, src) {
      GroupAt(src.subQueries, rows, src.Chunks(), src.score, src.st, g);
      KeptForIsAGroup(src.subQueries[g], rows, src);
    }
  }

  // ----- The in-place implementation -----

  function CandidatesOf(evidence: seq<Evidence>, id: Id): (c: seq<Evidence>)
    reads evidence
    ensures Rows(c) == Candidates(Rows(evidence), id)
    ensures forall x :: x in c ==> x in evidence && x.subQueryId == id
    ensures DistinctObjects(evidence) ==> DistinctObjects(c)
  {
    if evidence == [] then []
    else
      assert Rows(evidence)[1..] == Rows(evidence[1..]);
      if evidence[0].subQueryId == id
        && evidence[0].duplicateOf.None? then [evidence[0]] + CandidatesOf(evidence[1..], id)
      else CandidatesOf(evidence[1..], id)
  }

  /** The rows of a sub-query are the same in both lists. */
  ghost predicate AgreeOn(a: seq<Row>, b: seq<Row>, id: Id) {
    |a| == |b| && forall i :: 0 <= i < |a| ==>
      a[i].subQueryId == b[i].subQueryId && (a[i].subQueryId == id ==> a[i] == b[i])
  }

  lemma {:induction false} SameCandidates(a: seq<Row>, b: seq<Row>, id: Id)
    requires AgreeOn(a, b, id)
    ensures Candidates(a, id) == Candidates(b, id)
  {
    if a != [] {
      SameCandidates(a[1..], b[1..], id);
    }
  }

  /** Only rows of the first n sub-queries may have been scored. */
  ghost predicate UnscoredBeyond(evidence: seq<Evidence>, rows: seq<Row>, subQueries: seq<SubQuery>, n: nat)
    requires n <= |subQueries|
    reads evidence
  {
    |rows| == |evidence| && forall i :: 0 <= i < |evidence| ==>
      SameRow(evidence[i], rows[i])
        && (NotAmong(evidence[i].subQueryId, subQueries[..n]) ==> evidence[i].Snapshot() == rows[i])
  }

  /** The lists kept so far hold the rows of the specification, each of its own sub-query. */
  ghost predicate KeptSoFar(kept: seq<seq<Evidence>>, evidence: seq<Evidence>, subQueries: seq<SubQuery>,
                            groups: seq<seq<Row>>)
    requires |kept| <= |subQueries| == |groups|
    reads evidence
  {
    forall g :: 0 <= g < |kept| ==> KeptHolds(kept[g], evidence, subQueries[g].subQueryId, groups[g])
  }

  ghost predicate KeptHolds(kept: seq<Evidence>, evidence: seq<Evidence>, id: Id, rows: seq<Row>)
    reads evidence
  {
    && |rows| == |kept|
    && forall i :: 0 <= i < |kept| ==> kept[i] in evidence && kept[i].subQueryId == id && kept[i].Snapshot() == rows[i]
  }

  lemma {:induction false} DifferentQueries(subQueries: seq<SubQuery>, i: nat, j: nat)
    requires DistinctQueries(subQueries) && i < j < |subQueries|
    ensures subQueries[i].subQueryId != subQueries[j].subQueryId
  {
    if i > 0 {
      DifferentQueries(subQueries[1..], i - 1, j - 1);
    }
  }

  lemma {:induction false} NotEarlier(subQueries: seq<SubQuery>, n: nat)
    requires DistinctQueries(subQueries) && n < |subQueries|
    ensures NotAmong(subQueries[n].subQueryId, subQueries[..n])
  {
    forall i | 0 <= i < n ensures subQueries[..n][i].subQueryId != subQueries[n].subQueryId {
      DifferentQueries(subQueries, i, n);
    }
  }

  lemma {:induction false} NextQueryIsUnscored(evidence: seq<Evidence>, rows: seq<Row>, subQueries: seq<SubQuery>,
                                               n: nat)
    requires DistinctQueries(subQueries) && n < |subQueries| && UnscoredBeyond(evidence, rows, subQueries, n)
    ensures Candidates(Rows(evidence), subQueries[n].subQueryId) == Candidates(rows, subQueries[n].subQueryId)
  {
    NotEarlier(subQueries, n);
    SameCandidates(Rows(evidence), rows, subQueries[n].subQueryId);
  }

  lemma {:induction false} NotAmongMore(id: Id, subQueries: seq<SubQuery>, n: nat)
    requires n < |subQueries| && NotAmong(id, subQueries[..n + 1])
    ensures NotAmong(id, subQueries[..n]) && id != subQueries[n].subQueryId
  {
    assert subQueries[..n + 1][n] == subQueries[n];
    assert forall k :: 0 <= k < n ==> subQueries[..n][k] == subQueries[..n + 1][k];
  }

  /** The loop over the sub-queries. */
  method RerankAll(evidence: seq<Evidence>, subQueries: seq<SubQuery>, chunks: map<Id, RetrievedChunk>, score: Scorer,
                   st: Settings)
    returns (kept: seq<seq<Evidence>>)
    requires OneScorePerPair(score) && DistinctObjects(evidence) && DistinctQueries(subQueries)
      && AllResolved(Rows(evidence), chunks)
    modifies evidence`rerankScore
    ensures |kept| == |subQueries|
    ensures KeptSoFar(kept, evidence, subQueries, Groups(subQueries, old(Rows(evidence)), chunks, score, st))
  {
    ghost var rows := Rows(evidence);
    ghost var groups := Groups(subQueries, rows, chunks, score, st);
    kept := [];
    for n := 0 to |subQueries|
      invariant |kept| == n && KeptSoFar(kept, evidence, subQueries, groups)
      invariant UnscoredBeyond(evidence, rows, subQueries, n)
    {
      GroupAt(subQueries, rows, chunks, score, st, n);
      kept := RerankNext(evidence, subQueries, kept, chunks, score, st, rows, groups);
    }
  }

  method RerankNext(evidence: seq<Evidence>, subQueries: seq<SubQuery>, kept: seq<seq<Evidence>>,
                    chunks: map<Id, RetrievedChunk>, score: Scorer, st: Settings, ghost rows: seq<Row>,
                    ghost groups: seq<seq<Row>>)
    returns (kept': seq<seq<Evidence>>)
    requires OneScorePerPair(score) && DistinctObjects(evidence) && DistinctQueries(subQueries)
      && AllResolved(rows, chunks)
    requires |kept| < |subQueries| == |groups| && groups[|kept|] == KeptFor(subQueries[|kept|], rows, chunks, score, st)
    requires KeptSoFar(kept, evidence, subQueries, groups) && UnscoredBeyond(evidence, rows, subQueries, |kept|)
    modifies evidence`rerankScore
    ensures |kept'| == |kept| + 1 && KeptSoFar(kept', evidence, subQueries, groups)
    ensures UnscoredBeyond(evidence, rows, subQueries, |kept| + 1)
  {
    var more := RerankQuery(evidence, subQueries, |kept|, chunks, score, st, rows);
    forall g | 0 <= g < |kept| ensures KeptHolds(kept[g], evidence, subQueries[g].subQueryId, groups[g]) {
      var list, id := kept[g], subQueries[g].subQueryId;
      assert old(KeptHolds(list, evidence, id, groups[g]));
      DifferentQueries(subQueries, g, |kept|);
      forall i | 0 <= i < |list| ensures list[i] in evidence && list[i].subQueryId == id
        && list[i].Snapshot() == groups[g][i] {
        assert list[i].Snapshot() == old(list[i].Snapshot());
      }
    }
    kept' := kept + [more];
    KeptOneMore(kept, more, evidence, subQueries, groups);
  }

  lemma {:induction false} KeptOneMore(kept: seq<seq<Evidence>>, more: seq<Evidence>, evidence: seq<Evidence>,
                                       subQueries: seq<SubQuery>, groups: seq<seq<Row>>)
    requires |kept| < |subQueries| == |groups| && KeptSoFar(kept, evidence, subQueries, groups)
    requires KeptHolds(more, evidence, subQueries[|kept|].subQueryId, groups[|kept|])
    ensures KeptSoFar(kept + [more], evidence, subQueries, groups)
  {
  }

  /** The n-th sub-query: its rows are scored, those of later ones are not. */
  method RerankQuery(evidence: seq<Evidence>, subQueries: seq<SubQuery>, n: nat, chunks: map<Id, RetrievedChunk>,
                     score: Scorer, st: Settings, ghost rows: seq<Row>)
    returns (kept: seq<Evidence>)
    requires OneScorePerPair(score) && DistinctObjects(evidence) && DistinctQueries(subQueries)
      && AllResolved(rows, chunks)
    requires n < |subQueries| && UnscoredBeyond(evidence, rows, subQueries, n)
    modifies evidence`rerankScore
    ensures UnscoredBeyond(evidence, rows, subQueries, n + 1)
    ensures KeptHolds(kept, evidence, subQueries[n].subQueryId, KeptFor(subQueries[n], rows, chunks, score, st))
    ensures forall x :: x in evidence && x.subQueryId != subQueries[n].subQueryId ==> x.Snapshot() == old(x.Snapshot())
  {
    NextQueryIsUnscored(evidence, rows, subQueries, n);
    CandidatesResolved(rows, subQueries[n].subQueryId, chunks);
    kept := RerankOne(evidence, subQueries[n], chunks, score, st);
    forall i | 0 <= i < |evidence| && NotAmong(evidence[i].subQueryId, subQueries[..n + 1])
      ensures evidence[i].Snapshot() == rows[i]
    {
      NotAmongMore(evidence[i].subQueryId, subQueries, n);
      assert evidence[i] in evidence;
    }
  }

  method RerankOne(evidence: seq<Evidence>, sq: SubQuery, chunks: map<Id, RetrievedChunk>, score: Scorer, st: Settings)
    returns (kept: seq<Evidence>)
    requires OneScorePerPair(score) && DistinctObjects(evidence)
      && AllResolved(Candidates(Rows(evidence), sq.subQueryId), chunks)
    modifies evidence`rerankScore
    ensures forall x :: x in evidence && x.subQueryId != sq.subQueryId ==> x.Snapshot() == old(x.Snapshot())
    ensures KeptHolds(kept, evidence, sq.subQueryId,
      Reranked(sq.text, old(Candidates(Rows(evidence), sq.subQueryId)), chunks, score, st.minRelevance, st.finalK,
        st.rerankCandidates))
  {
    var candidates := CandidatesOf(evidence, sq.subQueryId);
    ghost var pool, pairs;
    kept, pool, pairs := RerankSubquery(sq.text, candidates, chunks, score, st.minRelevance, st.finalK,
                                        st.rerankCandidates);
  }

  /** The kept rows as the cap reads them. */
  method ReadKept(kept: seq<seq<Evidence>>, evidence: seq<Evidence>, subQueries: seq<SubQuery>,
                  ghost groups: seq<seq<Row>>)
    returns (rows: seq<seq<Row>>)
    requires |kept| == |subQueries| == |groups| && KeptSoFar(kept, evidence, subQueries, groups)
    ensures rows == groups
  {
    rows := [];
    for g := 0 to |kept|
      invariant rows == groups[..g]
    {
      assert KeptHolds(kept[g], evidence, subQueries[g].subQueryId, groups[g]);
      assert Rows(kept[g]) == groups[g];
      rows := rows + [Rows(kept[g])];
    }
    assert groups[..|groups|] == groups;
  }

  lemma {:induction false} FusedRowsAreUsable(results: seq<RetrievalResult>, rrfK: nat, firstId: Id)
    ensures DistinctIds(FusedRows(results, rrfK, firstId)) && Unmarked(FusedRows(results, rrfK, firstId))
    ensures forall i :: 0 <= i < |FusedRows(results, rrfK, firstId)| ==>
      FusedRows(results, rrfK, firstId)[i].pairId.None?
  {
    RowsAreFresh(results, rrfK, firstId);
    var fused := FusedRows(results, rrfK, firstId);
    assert forall i :: 0 <= i < |fused| ==> FreshRow(fused[i], firstId + i, results);
    IdsDiffer(fused);
  }

  lemma {:induction false} SameIdsDistinct(a: seq<Row>, b: seq<Row>)
    requires |a| == |b| && DistinctIds(a) && forall i :: 0 <= i < |a| ==> a[i].evidenceId == b[i].evidenceId
    ensures DistinctIds(b)
  {
    if a != [] {
      SameIdsDistinct(a[1..], b[1..]);
      assert forall i :: 0 <= i < |a| - 1 ==> b[1..][i].evidenceId == a[1..][i].evidenceId;
    }
  }

  /** Deduplication and flagging set the verdicts and pair ids of the fused rows. */
  method DedupAndFlag(evidence: seq<Evidence>, chunks: map<Id, RetrievedChunk>, e: Embedder, threshold: real,
                      f: Contradictions.Flagging)
    requires e.Valid() && DistinctObjects(evidence) && DistinctIds(Rows(evidence))
    requires forall x :: x in evidence ==> x.chunkId in chunks && x.pairId.None?
    requires forall c :: c in chunks ==> chunks[c].chunkId == c
    modifies evidence
    ensures AreTheTurnsRows(Rows(evidence), old(Rows(evidence)), Matching(chunks, threshold, e))
    ensures Contradictions.AreFlagged(Rows(evidence), chunks, f)
  {
    ghost var fused := Rows(evidence);
    Dedup.Dedup(evidence, chunks, threshold, e);
    DedupedRows(evidence, fused, Matching(chunks, threshold, e));
    Contradictions.FlagContradictions(evidence, chunks, f.entitySlot, f.numeric, f.extract, f.nextPair);
  }

  lemma {:induction false} DedupedRows(evidence: seq<Evidence>, fused: seq<Row>, matches: (Row, Row) -> bool)
    requires AreDeduped(evidence, fused, matches)
    ensures Rows(evidence) == Deduped(fused, matches)
  {
  }

  /** The fused rows as fresh objects, every one with its chunk on record. */
  method FusedEvidence(src: Sources) returns (evidence: seq<Evidence>, chunks: map<Id, RetrievedChunk>)
    ensures fresh(evidence) && DistinctObjects(evidence) && Rows(evidence) == src.Fused() && chunks == src.Chunks()
    ensures forall x :: x in evidence ==> x.chunkId in chunks && x.pairId.None?
    ensures Resolved(src.Fused(), chunks) && Unmarked(src.Fused()) && DistinctIds(src.Fused())
  {
    evidence, chunks := RrfFuse(src.results, src.st.rrfK, src.firstId);
    FusedRowsAreUsable(src.results, src.st.rrfK, src.firstId);
    ChunksAreThoseRetrieved(src.results);
    assert Rows(evidence) == src.Fused();
  }

  lemma {:induction false} JudgedAreUsable(rows: seq<Row>, fused: seq<Row>, chunks: map<Id, RetrievedChunk>,
                                           matches: (Row, Row) -> bool)
    requires AreTheTurnsRows(rows, fused, matches) && Resolved(fused, chunks) && Unmarked(fused) && DistinctIds(fused)
    ensures Usable(rows, fused, chunks)
  {
    assert forall i :: 0 <= i < |fused| ==>
      rows[i].evidenceId == fused[i].evidenceId && rows[i].chunkId == fused[i].chunkId;
    SameIdsDistinct(fused, rows);
  }

  /** Fusion, deduplication and flagging leave the judged rows of the turn. */
  method JudgedEvidence(src: Sources) returns (evidence: seq<Evidence>, chunks: map<Id, RetrievedChunk>)
    requires src.embedder.Valid()
    ensures fresh(evidence) && DistinctObjects(evidence) && chunks == src.Chunks()
    ensures AreTheTurnsRows(Rows(evidence), src.Fused(), src.Matches())
      && Contradictions.AreFlagged(Rows(evidence), chunks, src.flagging)
    ensures Usable(Rows(evidence), src.Fused(), chunks)
  {
    evidence, chunks := FusedEvidence(src);
    DedupAndFlag(evidence, chunks, src.embedder, src.st.dedupThreshold, src.flagging);
    JudgedAreUsable(Rows(evidence), src.Fused(), chunks, src.Matches());
  }

  /** _fuse_and_rerank: the returned rows are a turn's evidence in the sense of the lemmas above. */
  method FuseAndRerank(src: Sources)
    returns (turn: seq<Row>, chunks: map<Id, RetrievedChunk>, ghost rows: seq<Row>)
    requires src.Valid()
    ensures IsTurnEvidence(turn, rows, src) && chunks == src.Chunks()
    ensures |turn| <= src.st.maxTotal && DistinctIds(turn) && Descending(turn, Score)
    ensures AllResolved(turn, chunks) && Tokens(turn, chunks) <= src.st.tokenBudget
    ensures forall i :: 0 <= i < |turn| ==> ScoredForItsQuery(turn[i], src)
  {
    var evidence;
    evidence, chunks := JudgedEvidence(src);
    rows := Rows(evidence);
    var kept := RerankAll(evidence, src.subQueries, chunks, src.score, src.st);
    var groups := ReadKept(kept, evidence, src.subQueries, Groups(src.subQueries, rows, chunks, src.score, src.st));
    var cap := CapGlobalEvidence(groups, src.st.maxTotal);
    CappedRowsFit(src.subQueries, rows, chunks, src.score, src.st);
    turn := TruncateToTokenBudget(cap, chunks, src.st.tokenBudget);
    EvidenceIsRelevantAndBounded(turn, rows, src);
    forall i | 0 <= i < |turn| ensures ScoredForItsQuery(turn[i], src) {
      EvidenceIsScoredForItsQuery(turn, rows, src, i);
    }
  }

  // ----- From the transcript on -----

  lemma {:induction false} FreshIdsAreDistinct(subQueries: seq<SubQuery>, firstId: Id)
    requires forall i :: 0 <= i < |subQueries| ==> subQueries[i].subQueryId == firstId + i
    ensures DistinctQueries(subQueries)
  {
    if subQueries != [] {
      var rest := subQueries[1..];
      assert forall i :: 0 <= i < |rest| ==> rest[i] == subQueries[i + 1];
      FreshIdsAreDistinct(rest, firstId + 1);
    }
  }

  /** One retrieval per sub-query, with what the index returned for its text. */
  function ResultsFor(subQueries: seq<SubQuery>,
                      retrieve: string -> (seq<RetrievedChunk>, seq<RetrievedChunk>)): (results: seq<RetrievalResult>)
    ensures |results| == |subQueries|
    ensures forall i :: 0 <= i < |results| ==>
      results[i] ==
        RetrievalResult(subQueries[i].subQueryId, retrieve(subQueries[i].text).0, retrieve(subQueries[i].text).1)
  {
    seq(|subQueries|, i requires 0 <= i < |subQueries| =>
      RetrievalResult(subQueries[i].subQueryId, retrieve(subQueries[i].text).0, retrieve(subQueries[i].text).1))
  }

  /** The index, the models and the settings a turn is processed with; the ids it generates start at `nextId`. */
  datatype Backend = Backend(retrieve: string -> (seq<RetrievedChunk>, seq<RetrievedChunk>), embedder: Embedder,
                             score: Scorer, mergeThreshold: real, entitySlot: Option<string>, numeric: set<string>,
                             extract: string -> Contradictions.Slots, st: Settings, nextId: Id)

  /** The sub-queries and retrievals a turn's evidence is made from. */
  function SourcesOf(subQueries: seq<SubQuery>, b: Backend): Sources {
    var next := b.nextId + |subQueries|;
    Sources(ResultsFor(subQueries, b.retrieve), subQueries, next, b.embedder, b.score,
            Contradictions.Flagging(b.entitySlot, b.numeric, b.extract, next), b.st)
  }

  /**
    * Decomposition, dispatch and fusion: any transcript leads to the sub-queries decomposition promises, at least one,
    * and to evidence as promised above made from what was retrieved for them.
    */
  method DecomposeAndFuse(transcript: string, compound: bool, llm: Proposal, b: Backend)
    returns (subQueries: seq<SubQuery>, results: seq<RetrievalResult>, turn: seq<Row>, ghost rows: seq<Row>)
    requires b.embedder.Valid() && OneScorePerPair(b.score)
    ensures |subQueries| >= 1 && DistinctQueries(subQueries)
    ensures subQueries == DecomposedInto(transcript, compound, llm, b.embedder, b.mergeThreshold, b.nextId)
    ensures IsDecomposition(subQueries, transcript, compound, llm, b.mergeThreshold, b.embedder, b.nextId)
    ensures results == SourcesOf(subQueries, b).results == ResultsFor(subQueries, b.retrieve)
    ensures IsTurnEvidence(turn, rows, SourcesOf(subQueries, b))
  {
    var fellBack, chunks;
    subQueries, fellBack := Decompose(transcript, compound, llm, b.mergeThreshold, b.embedder, b.nextId);
    FreshIdsAreDistinct(subQueries, b.nextId);
    var src := SourcesOf(subQueries, b);
    results := src.results;
    turn, chunks, rows := FuseAndRerank(src);
  }
}
