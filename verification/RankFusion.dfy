/** Reciprocal rank fusion of one turn's retrieval results (fusion.rrf_fuse). */
module RankFusion {
  import opened Options
  import opened Collections
  import opened EvidenceRows

  datatype RetrievalResult = RetrievalResult(subQueryId: Id, dense: seq<RetrievedChunk>, sparse: seq<RetrievedChunk>)

  // ----- Specification -----

  function Contribution(rrfK: nat, rank: nat): real { 1.0 / ((rrfK + rank + 1) as real) }

  /** What one list gives a chunk: a contribution for each rank at which it stands. */
  function ListScore(list: seq<RetrievedChunk>, c: Id, rrfK: nat): real {
    if list == [] then 0.0
    else
      var before := list[..|list| - 1];
      ListScore(before, c, rrfK) + if list[|list| - 1].chunkId == c then Contribution(rrfK, |before|) else 0.0
  }

  function FusedScore(result: RetrievalResult, c: Id, rrfK: nat): real {
    ListScore(result.dense, c, rrfK) + ListScore(result.sparse, c, rrfK)
  }

  /** The chunk ids of a list in the order of first appearance, after those already seen. */
  function FirstSeen(seen: seq<Id>, list: seq<RetrievedChunk>): seq<Id> {
    if list == [] then seen
    else
      var before, c := FirstSeen(seen, list[..|list| - 1]), list[|list| - 1].chunkId;
      if c in before then before else before + [c]
  }

  function ChunkOrder(result: RetrievalResult): seq<Id> {
    FirstSeen(FirstSeen([], result.dense), result.sparse)
  }

  /** One row per chunk of the sub-query, with ids generated from firstId on. */
  ghost function RowsOf(result: RetrievalResult, rrfK: nat, firstId: Id): (rows: seq<Row>)
    ensures |rows| == |ChunkOrder(result)|
    ensures forall i :: 0 <= i < |rows| ==>
      rows[i] == NewRow(firstId + i, result.subQueryId, ChunkOrder(result)[i],
        FusedScore(result, ChunkOrder(result)[i], rrfK))
  {
    var order := ChunkOrder(result);
    seq(|order|, i requires 0 <= i < |order| =>
      NewRow(firstId + i, result.subQueryId, order[i], FusedScore(result, order[i], rrfK)))
  }

  function NewRow(id: Id, subQueryId: Id, c: Id, score: real): Row {
    Row(id, subQueryId, c, score, None, None, None)
  }

  ghost function FusedRows(results: seq<RetrievalResult>, rrfK: nat, firstId: Id): seq<Row> {
    if results == [] then []
    else
      var before := FusedRows(results[..|results| - 1], rrfK, firstId);
      before + RowsOf(results[|results| - 1], rrfK, firstId + |before|)
  }

  /** Every retrieved chunk by its id. */
  function ChunksById(retrievals: seq<RetrievalResult>): map<Id, RetrievedChunk> {
    if retrievals == [] then map[]
    else
      var last := retrievals[|retrievals| - 1];
      AddChunks(ChunksById(retrievals[..|retrievals| - 1]), last.dense + last.sparse)
  }

  function AddChunks(chunks: map<Id, RetrievedChunk>, list: seq<RetrievedChunk>): map<Id, RetrievedChunk> {
    if list == [] then chunks
    else AddChunks(chunks, list[..|list| - 1])[list[|list| - 1].chunkId := list[|list| - 1]]
  }

  lemma {:induction false} AddChunksOfConcat(chunks: map<Id, RetrievedChunk>, a: seq<RetrievedChunk>,
                                             b: seq<RetrievedChunk>)
    ensures AddChunks(chunks, a + b) == AddChunks(AddChunks(chunks, a), b)
  {
    if b == [] {
      assert a + b == a;
    } else {
      assert (a + b)[..|a + b| - 1] == a + b[..|b| - 1];
      AddChunksOfConcat(chunks, a, b[..|b| - 1]);
    }
  }

  /** A recorded chunk was recorded before or stands in the list, under its own id. */
  lemma {:induction false} AddedChunks(chunks: map<Id, RetrievedChunk>, list: seq<RetrievedChunk>)
    ensures forall c :: c in AddChunks(chunks, list) <==> c in chunks || Stands(list, c)
    ensures forall c :: c in AddChunks(chunks, list) ==>
      (c in chunks && AddChunks(chunks, list)[c] == chunks[c])
        || (AddChunks(chunks, list)[c] in list && AddChunks(chunks, list)[c].chunkId == c)
  {
    if list != [] {
      var before := list[..|list| - 1];
      AddedChunks(chunks, before);
      forall c ensures Stands(list, c) <==> Stands(before, c) || list[|list| - 1].chunkId == c {
        StandsSnoc(list, c);
      }
      assert forall x :: x in before ==> x in list;
    }
  }

  /** Every recorded chunk is one of those retrieved, under its own id, and every retrieved id is recorded. */
  lemma {:induction false} ChunksAreThoseRetrieved(results: seq<RetrievalResult>)
    ensures forall c :: c in ChunksById(results) ==>
      ChunksById(results)[c].chunkId == c && WasRetrieved(results, ChunksById(results)[c])
    ensures forall n, x :: 0 <= n < |results| && (x in results[n].dense || x in results[n].sparse) ==>
      x.chunkId in ChunksById(results)
  {
    if results != [] {
      var before, last := results[..|results| - 1], results[|results| - 1];
      ChunksAreThoseRetrieved(before);
      AddedChunks(ChunksById(before), last.dense + last.sparse);
      forall c | c in ChunksById(results)
        ensures ChunksById(results)[c].chunkId == c && WasRetrieved(results, ChunksById(results)[c])
      {
        if c in ChunksById(before) && ChunksById(results)[c] == ChunksById(before)[c] {
          var n :| 0 <= n < |before|
            && (ChunksById(before)[c] in before[n].dense || ChunksById(before)[c] in before[n].sparse);
          assert results[n] == before[n];
        } else {
          assert ChunksById(results)[c] in results[|results| - 1].dense + results[|results| - 1].sparse;
        }
      }
      forall n, x | 0 <= n < |results|
        && (x in results[n].dense || x in results[n].sparse) ensures x.chunkId in ChunksById(results) {
        if n < |before| {
          assert results[n] == before[n];
        } else {
          assert x in last.dense + last.sparse && Stands(last.dense + last.sparse, x.chunkId);
        }
      }
    }
  }

  ghost predicate WasRetrieved(results: seq<RetrievalResult>, x: RetrievedChunk) {
    exists n :: 0 <= n < |results| && (x in results[n].dense || x in results[n].sparse)
  }

  // ----- Implementation -----

  /** The ordered score dictionary after one list has been added to it. */
  method AddList(list: seq<RetrievedChunk>, order0: seq<Id>, scores0: map<Id, real>, chunks0: map<Id, RetrievedChunk>,
                 rrfK: nat)
    returns (order: seq<Id>, scores: map<Id, real>, chunks: map<Id, RetrievedChunk>)
    requires forall c :: c in order0 <==> c in scores0
    ensures order == FirstSeen(order0, list)
    ensures forall c :: c in order <==> c in scores
    ensures forall c :: c in scores ==>
      scores[c] == (if c in scores0 then scores0[c] else 0.0) + ListScore(list, c, rrfK)
    ensures chunks == AddChunks(chunks0, list)
  {
    order, scores, chunks := order0, scores0, chunks0;
    for rank := 0 to |list|
      invariant order == FirstSeen(order0, list[..rank])
      invariant forall c :: c in order <==> c in scores
      invariant forall c :: c in scores ==>
        scores[c] == (if c in scores0 then scores0[c] else 0.0) + ListScore(list[..rank], c, rrfK)
      invariant forall c :: c !in scores ==> c !in scores0 && ListScore(list[..rank], c, rrfK) == 0.0
      invariant chunks == AddChunks(chunks0, list[..rank])
    {
      var chunk := list[rank];
      OneRankMore(list, rank, order0, chunks0, rrfK);
      var current := if chunk.chunkId in scores then scores[chunk.chunkId] else 0.0;
      if chunk.chunkId !in scores {
        order := order + [chunk.chunkId];
      }
      scores := scores[chunk.chunkId := current + Contribution(rrfK, rank)];
      chunks := chunks[chunk.chunkId := chunk];
    }
    assert list[..|list|] == list;
  }

  lemma {:induction false} OneRankMore(list: seq<RetrievedChunk>, rank: nat, seen: seq<Id>,
                                       chunks: map<Id, RetrievedChunk>, rrfK: nat)
    requires rank < |list|
    ensures var before, after, c := list[..rank], list[..rank + 1], list[rank].chunkId;
      && FirstSeen(seen, after) ==
        (if c in FirstSeen(seen, before) then FirstSeen(seen, before) else FirstSeen(seen, before) + [c])
      && AddChunks(chunks, after) == AddChunks(chunks, before)[c := list[rank]]
      && forall d :: ListScore(after, d, rrfK) == ListScore(before, d, rrfK) + if d == c then Contribution(rrfK, rank)
        else 0.0
  {
    assert list[..rank + 1][..rank] == list[..rank];
  }

  ghost predicate Holds(evidence: seq<Evidence>, rows: seq<Row>)
    reads evidence
  {
    |rows| == |evidence| && forall i :: 0 <= i < |rows| ==> evidence[i].Snapshot() == rows[i]
  }

  lemma {:induction false} AppendingAnObject(evidence: seq<Evidence>, x: Evidence)
    requires DistinctObjects(evidence) && x !in evidence
    ensures DistinctObjects(evidence + [x])
  {
    ObjectsDiffer(evidence);
    ObjectsDiffer(evidence + [x]);
  }

  ghost predicate OnRecord(rows: seq<Row>, chunks: map<Id, RetrievedChunk>) {
    forall i :: 0 <= i < |rows| ==> rows[i].chunkId in chunks
  }

  lemma {:induction false} FusedRowsAreOnRecord(results: seq<RetrievalResult>, rrfK: nat, firstId: Id)
    ensures OnRecord(FusedRows(results, rrfK, firstId), ChunksById(results))
  {
    if results != [] {
      var before, last := results[..|results| - 1], results[|results| - 1];
      FusedRowsAreOnRecord(before, rrfK, firstId);
      AddedChunks(ChunksById(before), last.dense + last.sparse);
      EveryRowHasItsChunk(last, ChunksById(results));
    }
  }

  /** One row more, as a fresh object. */
  method AppendRow(evidence: seq<Evidence>, evidenceId: Id, subQueryId: Id, chunkId: Id, score: real,
                   ghost rows: seq<Row>)
    returns (extended: seq<Evidence>)
    requires DistinctObjects(evidence) && Holds(evidence, rows)
    ensures forall x :: x in extended ==> x in evidence || fresh(x)
    ensures DistinctObjects(extended) && Holds(extended, rows + [NewRow(evidenceId, subQueryId, chunkId, score)])
  {
    var x := new Evidence(evidenceId, subQueryId, chunkId, score);
    AppendingAnObject(evidence, x);
    extended := evidence + [x];
  }

  /** Appends one sub-query's rows. */
  method AppendRows(evidence: seq<Evidence>, result: RetrievalResult, order: seq<Id>, scores: map<Id, real>, rrfK: nat,
                    firstId: Id, ghost before: seq<Row>)
    returns (extended: seq<Evidence>)
    requires DistinctObjects(evidence) && Holds(evidence, before)
    requires order == ChunkOrder(result) && forall i :: 0 <= i < |order| ==> order[i] in scores
    requires forall c :: c in scores ==> scores[c] == FusedScore(result, c, rrfK)
    ensures forall x :: x in extended ==> x in evidence || fresh(x)
    ensures DistinctObjects(extended) && Holds(extended, before + RowsOf(result, rrfK, firstId))
  {
    extended := evidence;
    ghost var rows := RowsOf(result, rrfK, firstId);
    WholePrefix(rows);
    assert before + [] == before;
    for n := 0 to |order|
      invariant forall x :: x in extended ==> x in evidence || fresh(x)
      invariant DistinctObjects(extended) && Holds(extended, before + rows[..n])
    {
      extended := AppendRow(extended, firstId + n, result.subQueryId, order[n], scores[order[n]], before + rows[..n]);
      NextPrefix(rows, n);
      ConcatIsAssociative(before, rows[..n], [rows[n]]);
    }
  }

  /** The objects hold the rows fused from the results, and the map their chunks. */
  ghost predicate HoldsFused(evidence: seq<Evidence>, chunks: map<Id, RetrievedChunk>, results: seq<RetrievalResult>,
                             rrfK: nat, firstId: Id)
    reads evidence
  {
    DistinctObjects(evidence) && Holds(evidence, FusedRows(results, rrfK, firstId)) && chunks == ChunksById(results)
  }

  /** One sub-query's result: its scores, then its rows behind those already there. */
  method FuseNext(evidence: seq<Evidence>, chunks0: map<Id, RetrievedChunk>, result: RetrievalResult, rrfK: nat,
                  firstId: Id, ghost before: seq<RetrievalResult>)
    returns (extended: seq<Evidence>, chunks: map<Id, RetrievedChunk>)
    requires HoldsFused(evidence, chunks0, before, rrfK, firstId)
    ensures HoldsFused(extended, chunks, before + [result], rrfK, firstId)
    ensures forall x :: x in extended ==> x in evidence || fresh(x)
  {
    var order, scores;
    order, scores, chunks := ScoreLists(result, chunks0, rrfK);
    extended := AppendRows(evidence, result, order, scores, rrfK, firstId + |evidence|,
      FusedRows(before, rrfK, firstId));
    FusedNext(before, result, rrfK, firstId);
  }

  lemma {:induction false} FusedNext(before: seq<RetrievalResult>, result: RetrievalResult, rrfK: nat, firstId: Id)
    ensures var rows := FusedRows(before, rrfK, firstId);
      FusedRows(before + [result], rrfK, firstId) == rows + RowsOf(result, rrfK, firstId + |rows|)
    ensures ChunksById(before + [result]) == AddChunks(ChunksById(before), result.dense + result.sparse)
  {
    assert (before + [result])[..|before|] == before;
  }

  method RrfFuse(results: seq<RetrievalResult>, rrfK: nat, firstId: Id)
    returns (evidence: seq<Evidence>, chunks: map<Id, RetrievedChunk>)
    ensures DistinctObjects(evidence) && Holds(evidence, FusedRows(results, rrfK, firstId))
    ensures forall x :: x in evidence ==> fresh(x) && x.chunkId in chunks
    ensures chunks == ChunksById(results)
  {
    evidence, chunks := [], map[];
    for n := 0 to |results|
      invariant HoldsFused(evidence, chunks, results[..n], rrfK, firstId)
      invariant forall x :: x in evidence ==> fresh(x)
    {
      NextPrefix(results, n);
      evidence, chunks := FuseNext(evidence, chunks, results[n], rrfK, firstId, results[..n]);
    }
    WholePrefix(results);
    FusedRowsAreOnRecord(results, rrfK, firstId);
    HeldAreOnRecord(evidence, FusedRows(results, rrfK, firstId), chunks);
  }

  lemma {:induction false} HeldAreOnRecord(evidence: seq<Evidence>, rows: seq<Row>, chunks: map<Id, RetrievedChunk>)
    requires Holds(evidence, rows) && OnRecord(rows, chunks)
    ensures forall x :: x in evidence ==> x.chunkId in chunks
  {
    assert forall i :: 0 <= i < |evidence| ==> evidence[i].Snapshot().chunkId in chunks;
  }

  /** The score dictionary of one sub-query: its dense list, then its sparse list. */
  method ScoreLists(result: RetrievalResult, chunks0: map<Id, RetrievedChunk>, rrfK: nat)
    returns (order: seq<Id>, scores: map<Id, real>, chunks: map<Id, RetrievedChunk>)
    ensures order == ChunkOrder(result) && forall i :: 0 <= i < |order| ==> order[i] in scores
    ensures forall c :: c in scores ==> scores[c] == FusedScore(result, c, rrfK)
    ensures chunks == AddChunks(chunks0, result.dense + result.sparse)
  {
    order, scores, chunks := AddList(result.dense, [], map[], chunks0, rrfK);
    ghost var order1, scores1 := order, scores;
    DenseScores(result, order1, scores1, rrfK);
    order, scores, chunks := AddList(result.sparse, order, scores, chunks, rrfK);
    AddChunksOfConcat(chunks0, result.dense, result.sparse);
  }

  /** After the dense list, a chunk without an entry has the score 0 there. */
  lemma {:induction false} DenseScores(result: RetrievalResult, order: seq<Id>, scores: map<Id, real>, rrfK: nat)
    requires order == FirstSeen([], result.dense) && forall c :: c in order <==> c in scores
    ensures forall c :: c !in scores ==> ListScore(result.dense, c, rrfK) == 0.0
  {
    ScoreOfAbsent(result.dense, rrfK);
    SeenIsWhatStands([], result.dense);
  }

  lemma {:induction false} ScoreOfAbsent(list: seq<RetrievedChunk>, rrfK: nat)
    ensures forall c :: !Stands(list, c) ==> ListScore(list, c, rrfK) == 0.0
  {
    if list != [] {
      ScoreOfAbsent(list[..|list| - 1], rrfK);
      forall c | !Stands(list, c) ensures ListScore(list, c, rrfK) == 0.0 {
        StandsSnoc(list, c);
      }
    }
  }

  lemma {:induction false} EveryRowHasItsChunk(result: RetrievalResult, chunks: map<Id, RetrievedChunk>)
    requires forall c :: Stands(result.dense + result.sparse, c) ==> c in chunks
    ensures forall i :: 0 <= i < |ChunkOrder(result)| ==> ChunkOrder(result)[i] in chunks
  {
    ChunkOrderIsComplete(result);
    var both := result.dense + result.sparse;
    forall c | Stands(result.dense, c) || Stands(result.sparse, c) ensures Stands(both, c) {
      if Stands(result.dense, c) {
        var r :| 0 <= r < |result.dense| && result.dense[r].chunkId == c;
        assert both[r] == result.dense[r];
      } else {
        var r :| 0 <= r < |result.sparse| && result.sparse[r].chunkId == c;
        assert both[|result.dense| + r] == result.sparse[r];
      }
    }
    assert forall i :: 0 <= i < |ChunkOrder(result)| ==> ChunkOrder(result)[i] in ChunkOrder(result);
  }

  // ----- What fusion promises -----

  ghost predicate Stands(list: seq<RetrievedChunk>, c: Id) {
    exists r :: 0 <= r < |list| && list[r].chunkId == c
  }

  lemma {:induction false} StandsSnoc(list: seq<RetrievedChunk>, c: Id)
    requires list != []
    ensures Stands(list, c) <==> Stands(list[..|list| - 1], c) || list[|list| - 1].chunkId == c
  {
    var before := list[..|list| - 1];
    assert forall r :: 0 <= r < |before| ==> before[r] == list[r];
  }

  ghost predicate NoRepeatedIds(ids: seq<Id>) {
    forall i, j :: 0 <= i < j < |ids| ==> ids[i] != ids[j]
  }

  lemma {:induction false} SeenIsWhatStands(seen: seq<Id>, list: seq<RetrievedChunk>)
    ensures forall i :: 0 <= i < |FirstSeen(seen, list)| ==>
      FirstSeen(seen, list)[i] in seen || Stands(list, FirstSeen(seen, list)[i])
    ensures forall c :: c in seen || Stands(list, c) ==> c in FirstSeen(seen, list)
    ensures NoRepeatedIds(seen) ==> NoRepeatedIds(FirstSeen(seen, list))
  {
    if list != [] {
      var before, c := list[..|list| - 1], list[|list| - 1].chunkId;
      SeenIsWhatStands(seen, before);
      forall d ensures Stands(list, d) <==> Stands(before, d) || c == d {
        StandsSnoc(list, d);
      }
    }
  }

  /** The chunks of a sub-query's rows are those of its two lists, each exactly once. */
  lemma {:induction false} ChunkOrderIsComplete(result: RetrievalResult)
    ensures NoRepeatedIds(ChunkOrder(result))
    ensures forall c :: c in ChunkOrder(result) <==> Stands(result.dense, c) || Stands(result.sparse, c)
  {
    SeenIsWhatStands([], result.dense);
    SeenIsWhatStands(FirstSeen([], result.dense), result.sparse);
  }

  /** The chunk at this rank stands nowhere before it. */
  ghost predicate IsFirstRank(list: seq<RetrievedChunk>, r: int, c: Id) {
    0 <= r < |list| && list[r].chunkId == c && forall q :: 0 <= q < r ==> list[q].chunkId != c
  }

  ghost predicate InOrderOfRanks(ids: seq<Id>, firsts: seq<nat>, list: seq<RetrievedChunk>) {
    && |firsts| == |ids|
    && (forall k :: 0 <= k < |ids| ==> IsFirstRank(list, firsts[k], ids[k]))
    && forall k, m :: 0 <= k < m < |ids| ==> firsts[k] < firsts[m]
  }

  lemma {:induction false} FirstRankStays(list: seq<RetrievedChunk>, n: nat, r: int, c: Id)
    requires n <= |list| && IsFirstRank(list[..n], r, c)
    ensures IsFirstRank(list, r, c)
  {
    assert forall q :: 0 <= q <= r ==> list[..n][q] == list[q];
  }

  /** The chunks of a list come in the order in which they first appear. */
  lemma {:induction false} SeenInOrder(list: seq<RetrievedChunk>) returns (firsts: seq<nat>)
    ensures InOrderOfRanks(FirstSeen([], list), firsts, list)
  {
    if list == [] {
      firsts := [];
    } else {
      var n := |list| - 1;
      var before, c := FirstSeen([], list[..n]), list[n].chunkId;
      firsts := SeenInOrder(list[..n]);
      forall k | 0 <= k < |before| ensures IsFirstRank(list, firsts[k], before[k]) && firsts[k] < n {
        FirstRankStays(list, n, firsts[k], before[k]);
      }
      if c !in before {
        SeenIsWhatStands([], list[..n]);
        NewRank(list, n);
        firsts := firsts + [n];
      }
    }
  }

  lemma {:induction false} NewRank(list: seq<RetrievedChunk>, n: nat)
    requires n < |list| && !Stands(list[..n], list[n].chunkId)
    ensures IsFirstRank(list, n, list[n].chunkId)
  {
    forall q | 0 <= q < n ensures list[q].chunkId != list[n].chunkId {
      assert list[..n][q] == list[q];
    }
  }

  lemma {:induction false} SeenOfConcat(seen: seq<Id>, a: seq<RetrievedChunk>, b: seq<RetrievedChunk>)
    ensures FirstSeen(seen, a + b) == FirstSeen(FirstSeen(seen, a), b)
  {
    if b == [] {
      assert a + b == a;
    } else {
      assert (a + b)[..|a + b| - 1] == a + b[..|b| - 1];
      SeenOfConcat(seen, a, b[..|b| - 1]);
    }
  }

  /** A sub-query's chunks come in the order in which they first appear in its dense and then its sparse list. */
  lemma {:induction false} ChunksStandInOrder(result: RetrievalResult) returns (firsts: seq<nat>)
    ensures InOrderOfRanks(ChunkOrder(result), firsts, result.dense + result.sparse)
  {
    SeenOfConcat([], result.dense, result.sparse);
    firsts := SeenInOrder(result.dense + result.sparse);
  }

  /** One more sub-query adds one unmarked row per chunk behind the others, under consecutive ids. */
  lemma {:induction false} OneMoreSubQuery(before: seq<RetrievalResult>, result: RetrievalResult, rrfK: nat,
                                           firstId: Id, k: nat)
    requires k < |ChunkOrder(result)|
    ensures var rows, more := FusedRows(before, rrfK, firstId), FusedRows(before + [result], rrfK, firstId);
      var c := ChunkOrder(result)[k];
      && |more| == |rows| + |ChunkOrder(result)| && rows <= more
      && more[|rows| + k] == Row(firstId + |rows| + k, result.subQueryId, c, FusedScore(result, c, rrfK), None, None,
                                 None)
  {
    FusedNext(before, result, rrfK, firstId);
  }

  /** Of several records of one chunk the last one counts. */
  lemma {:induction false} TheLastRecordCounts(chunks: map<Id, RetrievedChunk>, list: seq<RetrievedChunk>, r: nat)
    requires r < |list| && forall q :: r < q < |list| ==> list[q].chunkId != list[r].chunkId
    ensures list[r].chunkId in AddChunks(chunks, list) && AddChunks(chunks, list)[list[r].chunkId] == list[r]
  {
    if r < |list| - 1 {
      TheLastRecordCounts(chunks, list[..|list| - 1], r);
    }
  }

  ghost predicate DistinctSubQueries(results: seq<RetrievalResult>) {
    forall i, j :: 0 <= i < j < |results| ==> results[i].subQueryId != results[j].subQueryId
  }

  ghost predicate NamesASubQuery(results: seq<RetrievalResult>, id: Id) {
    exists n :: 0 <= n < |results| && results[n].subQueryId == id
  }

  /** A row as fusion creates it: nothing set by a later stage, and the id of one of the sub-queries. */
  ghost predicate FreshRow(r: Row, id: Id, results: seq<RetrievalResult>) {
    r == NewRow(id, r.subQueryId, r.chunkId, r.fusionScore) && NamesASubQuery(results, r.subQueryId)
  }

  ghost predicate AllFresh(rows: seq<Row>, firstId: Id, results: seq<RetrievalResult>) {
    forall i :: 0 <= i < |rows| ==> FreshRow(rows[i], firstId + i, results)
  }

  /** Fused rows are fresh and their generated ids have no gap. */
  lemma {:induction false} RowsAreFresh(results: seq<RetrievalResult>, rrfK: nat, firstId: Id)
    ensures AllFresh(FusedRows(results, rrfK, firstId), firstId, results)
  {
    if results != [] {
      var n := |results| - 1;
      var before := results[..n];
      RowsAreFresh(before, rrfK, firstId);
      var rows, earlier := FusedRows(results, rrfK, firstId), FusedRows(before, rrfK, firstId);
      forall i | 0 <= i < |rows| ensures FreshRow(rows[i], firstId + i, results) {
        if i < |earlier| {
          assert rows[i] == earlier[i] && FreshRow(earlier[i], firstId + i, before);
          var m :| 0 <= m < |before| && before[m].subQueryId == rows[i].subQueryId;
          assert results[m].subQueryId == rows[i].subQueryId;
        } else {
          assert results[n].subQueryId == rows[i].subQueryId;
        }
      }
    }
  }

  ghost predicate DifferentPairs(rows: seq<Row>) {
    forall i, j :: 0 <= i < j < |rows| ==>
      rows[i].subQueryId != rows[j].subQueryId || rows[i].chunkId != rows[j].chunkId
  }

  /** No (sub-query, chunk) pair has two rows. */
  lemma {:induction false} OneRowPerPair(results: seq<RetrievalResult>, rrfK: nat, firstId: Id)
    requires DistinctSubQueries(results)
    ensures DifferentPairs(FusedRows(results, rrfK, firstId))
  {
    if results != [] {
      var n := |results| - 1;
      var before, last := results[..n], results[n];
      OneRowPerPair(before, rrfK, firstId);
      RowsAreFresh(before, rrfK, firstId);
      ChunkOrderIsComplete(last);
      var earlier := FusedRows(before, rrfK, firstId);
      assert !NamesASubQuery(before, last.subQueryId);
      assert forall i :: 0 <= i < |earlier| ==> FreshRow(earlier[i], firstId + i, before);
      PairsOfConcat(earlier, RowsOf(last, rrfK, firstId + |earlier|), last.subQueryId);
    }
  }

  lemma {:induction false} PairsOfConcat(a: seq<Row>, b: seq<Row>, id: Id)
    requires DifferentPairs(a) && DifferentPairs(b)
    requires forall i :: 0 <= i < |a| ==> a[i].subQueryId != id
    requires forall i :: 0 <= i < |b| ==> b[i].subQueryId == id
    ensures DifferentPairs(a + b)
  {
  }

  /** Every chunk of every list has its row, with its fused score. */
  lemma {:induction false} EveryChunkHasARow(results: seq<RetrievalResult>, rrfK: nat, firstId: Id, n: nat, c: Id)
    requires n < |results| && (Stands(results[n].dense, c) || Stands(results[n].sparse, c))
    ensures exists i ::
      0 <= i < |FusedRows(results, rrfK, firstId)|
      && IsRowFor(FusedRows(results, rrfK, firstId)[i], results[n], c, rrfK)
  {
    var before := FusedRows(results[..|results| - 1], rrfK, firstId);
    var rows := FusedRows(results, rrfK, firstId);
    if n == |results| - 1 {
      ChunkOrderIsComplete(results[n]);
      var p :| 0 <= p < |ChunkOrder(results[n])| && ChunkOrder(results[n])[p] == c;
      assert IsRowFor(rows[|before| + p], results[n], c, rrfK);
    } else {
      EveryChunkHasARow(results[..|results| - 1], rrfK, firstId, n, c);
      var i :| 0 <= i < |before| && IsRowFor(before[i], results[n], c, rrfK);
      assert rows[i] == before[i];
    }
  }

  ghost predicate IsRowFor(r: Row, result: RetrievalResult, c: Id, rrfK: nat) {
    r.subQueryId == result.subQueryId && r.chunkId == c && r.fusionScore == FusedScore(result, c, rrfK)
  }

  // ----- Conservation: a sub-query's scores sum to the harmonic totals of its lists -----

  ghost function Harmonic(rrfK: nat, n: nat): real {
    if n == 0 then 0.0 else Harmonic(rrfK, n - 1) + Contribution(rrfK, n - 1)
  }

  ghost function ScoreTotal(rows: seq<Row>): real {
    if rows == [] then 0.0 else ScoreTotal(rows[..|rows| - 1]) + rows[|rows| - 1].fusionScore
  }

  ghost function ListTotal(ids: seq<Id>, list: seq<RetrievedChunk>, rrfK: nat): real {
    if ids == [] then 0.0
    else ListTotal(ids[..|ids| - 1], list, rrfK) + ListScore(list, ids[|ids| - 1], rrfK)
  }

  lemma {:induction false} OneMoreRank(ids: seq<Id>, list: seq<RetrievedChunk>, rrfK: nat)
    requires list != [] && NoRepeatedIds(ids)
    ensures var before, c := list[..|list| - 1], list[|list| - 1].chunkId;
      ListTotal(ids, list, rrfK) ==
      ListTotal(ids, before, rrfK) + if c in ids then Contribution(rrfK, |before|) else 0.0
  {
    if ids != [] {
      OneMoreRank(ids[..|ids| - 1], list, rrfK);
      assert ids == ids[..|ids| - 1] + [ids[|ids| - 1]];
    }
  }

  lemma {:induction false} EmptyListTotal(ids: seq<Id>, rrfK: nat)
    ensures ListTotal(ids, [], rrfK) == 0.0
  {
    if ids != [] { EmptyListTotal(ids[..|ids| - 1], rrfK); }
  }

  lemma {:induction false} ListTotalIsHarmonic(ids: seq<Id>, list: seq<RetrievedChunk>, rrfK: nat)
    requires NoRepeatedIds(ids) && forall r :: 0 <= r < |list| ==> list[r].chunkId in ids
    ensures ListTotal(ids, list, rrfK) == Harmonic(rrfK, |list|)
  {
    if list == [] {
      EmptyListTotal(ids, rrfK);
    } else {
      ListTotalIsHarmonic(ids, list[..|list| - 1], rrfK);
      OneMoreRank(ids, list, rrfK);
    }
  }

  lemma {:induction false} ScoresSplitByList(rows: seq<Row>, ids: seq<Id>, result: RetrievalResult, rrfK: nat)
    requires |rows| == |ids| && forall i :: 0 <= i < |ids| ==> rows[i].fusionScore == FusedScore(result, ids[i], rrfK)
    ensures ScoreTotal(rows) == ListTotal(ids, result.dense, rrfK) + ListTotal(ids, result.sparse, rrfK)
  {
    if ids != [] {
      ScoresSplitByList(rows[..|rows| - 1], ids[..|ids| - 1], result, rrfK);
    }
  }

  lemma {:induction false} ScoresSumToTheHarmonicTotals(result: RetrievalResult, rrfK: nat, firstId: Id)
    ensures ScoreTotal(RowsOf(result, rrfK, firstId)) ==
      Harmonic(rrfK, |result.dense|) + Harmonic(rrfK, |result.sparse|)
  {
    var ids := ChunkOrder(result);
    ChunkOrderIsComplete(result);
    ScoresSplitByList(RowsOf(result, rrfK, firstId), ids, result, rrfK);
    forall r | 0 <= r < |result.dense| ensures result.dense[r].chunkId in ids {
      assert Stands(result.dense, result.dense[r].chunkId);
    }
    forall r | 0 <= r < |result.sparse| ensures result.sparse[r].chunkId in ids {
      assert Stands(result.sparse, result.sparse[r].chunkId);
    }
    ListTotalIsHarmonic(ids, result.dense, rrfK);
    ListTotalIsHarmonic(ids, result.sparse, rrfK);
  }

  // ----- Agreement between the lists beats any single rank -----

  ghost predicate NoRepeatedChunks(list: seq<RetrievedChunk>) {
    forall i, j :: 0 <= i < j < |list| ==> list[i].chunkId != list[j].chunkId
  }

  lemma {:induction false} ScoreAtRank(list: seq<RetrievedChunk>, c: Id, rrfK: nat)
    requires NoRepeatedChunks(list)
    ensures !Stands(list, c) ==> ListScore(list, c, rrfK) == 0.0
    ensures forall r :: 0 <= r < |list| && list[r].chunkId == c ==> ListScore(list, c, rrfK) == Contribution(rrfK, r)
  {
    if list != [] {
      var before := list[..|list| - 1];
      ScoreAtRank(before, c, rrfK);
      StandsSnoc(list, c);
      forall r | 0 <= r < |list| && list[r].chunkId == c ensures ListScore(list, c, rrfK) == Contribution(rrfK, r) {
        if r < |before| {
          assert before[r].chunkId == c;
        } else {
          assert !Stands(before, c);
        }
      }
    }
  }

  /** In general a chunk's score in a list is the sum of 1/(k + rank + 1) over the ranks at which it stands. */
  lemma {:induction false} ListScoreIsTheSum(list: seq<RetrievedChunk>, c: Id, rrfK: nat, shares: seq<real>)
    requires |shares| == |list|
    requires forall r :: 0 <= r < |list| ==>
      shares[r] == if list[r].chunkId == c then 1.0 / ((rrfK + r + 1) as real) else 0.0
    ensures ListScore(list, c, rrfK) == SumOf(shares)
  {
    if list != [] {
      ListScoreIsTheSum(list[..|list| - 1], c, rrfK, shares[..|list| - 1]);
    }
  }

  /** A row's score is the sum of the shares of its chunk in the dense and in the sparse list. */
  lemma {:induction false} FusedScoreIsTheSum(result: RetrievalResult, c: Id, rrfK: nat, dense: seq<real>,
                                              sparse: seq<real>)
    requires |dense| == |result.dense| && |sparse| == |result.sparse|
    requires forall r :: 0 <= r < |dense| ==>
      dense[r] == if result.dense[r].chunkId == c then 1.0 / ((rrfK + r + 1) as real) else 0.0
    requires forall r :: 0 <= r < |sparse| ==>
      sparse[r] == if result.sparse[r].chunkId == c then 1.0 / ((rrfK + r + 1) as real) else 0.0
    ensures FusedScore(result, c, rrfK) == SumOf(dense) + SumOf(sparse)
  {
    ListScoreIsTheSum(result.dense, c, rrfK, dense);
    ListScoreIsTheSum(result.sparse, c, rrfK, sparse);
  }

  lemma {:induction false} LaterRanksGiveLess(rrfK: nat, p: nat, q: nat)
    requires p <= q
    ensures Contribution(rrfK, p) >= Contribution(rrfK, q) > 0.0
  {
    var a, b := (rrfK + p + 1) as real, (rrfK + q + 1) as real;
    assert 0.0 < a <= b;
    assert 1.0 / a >= 1.0 / b by { ReciprocalsReverse(a, b); }
    assert 1.0 / b > 0.0 by { ReciprocalsReverse(b, b); }
  }

  lemma {:induction false} ReciprocalsReverse(a: real, b: real)
    requires 0.0 < a <= b
    ensures 1.0 / a >= 1.0 / b > 0.0
  {
    var x, y := 1.0 / a, 1.0 / b;
    assert x * a == 1.0 && y * b == 1.0;
    if x < y {
      ProductsGrow(x, y, a, b);
    }
  }

  lemma {:induction false} ProductsGrow(x: real, y: real, a: real, b: real)
    requires x < y && y > 0.0 && 0.0 < a <= b
    ensures x * a < y * b
  {
    assert y * b - x * a == (y - x) * a + y * (b - a);
    assert (y - x) * a > 0.0;
    assert y * (b - a) >= 0.0;
  }

  /** Wherever the list ranks y, it ranks x no later; a chunk the list does not hold has no rank. */
  ghost predicate RankedNoWorse(list: seq<RetrievedChunk>, x: Id, y: Id) {
    forall q :: 0 <= q < |list| && list[q].chunkId == y ==> Stands(list[..q + 1], x)
  }

  lemma {:induction false} RankedNoWorseInOneList(list: seq<RetrievedChunk>, x: Id, y: Id, rrfK: nat)
    requires NoRepeatedChunks(list) && RankedNoWorse(list, x, y)
    ensures ListScore(list, x, rrfK) >= ListScore(list, y, rrfK)
  {
    ScoreAtRank(list, x, rrfK);
    ScoreAtRank(list, y, rrfK);
    if Stands(list, y) {
      var q :| 0 <= q < |list| && list[q].chunkId == y;
      var p :| 0 <= p < q + 1 && list[..q + 1][p].chunkId == x;
      assert list[p].chunkId == x;
      LaterRanksGiveLess(rrfK, p, q);
    } else if Stands(list, x) {
      var p :| 0 <= p < |list| && list[p].chunkId == x;
      LaterRanksGiveLess(rrfK, p, p);
    }
  }

  /** Ranked no worse in either list, where it may be absent, a chunk never scores lower. */
  lemma {:induction false} NoWorseRanksNoLowerScore(result: RetrievalResult, x: Id, y: Id, rrfK: nat)
    requires NoRepeatedChunks(result.dense) && NoRepeatedChunks(result.sparse)
    requires RankedNoWorse(result.dense, x, y) && RankedNoWorse(result.sparse, x, y)
    ensures FusedScore(result, x, rrfK) >= FusedScore(result, y, rrfK)
  {
    RankedNoWorseInOneList(result.dense, x, y, rrfK);
    RankedNoWorseInOneList(result.sparse, x, y, rrfK);
  }

  // ----- How long the lists may be for that to hold -----

  /** Over lists of at most n distinct chunks, a chunk in both lists strictly outscores any chunk in only one. */
  ghost predicate AgreementWins(rrfK: nat, n: nat) {
    forall result: RetrievalResult, x: Id, y: Id ::
      NoRepeatedChunks(result.dense) && NoRepeatedChunks(result.sparse) && |result.dense| <= n && |result.sparse| <= n
      && InBoth(result, x) && InOnlyOne(result, y)
      ==> FusedScore(result, x, rrfK) > FusedScore(result, y, rrfK)
  }

  ghost predicate InBoth(result: RetrievalResult, c: Id) {
    Stands(result.dense, c) && Stands(result.sparse, c)
  }

  ghost predicate InOnlyOne(result: RetrievalResult, c: Id) {
    Stands(result.dense, c) != Stands(result.sparse, c)
  }

  lemma {:induction false} ListScoreBounds(list: seq<RetrievedChunk>, c: Id, rrfK: nat, n: nat)
    requires NoRepeatedChunks(list) && |list| <= n
    ensures !Stands(list, c) ==> ListScore(list, c, rrfK) == 0.0
    ensures Stands(list, c) ==>
      Contribution(rrfK, 0) >= ListScore(list, c, rrfK)
      && (n > 0 ==> ListScore(list, c, rrfK) >= Contribution(rrfK, n - 1))
  {
    ScoreAtRank(list, c, rrfK);
    if Stands(list, c) {
      var r :| 0 <= r < |list| && list[r].chunkId == c;
      LaterRanksGiveLess(rrfK, 0, r);
      LaterRanksGiveLess(rrfK, r, n - 1);
    }
  }

  /** Twice the contribution of the last admissible rank exceeds the first rank's. */
  lemma {:induction false} TwoLastBeatOneFirst(rrfK: nat)
    ensures 2.0 * Contribution(rrfK, rrfK) > Contribution(rrfK, 0)
    ensures 2.0 * Contribution(rrfK, rrfK + 1) == Contribution(rrfK, 0)
  {
    var a, b := (rrfK + 1) as real, (rrfK + rrfK + 1) as real;
    var x, y := 1.0 / a, 1.0 / b;
    assert x * a == 1.0 && y * b == 1.0;
    ReciprocalsReverse(a, a);
    ReciprocalsReverse(b, b);
    var z := 1.0 / ((rrfK + (rrfK + 1) + 1) as real);
    assert ((rrfK + (rrfK + 1) + 1) as real) == 2.0 * a;
    assert z * (2.0 * a) == 1.0;
    SameProduct(2.0 * z, x, a);
    if 2.0 * y <= x {
      assert 2.0 * a > b;
      ProductsGrowFrom(2.0 * y, x, b, a);
    }
  }

  lemma {:induction false} SameProduct(p: real, q: real, a: real)
    requires a > 0.0 && p * a == q * a
    ensures p == q
  {
    assert (p - q) * a == 0.0;
  }

  lemma {:induction false} ProductsGrowFrom(p: real, x: real, b: real, a: real)
    requires 0.0 < p <= x && 0.0 < b < 2.0 * a
    ensures p * b < 2.0 * (x * a)
  {
    var c := 2.0 * a;
    assert p * c - p * b == p * (c - b) && p * (c - b) > 0.0;
    assert x * c - p * c == (x - p) * c && (x - p) * c >= 0.0;
    assert x * c == 2.0 * (x * a);
  }

  function Numbered(id: Id): RetrievedChunk { RetrievedChunk(id, "", "", "", 0) }

  function NumberedFrom(first: Id, n: nat): (list: seq<RetrievedChunk>)
    ensures |list| == n && forall i :: 0 <= i < n ==> list[i].chunkId == first + i
  {
    if n == 0 then [] else NumberedFrom(first, n - 1) + [Numbered(first + n - 1)]
  }

  /** A chunk last in both lists, and one first in the dense list only. */
  lemma {:induction false} LastInBothTiesWithFirstInOne(result: RetrievalResult, x: Id, y: Id, rrfK: nat)
    requires NoRepeatedChunks(result.dense) && NoRepeatedChunks(result.sparse)
    requires |result.dense| == |result.sparse| == rrfK + 2 && result.dense[0].chunkId == y && !Stands(result.sparse, y)
    requires result.dense[rrfK + 1].chunkId == result.sparse[rrfK + 1].chunkId == x
    ensures InBoth(result, x) && InOnlyOne(result, y) && FusedScore(result, x, rrfK) == FusedScore(result, y, rrfK)
  {
    ScoreAtRank(result.dense, x, rrfK);
    ScoreAtRank(result.sparse, x, rrfK);
    ScoreAtRank(result.dense, y, rrfK);
    ScoreAtRank(result.sparse, y, rrfK);
    TwoLastBeatOneFirst(rrfK);
  }

  /** With rrfK + 2 chunks a list, a chunk ranked last in both only ties with one ranked first in one. */
  lemma {:induction false} AgreementCanTie(rrfK: nat)
    ensures !AgreementWins(rrfK, rrfK + 2)
  {
    var n := rrfK + 2;
    var dense, sparse := NumberedFrom(0, n), NumberedFrom(n, n - 1) + [Numbered(n - 1)];
    LastInBothTiesWithFirstInOne(RetrievalResult(0, dense, sparse), n - 1, 0, rrfK);
  }

  /** The guarantee holds exactly for lists of at most rrfK + 1 chunks. */
  lemma {:induction false} AgreementWinsExactlyUpTo(rrfK: nat, n: nat)
    ensures AgreementWins(rrfK, n) <==> n <= rrfK + 1
  {
    if n <= rrfK + 1 {
      forall result: RetrievalResult, x: Id, y: Id |
        NoRepeatedChunks(result.dense) && NoRepeatedChunks(result.sparse) && |result.dense| <= n && |result.sparse| <= n
        && InBoth(result, x) && InOnlyOne(result, y)
        ensures FusedScore(result, x, rrfK) > FusedScore(result, y, rrfK)
      {
        ListScoreBounds(result.dense, x, rrfK, rrfK + 1);
        ListScoreBounds(result.sparse, x, rrfK, rrfK + 1);
        ListScoreBounds(result.dense, y, rrfK, rrfK + 1);
        ListScoreBounds(result.sparse, y, rrfK, rrfK + 1);
        TwoLastBeatOneFirst(rrfK);
      }
    } else {
      AgreementCanTie(rrfK);
    }
  }
}
