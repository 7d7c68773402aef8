/** Reranking one sub-query's candidates (cross_encoder.rerank_subquery). */
module Rerank {
  import opened Options
  import opened EvidenceRows
  import opened Sorting
  import opened Dedup
  import opened EvidenceCap

  /** A cross-encoder: any deterministic scoring of (sub-query, chunk text) pairs with one score per pair. */
  type Scorer = seq<(string, string)> -> seq<real>

  ghost predicate OneScorePerPair(score: Scorer) {
    forall pairs: seq<(string, string)> :: |score(pairs)| == |pairs|
  }

  // ----- Specification -----

  function Pairs(text: string, pool: seq<Row>, chunks: map<Id, RetrievedChunk>): (pairs: seq<(string, string)>)
    requires AllResolved(pool, chunks)
    ensures |pairs| == |pool|
    ensures forall i :: 0 <= i < |pool| ==> pairs[i] == (text, chunks[pool[i].chunkId].text)
  {
    if pool == [] then [] else [(text, chunks[pool[0].chunkId].text)] + Pairs(text, pool[1..], chunks)
  }

  ghost predicate AllResolved(rows: seq<Row>, chunks: map<Id, RetrievedChunk>) {
    forall i :: 0 <= i < |rows| ==> rows[i].chunkId in chunks
  }

  function Scored(pool: seq<Row>, scores: seq<real>): (rows: seq<Row>)
    requires |scores| == |pool|
    ensures |rows| == |pool| && forall i :: 0 <= i < |pool| ==> rows[i] == pool[i].(rerankScore := Some(scores[i]))
  {
    seq(|pool|, i requires 0 <= i < |pool| => pool[i].(rerankScore := Some(scores[i])))
  }

  function Relevant(rows: seq<Row>, minRelevance: real): seq<Row> {
    if rows == [] then []
    else if Score(rows[0]) >= minRelevance then [rows[0]] + Relevant(rows[1..], minRelevance)
    else Relevant(rows[1..], minRelevance)
  }

  ghost function Pool(candidates: seq<Row>, rerankCandidates: nat): seq<Row> {
    Take(SortDesc(candidates, Fusion), rerankCandidates)
  }

  lemma {:induction false} PoolComesFromCandidates(candidates: seq<Row>, n: nat)
    ensures multiset(Pool(candidates, n)) <= multiset(candidates)
    ensures forall r :: r in Pool(candidates, n) ==> r in candidates
  {
    var sorted, pool := SortDesc(candidates, Fusion), Pool(candidates, n);
    SortIsSorted(candidates, Fusion);
    PermutationMembers(sorted, candidates);
    if |sorted| > n {
      PrefixIsASubBag(sorted, n);
    }
  }

  /** The pool holds the candidates of highest fusion score: one is left out only for as many that score no lower. */
  lemma {:induction false} PoolTakesTheBest(candidates: seq<Row>, n: nat, r: Row)
    requires r in candidates
    ensures r in Pool(candidates, n)
      || (|Pool(candidates, n)| == n && forall i :: 0 <= i < n ==> Fusion(Pool(candidates, n)[i]) >= Fusion(r))
  {
    var sorted := SortDesc(candidates, Fusion);
    SortIsSorted(candidates, Fusion);
    PermutationMembers(candidates, sorted);
    var p :| 0 <= p < |sorted| && sorted[p] == r;
    if |sorted| > n && p < n {
      assert sorted[..n][p] == r;
    }
  }

  lemma {:induction false} PoolIsResolved(candidates: seq<Row>, n: nat, chunks: map<Id, RetrievedChunk>)
    requires AllResolved(candidates, chunks)
    ensures AllResolved(Pool(candidates, n), chunks)
  {
    PoolComesFromCandidates(candidates, n);
    var pool := Pool(candidates, n);
    assert forall i :: 0 <= i < |pool| ==> pool[i] in candidates;
  }

  ghost function Judgements(text: string, candidates: seq<Row>, chunks: map<Id, RetrievedChunk>, score: Scorer,
                            n: nat): seq<Row>
    requires OneScorePerPair(score) && AllResolved(candidates, chunks)
  {
    var pool := Pool(candidates, n);
    PoolIsResolved(candidates, n, chunks);
    Scored(pool, score(Pairs(text, pool, chunks)))
  }

  ghost function Reranked(text: string, candidates: seq<Row>, chunks: map<Id, RetrievedChunk>, score: Scorer,
                          minRelevance: real, finalK: nat, rerankCandidates: nat): seq<Row>
    requires OneScorePerPair(score) && AllResolved(candidates, chunks)
  {
    var scored := Judgements(text, candidates, chunks, score, rerankCandidates);
    Take(Relevant(SortDesc(scored, Score), minRelevance), finalK)
  }

  // ----- What reranking promises -----

  lemma {:induction false} RelevantMembers(rows: seq<Row>, minRelevance: real)
    ensures forall r :: r in Relevant(rows, minRelevance) <==> r in rows && Score(r) >= minRelevance
  {
    if rows != [] {
      RelevantMembers(rows[1..], minRelevance);
      assert rows == [rows[0]] + rows[1..];
    }
  }

  lemma {:induction false} RelevantIsASubBag(rows: seq<Row>, minRelevance: real)
    ensures multiset(Relevant(rows, minRelevance)) <= multiset(rows)
  {
    if rows != [] {
      RelevantIsASubBag(rows[1..], minRelevance);
      MultisetCons(rows);
      var rest := Relevant(rows[1..], minRelevance);
      MultisetCons([rows[0]] + rest);
      assert ([rows[0]] + rest)[1..] == rest;
    }
  }

  lemma {:induction false} RelevantAreInOrder(rows: seq<Row>, minRelevance: real)
    requires Descending(rows, Score)
    ensures Descending(Relevant(rows, minRelevance), Score)
  {
    if rows != [] {
      RelevantAreInOrder(rows[1..], minRelevance);
      RelevantMembers(rows[1..], minRelevance);
      var rest := Relevant(rows[1..], minRelevance);
      forall i | 0 <= i < |rest| ensures Score(rows[0]) >= Score(rest[i]) {
        assert rest[i] in rest;
        var k :| 0 <= k < |rows| - 1 && rows[1..][k] == rest[i];
        assert rows[k + 1] == rest[i];
      }
    }
  }

  /** A kept row is a candidate from the pool with the score the reranker gave it, and relevant enough. */
  ghost predicate KeptFrom(kept: seq<Row>, scored: seq<Row>, minRelevance: real, finalK: nat) {
    && |kept| <= finalK && Descending(kept, Score)
    && multiset(kept) <= multiset(scored)
    && forall i :: 0 <= i < |kept| ==> kept[i] in scored && Score(kept[i]) >= minRelevance
  }

  /**
    * The relevant rows of highest score, at most finalK of them, highest first; a relevant row of the pool is left
    * out only when finalK rows that score no lower were kept.
    */
  lemma {:induction false} RerankKeepsTheBest(text: string, candidates: seq<Row>, chunks: map<Id, RetrievedChunk>,
                                              score: Scorer, minRelevance: real, finalK: nat, rerankCandidates: nat,
                                              r: Row)
    requires OneScorePerPair(score) && AllResolved(candidates, chunks)
    requires r in Judgements(text, candidates, chunks, score, rerankCandidates) && Score(r) >= minRelevance
    ensures var kept := Reranked(text, candidates, chunks, score, minRelevance, finalK, rerankCandidates);
      r in kept || (|kept| == finalK && forall i :: 0 <= i < |kept| ==> Score(kept[i]) >= Score(r))
  {
    var scored := Judgements(text, candidates, chunks, score, rerankCandidates);
    var sorted := SortDesc(scored, Score);
    SortIsSorted(scored, Score);
    PermutationMembers(scored, sorted);
    RelevantAreInOrder(sorted, minRelevance);
    RelevantMembers(sorted, minRelevance);
    var relevant := Relevant(sorted, minRelevance);
    PrefixOrBelow(relevant, finalK, r);
  }

  lemma {:induction false} PrefixOrBelow(rows: seq<Row>, n: nat, r: Row)
    requires Descending(rows, Score) && r in rows
    ensures r in Take(rows, n)
      || (|Take(rows, n)| == n && forall i :: 0 <= i < n ==> Score(Take(rows, n)[i]) >= Score(r))
  {
    var p :| 0 <= p < |rows| && rows[p] == r;
    if |rows| > n && p < n {
      assert rows[..n][p] == r;
    }
  }

  lemma {:induction false} RerankedIsKept(text: string, candidates: seq<Row>, chunks: map<Id, RetrievedChunk>,
                                          score: Scorer, minRelevance: real, finalK: nat, rerankCandidates: nat)
    requires OneScorePerPair(score) && AllResolved(candidates, chunks)
    ensures KeptFrom(Reranked(text, candidates, chunks, score, minRelevance, finalK, rerankCandidates),
                     Judgements(text, candidates, chunks, score, rerankCandidates), minRelevance, finalK)
  {
    var scored := Judgements(text, candidates, chunks, score, rerankCandidates);
    TopMembers(scored, minRelevance, finalK);
    TopIsASubBag(scored, minRelevance, finalK);
    SortIsSorted(scored, Score);
    RelevantAreInOrder(SortDesc(scored, Score), minRelevance);
    TakeOf(Relevant(SortDesc(scored, Score), minRelevance), finalK);
  }

  lemma {:induction false} TopMembers(scored: seq<Row>, minRelevance: real, n: nat)
    ensures var kept := Take(Relevant(SortDesc(scored, Score), minRelevance), n);
      forall i :: 0 <= i < |kept| ==> kept[i] in scored && Score(kept[i]) >= minRelevance
  {
    var sorted := SortDesc(scored, Score);
    SortIsSorted(scored, Score);
    PermutationMembers(scored, sorted);
    RelevantMembers(sorted, minRelevance);
    var relevant := Relevant(sorted, minRelevance);
    assert forall i :: 0 <= i < |relevant| ==> relevant[i] in relevant;
  }

  lemma {:induction false} TopIsASubBag(scored: seq<Row>, minRelevance: real, n: nat)
    ensures multiset(Take(Relevant(SortDesc(scored, Score), minRelevance), n)) <= multiset(scored)
  {
    SortIsSorted(scored, Score);
    RelevantIsASubBag(SortDesc(scored, Score), minRelevance);
    var relevant := Relevant(SortDesc(scored, Score), minRelevance);
    if |relevant| > n {
      PrefixIsASubBag(relevant, n);
    }
  }

  lemma {:induction false} TakeOf(rows: seq<Row>, n: nat)
    requires Descending(rows, Score)
    ensures Descending(Take(rows, n), Score)
  {
    if |rows| > n {
      PrefixOfDescending(rows, n, Score);
    }
  }

  // ----- The whole of it, told by the scores -----

  ghost predicate ByFusion(pool: seq<Row>) {
    forall i, j :: 0 <= i < j < |pool| ==> pool[i].fusionScore >= pool[j].fusionScore
  }

  ghost predicate ByRerankScore(kept: seq<Row>) {
    && (forall i :: 0 <= i < |kept| ==> kept[i].rerankScore.Some?)
    && forall i, j :: 0 <= i < j < |kept| ==> kept[i].rerankScore.value >= kept[j].rerankScore.value
  }

  /** The pool is full of rows that a left-out candidate's fusion score does not surpass. */
  ghost predicate CrowdsOut(pool: seq<Row>, n: nat, r: Row) {
    |pool| == n && forall i :: 0 <= i < n ==> pool[i].fusionScore >= r.fusionScore
  }

  /** Candidates of highest fusion score, highest first, at most n of them. */
  ghost predicate IsPool(pool: seq<Row>, candidates: seq<Row>, n: nat) {
    && |pool| <= n && ByFusion(pool) && multiset(pool) <= multiset(candidates)
    && forall r :: r in candidates ==> r in pool || CrowdsOut(pool, n, r)
  }

  /** The i-th row carries the score of its own chunk's text for the sub-query's text. */
  ghost predicate AreScored(scored: seq<Row>, text: string, chunks: map<Id, RetrievedChunk>, score: Scorer,
                            pairs: seq<(string, string)>)
  {
    && |score(pairs)| == |pairs| == |scored|
    && forall i :: 0 <= i < |scored| ==>
         && scored[i].chunkId in chunks && pairs[i] == (text, chunks[scored[i].chunkId].text)
         && scored[i].rerankScore == Some(score(pairs)[i])
  }

  /** Nothing but the rerank score is set. */
  ghost predicate OnlyScoresSet(pool: seq<Row>, scored: seq<Row>) {
    |scored| == |pool| && forall i :: 0 <= i < |pool| ==> scored[i] == pool[i].(rerankScore := scored[i].rerankScore)
  }

  /** The kept rows are full of rows that score no lower. */
  ghost predicate Outscored(kept: seq<Row>, finalK: nat, r: Row) {
    |kept| == finalK && forall i :: 0 <= i < finalK ==>
      kept[i].rerankScore.Some? && r.rerankScore.Some? && kept[i].rerankScore.value >= r.rerankScore.value
  }

  /** Relevant rows of highest score, highest first, at most finalK of them; others are left out only for these. */
  ghost predicate AreTheBest(kept: seq<Row>, scored: seq<Row>, minRelevance: real, finalK: nat) {
    && |kept| <= finalK && ByRerankScore(kept) && multiset(kept) <= multiset(scored)
    && (forall i :: 0 <= i < |kept| ==> kept[i].rerankScore.value >= minRelevance)
    && forall r :: r in scored && r.rerankScore.Some? && r.rerankScore.value >= minRelevance ==>
         r in kept || Outscored(kept, finalK, r)
  }

  lemma {:induction false} PoolIsAPool(candidates: seq<Row>, n: nat)
    ensures IsPool(Pool(candidates, n), candidates, n)
  {
    var pool := Pool(candidates, n);
    PoolComesFromCandidates(candidates, n);
    SortIsSorted(candidates, Fusion);
    assert forall i, j :: 0 <= i < j < |pool| ==> Fusion(pool[i]) >= Fusion(pool[j]);
    forall r | r in candidates ensures r in pool || CrowdsOut(pool, n, r) {
      PoolTakesTheBest(candidates, n, r);
      assert r in pool || forall i :: 0 <= i < n ==> Fusion(pool[i]) >= Fusion(r);
    }
  }

  lemma {:induction false} JudgementsAreScored(text: string, candidates: seq<Row>, chunks: map<Id, RetrievedChunk>,
                                               score: Scorer, n: nat)
    returns (pool: seq<Row>, pairs: seq<(string, string)>)
    requires OneScorePerPair(score) && AllResolved(candidates, chunks)
    ensures var scored := Judgements(text, candidates, chunks, score, n);
      IsPool(pool, candidates, n) && OnlyScoresSet(pool, scored) && AreScored(scored, text, chunks, score, pairs)
  {
    pool := Pool(candidates, n);
    PoolIsAPool(candidates, n);
    PoolIsResolved(candidates, n, chunks);
    pairs := Pairs(text, pool, chunks);
  }

  lemma {:induction false} ScoresAreSet(scored: seq<Row>, text: string, chunks: map<Id, RetrievedChunk>, score: Scorer,
                                        pairs: seq<(string, string)>)
    requires AreScored(scored, text, chunks, score, pairs)
    ensures forall r :: r in scored ==> r.rerankScore.Some? && Score(r) == r.rerankScore.value
  {
  }

  lemma {:induction false} KeptAreTheBest(kept: seq<Row>, scored: seq<Row>, minRelevance: real, finalK: nat)
    requires forall r :: r in scored ==> r.rerankScore.Some? && Score(r) == r.rerankScore.value
    requires KeptFrom(kept, scored, minRelevance, finalK)
    requires forall r :: r in scored && Score(r) >= minRelevance ==>
      r in kept || (|kept| == finalK && forall i :: 0 <= i < |kept| ==> Score(kept[i]) >= Score(r))
    ensures AreTheBest(kept, scored, minRelevance, finalK)
  {
    forall i | 0 <= i < |kept|
      ensures kept[i].rerankScore.Some? && Score(kept[i]) == kept[i].rerankScore.value >= minRelevance
    {
      assert kept[i] in scored;
    }
    forall r | r in scored && r.rerankScore.value >= minRelevance ensures r in kept || Outscored(kept, finalK, r) {
    }
  }

  lemma {:induction false} RerankedAreTheBest(text: string, candidates: seq<Row>, chunks: map<Id, RetrievedChunk>,
                                              score: Scorer, minRelevance: real, finalK: nat, rerankCandidates: nat)
    requires OneScorePerPair(score) && AllResolved(candidates, chunks)
    ensures AreTheBest(Reranked(text, candidates, chunks, score, minRelevance, finalK, rerankCandidates),
                       Judgements(text, candidates, chunks, score, rerankCandidates), minRelevance, finalK)
  {
    var scored := Judgements(text, candidates, chunks, score, rerankCandidates);
    var kept := Reranked(text, candidates, chunks, score, minRelevance, finalK, rerankCandidates);
    var pool, pairs := JudgementsAreScored(text, candidates, chunks, score, rerankCandidates);
    ScoresAreSet(scored, text, chunks, score, pairs);
    RerankedIsKept(text, candidates, chunks, score, minRelevance, finalK, rerankCandidates);
    forall r | r in scored && Score(r) >= minRelevance
      ensures r in kept || (|kept| == finalK && forall i :: 0 <= i < |kept| ==> Score(kept[i]) >= Score(r))
    {
      RerankKeepsTheBest(text, candidates, chunks, score, minRelevance, finalK, rerankCandidates, r);
    }
    KeptAreTheBest(kept, scored, minRelevance, finalK);
  }

  /** The row carries the score of its chunk's text for this text, asked together with other pairs for the same text. */
  ghost predicate ScoredFor(r: Row, text: string, chunks: map<Id, RetrievedChunk>, score: Scorer) {
    exists pairs, p | AsksAt(pairs, p, r, text, chunks) ::
      |score(pairs)| == |pairs| && r.rerankScore == Some(score(pairs)[p])
  }

  ghost predicate AsksAt(pairs: seq<(string, string)>, p: int, r: Row, text: string, chunks: map<Id, RetrievedChunk>) {
    && 0 <= p < |pairs| && (forall q :: 0 <= q < |pairs| ==> pairs[q].0 == text)
    && r.chunkId in chunks && pairs[p].1 == chunks[r.chunkId].text
  }

  lemma {:induction false} RerankedAreScoredFor(text: string, candidates: seq<Row>, chunks: map<Id, RetrievedChunk>,
                                                score: Scorer, minRelevance: real, finalK: nat, n: nat, r: Row)
    requires OneScorePerPair(score) && AllResolved(candidates, chunks)
    requires r in Reranked(text, candidates, chunks, score, minRelevance, finalK, n)
    ensures ScoredFor(r, text, chunks, score)
  {
    var kept, scored := Reranked(text, candidates, chunks, score, minRelevance, finalK, n),
      Judgements(text, candidates, chunks, score, n);
    var pool, pairs := JudgementsAreScored(text, candidates, chunks, score, n);
    RerankedIsKept(text, candidates, chunks, score, minRelevance, finalK, n);
    var i :| 0 <= i < |kept| && kept[i] == r;
    var p :| 0 <= p < |scored| && scored[p] == r;
    assert AsksAt(pairs, p, r, text, chunks);
  }

  /** All that reranking promises, told by the fusion scores and what the cross-encoder says of its pairs. */
  ghost predicate IsReranked(kept: seq<Row>, text: string, candidates: seq<Row>, chunks: map<Id, RetrievedChunk>,
                             score: Scorer, minRelevance: real, finalK: nat, n: nat)
  {
    exists pool, scored, pairs ::
      && IsPool(pool, candidates, n) && OnlyScoresSet(pool, scored) && AreScored(scored, text, chunks, score, pairs)
      && AreTheBest(kept, scored, minRelevance, finalK)
  }

  lemma {:induction false} RerankingIsReranking(text: string, candidates: seq<Row>, chunks: map<Id, RetrievedChunk>,
                                                score: Scorer, minRelevance: real, finalK: nat, n: nat)
    requires OneScorePerPair(score) && AllResolved(candidates, chunks)
    ensures IsReranked(Reranked(text, candidates, chunks, score, minRelevance, finalK, n), text, candidates, chunks,
                       score, minRelevance, finalK, n)
  {
    var pool, pairs := JudgementsAreScored(text, candidates, chunks, score, n);
    RerankedAreTheBest(text, candidates, chunks, score, minRelevance, finalK, n);
    var scored := Judgements(text, candidates, chunks, score, n);
    assert IsPool(pool, candidates, n) && OnlyScoresSet(pool, scored) && AreScored(scored, text, chunks, score, pairs);
  }

  // ----- The in-place implementation -----

  /** A row object beside what it holds, so that objects can be sorted by a field. */
  datatype Entry = Entry(x: Evidence, row: Row)

  function RowOf(entry: Entry): Row { entry.row }

  function EntryScore(entry: Entry): real { Score(entry.row) }

  function Entries(pool: seq<Evidence>): (entries: seq<Entry>)
    reads pool
    ensures |entries| == |pool| && forall i :: 0 <= i < |pool| ==> entries[i] == Entry(pool[i], pool[i].Snapshot())
  {
    if pool == [] then [] else [Entry(pool[0], pool[0].Snapshot())] + Entries(pool[1..])
  }

  method SortByScore(pool: seq<Evidence>) returns (ranked: seq<Evidence>)
    ensures Rows(ranked) == SortDesc(Rows(pool), Score)
    ensures forall i :: 0 <= i < |ranked| ==> ranked[i] in pool
  {
    var entries := Entries(pool);
    var sorted := SortDesc(entries, EntryScore);
    assert multiset(entries) == multiset(sorted) by {
      SortIsSorted(entries, EntryScore);
    }
    PermutationMembers(entries, sorted);
    SortOfMap(entries, RowOf, EntryScore, Score);
    assert Map(entries, RowOf) == Rows(pool);
    ranked := Map(sorted, (entry: Entry) => entry.x);
    forall i | 0 <= i < |ranked| ensures ranked[i] in pool && ranked[i].Snapshot() == sorted[i].row {
      assert sorted[i] in sorted;
      assert sorted[i] in entries;
    }
    assert Rows(ranked) == Map(sorted, RowOf);
  }

  ghost predicate ScoredUpTo(pool: seq<Evidence>, n: nat, rows: seq<Row>, scores: seq<real>)
    requires |rows| == |pool| == |scores|
    reads pool
  {
    forall i :: 0 <= i < |pool| ==>
      pool[i].Snapshot() == if i < n then rows[i].(rerankScore := Some(scores[i])) else rows[i]
  }

  method SetScore(pool: seq<Evidence>, x: Evidence, n: nat, scores: seq<real>, ghost rows: seq<Row>)
    requires |rows| == |pool| == |scores| && n < |pool| && pool[n] == x && DistinctObjects(pool)
    requires ScoredUpTo(pool, n, rows, scores)
    modifies x`rerankScore
    ensures ScoredUpTo(pool, n + 1, rows, scores)
  {
    ObjectsDiffer(pool);
    assert pool[n].Snapshot() == rows[n];
    x.rerankScore := Some(scores[n]);
  }

  method SetScores(pool: seq<Evidence>, scores: seq<real>)
    requires |scores| == |pool| && DistinctObjects(pool)
    modifies pool`rerankScore
    ensures Rows(pool) == Scored(old(Rows(pool)), scores)
  {
    ghost var rows := Rows(pool);
    for n := 0 to |pool|
      invariant ScoredUpTo(pool, n, rows, scores)
    {
      SetScore(pool, pool[n], n, scores, rows);
    }
  }

  function RelevantOf(ranked: seq<Evidence>, minRelevance: real): (kept: seq<Evidence>)
    reads ranked
    ensures Rows(kept) == Relevant(Rows(ranked), minRelevance)
    ensures forall i :: 0 <= i < |kept| ==> kept[i] in ranked
  {
    if ranked == [] then []
    else
      assert Rows(ranked)[1..] == Rows(ranked[1..]);
      if Score(ranked[0].Snapshot()) >= minRelevance then [ranked[0]] + RelevantOf(ranked[1..], minRelevance)
      else RelevantOf(ranked[1..], minRelevance)
  }

  lemma {:induction false} RowsOfTake(evidence: seq<Evidence>, n: nat)
    ensures Rows(if |evidence| <= n then evidence else evidence[..n]) == Take(Rows(evidence), n)
  {
  }

  lemma {:induction false} PrefixHasDistinctObjects(evidence: seq<Evidence>, n: nat)
    requires DistinctObjects(evidence) && n <= |evidence|
    ensures DistinctObjects(evidence[..n])
  {
    ObjectsDiffer(evidence);
    ObjectsDiffer(evidence[..n]);
  }

  /** The pool scored, ranked and cut. */
  method RerankPool(text: string, pool: seq<Evidence>, chunks: map<Id, RetrievedChunk>, score: Scorer,
                    minRelevance: real, finalK: nat)
    returns (kept: seq<Evidence>)
    requires OneScorePerPair(score) && DistinctObjects(pool) && AllResolved(Rows(pool), chunks)
    modifies pool`rerankScore
    ensures var rows := old(Rows(pool));
      Rows(pool) == Scored(rows, score(Pairs(text, rows, chunks)))
      && Rows(kept) == Take(Relevant(SortDesc(Rows(pool), Score), minRelevance), finalK)
    ensures forall i :: 0 <= i < |kept| ==> kept[i] in pool
  {
    assert forall i :: 0 <= i < |pool| ==> Rows(pool)[i].chunkId in chunks;
    var scores := score(PairsOf(text, pool, chunks));
    SetScores(pool, scores);
    var ranked := SortByScore(pool);
    var relevant := RelevantOf(ranked, minRelevance);
    kept := if |relevant| <= finalK then relevant else relevant[..finalK];
    RowsOfTake(relevant, finalK);
  }

  method PoolOf(candidates: seq<Evidence>, rerankCandidates: nat) returns (pool: seq<Evidence>)
    requires DistinctObjects(candidates)
    ensures Rows(pool) == Pool(Rows(candidates), rerankCandidates) && DistinctObjects(pool)
    ensures forall i :: 0 <= i < |pool| ==> pool[i] in candidates
  {
    var order; ghost var sorted;
    order, sorted := RankByFusion(candidates);
    pool := if |order| <= rerankCandidates then order else order[..rerankCandidates];
    TakenObjects(order, rerankCandidates);
    RowsOfTake(order, rerankCandidates);
  }

  lemma {:induction false} TakenObjects(order: seq<Evidence>, n: nat)
    requires DistinctObjects(order)
    ensures var pool := if |order| <= n then order else order[..n];
      DistinctObjects(pool) && |pool| <= |order| && forall i :: 0 <= i < |pool| ==> pool[i] == order[i]
  {
    if n < |order| { PrefixHasDistinctObjects(order, n); }
  }

  /** The best candidates are scored and cut, nothing else changes, and the kept rows are those of the specification. */
  method RerankTop(text: string, candidates: seq<Evidence>, chunks: map<Id, RetrievedChunk>, score: Scorer,
                   minRelevance: real, finalK: nat, rerankCandidates: nat)
    returns (kept: seq<Evidence>, ghost pool: seq<Evidence>)
    requires OneScorePerPair(score) && DistinctObjects(candidates) && AllResolved(Rows(candidates), chunks)
    modifies candidates`rerankScore
    ensures forall i :: 0 <= i < |pool| ==> pool[i] in candidates
    ensures forall x :: x in candidates && x !in pool ==> x.rerankScore == old(x.rerankScore)
    ensures Rows(pool) == Judgements(text, old(Rows(candidates)), chunks, score, rerankCandidates)
    ensures Rows(kept) == Reranked(text, old(Rows(candidates)), chunks, score, minRelevance, finalK, rerankCandidates)
    ensures forall i :: 0 <= i < |kept| ==> kept[i] in candidates
  {
    PoolIsResolved(Rows(candidates), rerankCandidates, chunks);
    var top := PoolOf(candidates, rerankCandidates);
    pool := top;
    if top == [] {
      kept := [];
    } else {
      kept := RerankPool(text, top, chunks, score, minRelevance, finalK);
    }
  }

  /**
    * rerank_subquery: each row of the pool gets the score that the cross-encoder gives its chunk's text for the
    * sub-query's text, nothing else changes, and the kept rows are the best of them.
    */
  method RerankSubquery(text: string, candidates: seq<Evidence>, chunks: map<Id, RetrievedChunk>, score: Scorer,
                        minRelevance: real, finalK: nat, rerankCandidates: nat)
    returns (kept: seq<Evidence>, ghost pool: seq<Evidence>, ghost pairs: seq<(string, string)>)
    requires OneScorePerPair(score) && DistinctObjects(candidates) && AllResolved(Rows(candidates), chunks)
    modifies candidates`rerankScore
    ensures forall i :: 0 <= i < |pool| ==> pool[i] in candidates
    ensures forall x :: x in candidates && x !in pool ==> x.rerankScore == old(x.rerankScore)
    ensures AreScored(Rows(pool), text, chunks, score, pairs)
    ensures IsReranked(Rows(kept), text, old(Rows(candidates)), chunks, score, minRelevance, finalK, rerankCandidates)
    ensures Rows(kept) == Reranked(text, old(Rows(candidates)), chunks, score, minRelevance, finalK, rerankCandidates)
    ensures forall i :: 0 <= i < |kept| ==> kept[i] in candidates
  {
    ghost var poolRows;
    poolRows, pairs := JudgementsAreScored(text, Rows(candidates), chunks, score, rerankCandidates);
    RerankingIsReranking(text, Rows(candidates), chunks, score, minRelevance, finalK, rerankCandidates);
    kept, pool := RerankTop(text, candidates, chunks, score, minRelevance, finalK, rerankCandidates);
  }

  function PairsOf(text: string, pool: seq<Evidence>, chunks: map<Id, RetrievedChunk>): (pairs: seq<(string, string)>)
    requires forall i :: 0 <= i < |pool| ==> pool[i].chunkId in chunks
    reads pool
    ensures AllResolved(Rows(pool), chunks) && pairs == Pairs(text, Rows(pool), chunks)
  {
    if pool == [] then []
    else
      assert Rows(pool)[1..] == Rows(pool[1..]);
      [(text, chunks[pool[0].chunkId].text)] + PairsOf(text, pool[1..], chunks)
  }
}
