/** Global deduplication of fused evidence (fusion.dedup). */
module Dedup {
  import opened Options
  import opened EvidenceRows
  import opened Vectors
  import opened Sorting
  import opened Greedy

  // ----- Specification -----

  /** Two rows are duplicates when they name one chunk or their chunks' texts are too similar. */
  predicate Duplicates(a: Row, b: Row, chunks: map<Id, RetrievedChunk>, threshold: real, e: Embedder)
    requires forall text :: |e.embed(text)| == e.dim
    requires a.chunkId in chunks && b.chunkId in chunks
  {
    a.chunkId == b.chunkId
      || Cosine(e.sqrt, e.embed(chunks[a.chunkId].text), e.embed(chunks[b.chunkId].text)) > threshold
  }

  ghost function Matching(chunks: map<Id, RetrievedChunk>, threshold: real, e: Embedder): (Row, Row) -> bool
    requires e.Valid()
  {
    (a: Row, b: Row) => a.chunkId in chunks && b.chunkId in chunks && Duplicates(a, b, chunks, threshold, e)
  }

  function Fusion(r: Row): real { r.fusionScore }

  ghost function Survivors(rows: seq<Row>, matches: (Row, Row) -> bool): seq<Row> {
    Keepers(SortDesc(rows, Fusion), matches)
  }

  /** The row with its verdict: duplicate of the first survivor it matches, unless that is the row itself. */
  ghost function Judged(r: Row, survivors: seq<Row>, matches: (Row, Row) -> bool): Row {
    var first := FirstMatch(survivors, r, matches);
    if first.None? || survivors[first.value].evidenceId == r.evidenceId then r
    else r.(duplicateOf := Some(survivors[first.value].evidenceId))
  }

  ghost function Deduped(rows: seq<Row>, matches: (Row, Row) -> bool): (r: seq<Row>)
    ensures |r| == |rows|
    ensures forall i :: 0 <= i < |r| ==> r[i] == Judged(rows[i], Survivors(rows, matches), matches)
  {
    seq(|rows|, i requires 0 <= i < |rows| => Judged(rows[i], Survivors(rows, matches), matches))
  }

  lemma {:induction false} SortKeepsDistinctIds(rows: seq<Row>)
    requires DistinctIds(rows)
    ensures DistinctIds(SortDesc(rows, Fusion))
  {
    var sorted := SortDesc(rows, Fusion);
    IdsDiffer(rows);
    IdsDiffer(sorted);
    SortIsSorted(rows, Fusion);
    PermutationMembers(rows, sorted);
    PermutationHasNoRepeats(rows, sorted);
    forall i, j | 0 <= i < j < |sorted| ensures sorted[i].evidenceId != sorted[j].evidenceId {
      assert sorted[i] in rows && sorted[j] in rows;
    }
  }

  // ----- What deduplication promises -----

  lemma {:induction false} MatchingIsSymmetric(chunks: map<Id, RetrievedChunk>, threshold: real, e: Embedder, a: Row,
                                               b: Row)
    requires e.Valid()
    ensures Matching(chunks, threshold, e)(a, b) == Matching(chunks, threshold, e)(b, a)
  {
    if a.chunkId in chunks && b.chunkId in chunks {
      CosineCommutes(e.sqrt, e.embed(chunks[a.chunkId].text), e.embed(chunks[b.chunkId].text));
    }
  }

  /** Row s survives the judgement. */
  ghost predicate Survives(s: Row, rows: seq<Row>, matches: (Row, Row) -> bool) {
    s in Survivors(rows, matches)
  }

  /** A row ranked among the first n that is kept at all was kept within the first n steps. */
  lemma {:induction false} KeepersAmong(order: seq<Row>, n: nat, matches: (Row, Row) -> bool)
    requires DistinctIds(order) && n <= |order|
    ensures forall q :: 0 <= q < n && order[q] in Keepers(order, matches) ==> order[q] in Keepers(order[..n], matches)
    decreases |order| - n
  {
    IdsDiffer(order);
    if n < |order| {
      KeepersAmong(order, n + 1, matches);
      assert order[..n + 1][..n] == order[..n];
      assert forall q :: 0 <= q < n ==> order[q] != order[n];
    } else {
      assert order[..n] == order;
    }
  }

  /** A row survives exactly when it met no match at its turn, and the survivors ranked before it are those it met. */
  lemma {:induction false} TurnDecides(order: seq<Row>, p: nat, matches: (Row, Row) -> bool)
    requires DistinctIds(order) && p < |order|
    ensures Keepers(order[..p], matches) <= Keepers(order, matches)
    ensures forall q :: 0 <= q < p ==>
      (order[q] in Keepers(order, matches) <==> order[q] in Keepers(order[..p], matches))
    ensures order[p] in Keepers(order, matches) <==> FirstMatch(Keepers(order[..p], matches), order[p], matches).None?
  {
    IdsDiffer(order);
    KeepersGrow(order, p, matches);
    EveryElementIsDecided(order, p, matches);
    KeepersAmong(order, p, matches);
    KeepersAmong(order, p + 1, matches);
    assert order[..p + 1][..p] == order[..p];
    KeepersAreIndependent(order[..p], matches);
  }

  /**
    * Greedy maximal independent set in descending fusion score: a row survives if and only if it matches no
    * survivor ranked before it, so the survivors are pairwise unmatched and every other row matches one of them.
    */
  lemma {:induction false} SurvivorsAreTheGreedyIndependentSet(rows: seq<Row>, matches: (Row, Row) -> bool, p: nat)
    requires DistinctIds(rows) && p < |rows|
    ensures var order := SortDesc(rows, Fusion);
      Survives(order[p], rows, matches) <==>
      forall q :: 0 <= q < p && Survives(order[q], rows, matches) ==> !matches(order[p], order[q])
  {
    var order := SortDesc(rows, Fusion);
    SortKeepsDistinctIds(rows);
    TurnDecides(order, p, matches);
    KeepersAreIndependent(order[..p], matches);
    var met := Keepers(order[..p], matches);
    var first := FirstMatch(met, order[p], matches);
    if first.Some? {
      assert met[first.value] in met;
      var q :| 0 <= q < p && order[q] == met[first.value];
      assert Survives(order[q], rows, matches);
    } else {
      forall q | 0 <= q < p && Survives(order[q], rows, matches) ensures !matches(order[p], order[q]) {
        assert order[q] in met;
      }
    }
  }

  ghost predicate PointsAt(r: Row, survivors: seq<Row>, k: nat, matches: (Row, Row) -> bool)
    requires k < |survivors|
  {
    && Judged(r, survivors, matches) == r.(duplicateOf := Some(survivors[k].evidenceId))
    && matches(r, survivors[k]) && survivors[k].fusionScore >= r.fusionScore && survivors[k].evidenceId != r.evidenceId
    && (forall j :: 0 <= j < k ==> !matches(r, survivors[j]))
    && forall j :: 0 <= j < |survivors| && matches(r, survivors[j]) ==>
      survivors[j].fusionScore <= survivors[k].fusionScore
  }

  /** What is kept of a ranking keeps its order. */
  lemma {:induction false} KeepersDescend(order: seq<Row>, matches: (Row, Row) -> bool)
    requires Descending(order, Fusion)
    ensures Descending(Keepers(order, matches), Fusion)
    ensures forall r :: r in Keepers(order, matches) ==> r in order
  {
    if order != [] {
      var before := order[..|order| - 1];
      KeepersDescend(before, matches);
      assert forall r :: r in before ==> r in order && Fusion(r) >= Fusion(order[|order| - 1]);
    }
  }

  /** A survivor keeps its row: the first survivor it matches is itself. */
  lemma {:induction false} SurvivorKeepsItsRow(order: seq<Row>, p: nat, matches: (Row, Row) -> bool)
    requires DistinctIds(order) && p < |order| && matches(order[p], order[p]) && order[p] in Keepers(order, matches)
    ensures Judged(order[p], Keepers(order, matches), matches) == order[p]
  {
    var all, met := Keepers(order, matches), Keepers(order[..p], matches);
    TurnDecides(order, p, matches);
    EveryElementIsDecided(order, p, matches);
    forall j | 0 <= j < |met| ensures !matches(order[p], all[j]) {
      assert all[j] == met[j];
    }
    FirstMatchAt(all, order[p], matches, |met|);
  }

  lemma {:induction false} AbsorbedRowPointsAtItsKeeper(order: seq<Row>, p: nat, matches: (Row, Row) -> bool)
    requires DistinctIds(order) && Descending(order, Fusion) && p < |order| && order[p] !in Keepers(order, matches)
    ensures FirstMatch(Keepers(order, matches), order[p], matches).Some?
    ensures PointsAt(order[p], Keepers(order, matches), FirstMatch(Keepers(order, matches), order[p], matches).value,
      matches)
  {
    var all, met := Keepers(order, matches), Keepers(order[..p], matches);
    TurnDecides(order, p, matches);
    MatchAtItsTurn(order, p, matches);
    KeepersAreIndependent(order[..p], matches);
    var k := FirstMatch(all, order[p], matches).value;
    assert all[k] == met[k] && met[k] in order[..p];
    var q :| 0 <= q < p && order[q] == met[k];
    assert Fusion(order[q]) >= Fusion(order[p]);
    IdsDiffer(order);
    KeepersDescend(order, matches);
    forall j | 0 <= j < |all| && matches(order[p], all[j]) ensures all[j].fusionScore <= all[k].fusionScore {
      assert j >= k && Fusion(all[k]) >= Fusion(all[j]);
    }
  }

  /**
    * Every row is judged by the first survivor it matches. Survivors keep their row; any other row points at the
    * highest-scoring survivor it matches, of no lower score than its own, and no survivor ranked before matches it.
    */
  lemma {:induction false} JudgementIsFinal(rows: seq<Row>, matches: (Row, Row) -> bool, r: Row)
    requires DistinctIds(rows) && r in rows && matches(r, r)
    ensures Survives(r, rows, matches) ==> Judged(r, Survivors(rows, matches), matches) == r
    ensures !Survives(r, rows, matches) ==>
      exists k :: 0 <= k < |Survivors(rows, matches)| && PointsAt(r, Survivors(rows, matches), k, matches)
  {
    var order := SortDesc(rows, Fusion);
    SortIsSorted(rows, Fusion);
    PermutationMembers(rows, order);
    SortKeepsDistinctIds(rows);
    var p :| 0 <= p < |order| && order[p] == r;
    if Survives(r, rows, matches) {
      SurvivorKeepsItsRow(order, p, matches);
    } else {
      AbsorbedRowPointsAtItsKeeper(order, p, matches);
    }
  }

  /** Survivors have pairwise distinct chunks whose texts are no more similar than the threshold. */
  lemma {:induction false} SurvivorsAreDissimilar(rows: seq<Row>, chunks: map<Id, RetrievedChunk>, threshold: real,
                                                  e: Embedder, i: nat, j: nat)
    requires e.Valid() && Resolved(rows, chunks)
    requires i < |Survivors(rows, Matching(chunks, threshold, e))|
      && j < |Survivors(rows, Matching(chunks, threshold, e))| && i != j
    ensures var s := Survivors(rows, Matching(chunks, threshold, e));
      && s[i] in rows && s[j] in rows && s[i].chunkId in chunks && s[j].chunkId in chunks
      && s[i].chunkId != s[j].chunkId
      && Cosine(e.sqrt, e.embed(chunks[s[i].chunkId].text), e.embed(chunks[s[j].chunkId].text)) <= threshold
  {
    var matches := Matching(chunks, threshold, e);
    var s := Survivors(rows, matches);
    KeepersAreIndependent(SortDesc(rows, Fusion), matches);
    SortIsSorted(rows, Fusion);
    PermutationMembers(SortDesc(rows, Fusion), rows);
    assert s[i] in s && s[j] in s;
    MatchingIsSymmetric(chunks, threshold, e, s[i], s[j]);
    assert !matches(s[i], s[j]);
  }

  /** One chunk, or two whose texts are more similar than the threshold. */
  ghost predicate SayTheSame(a: Row, b: Row, chunks: map<Id, RetrievedChunk>, threshold: real, e: Embedder)
    requires e.Valid()
  {
    && a.chunkId in chunks && b.chunkId in chunks
    && (a.chunkId == b.chunkId
      || Cosine(e.sqrt, e.embed(chunks[a.chunkId].text), e.embed(chunks[b.chunkId].text)) > threshold)
  }

  /** Row i is a duplicate of row k, which says the same, scores no lower and is none itself. */
  ghost predicate DuplicateOf(rows: seq<Row>, judged: seq<Row>, i: nat, k: int, chunks: map<Id, RetrievedChunk>,
                              threshold: real, e: Embedder)
    requires e.Valid() && |judged| == |rows| && i < |rows|
  {
    && 0 <= k < |rows| && k != i && judged[i] == rows[i].(duplicateOf := Some(rows[k].evidenceId))
    && SayTheSame(rows[i], rows[k], chunks, threshold, e) && rows[k].fusionScore >= rows[i].fusionScore
    && judged[k] == rows[k]
  }

  /** A row is left as it is or marked as a duplicate of another one, and of which says why. */
  lemma {:induction false} DuplicatesSayTheSame(rows: seq<Row>, chunks: map<Id, RetrievedChunk>, threshold: real,
                                                e: Embedder, i: nat)
    requires e.Valid() && Resolved(rows, chunks) && DistinctIds(rows) && i < |rows|
    ensures var judged := Deduped(rows, Matching(chunks, threshold, e));
      judged[i] == rows[i] || exists k :: DuplicateOf(rows, judged, i, k, chunks, threshold, e)
  {
    var matches := Matching(chunks, threshold, e);
    var survivors, judged := Survivors(rows, matches), Deduped(rows, matches);
    JudgementIsFinal(rows, matches, rows[i]);
    if !Survives(rows[i], rows, matches) {
      var m :| 0 <= m < |survivors| && PointsAt(rows[i], survivors, m, matches);
      var k := SurvivorIsARow(rows, matches, m);
      JudgementIsFinal(rows, matches, rows[k]);
      assert DuplicateOf(rows, judged, i, k, chunks, threshold, e);
    }
  }

  lemma {:induction false} SurvivorIsARow(rows: seq<Row>, matches: (Row, Row) -> bool, m: nat) returns (k: nat)
    requires m < |Survivors(rows, matches)|
    ensures k < |rows| && rows[k] == Survivors(rows, matches)[m] && Survives(rows[k], rows, matches)
  {
    var order := SortDesc(rows, Fusion);
    KeepersAreIndependent(order, matches);
    SortIsSorted(rows, Fusion);
    PermutationMembers(order, rows);
    var s := Survivors(rows, matches)[m];
    assert s in Survivors(rows, matches);
    assert s in order && s in rows;
    k :| 0 <= k < |rows| && rows[k] == s;
  }

  // ----- The in-place implementation, with its lazily filled embedding cache -----

  ghost function SnapshotOf(evidence: seq<Evidence>): (m: map<Evidence, Row>)
    reads evidence
    ensures forall x :: x in evidence ==> x in m && m[x] == x.Snapshot()
    ensures forall x :: x in m ==> x in evidence
  {
    map x | x in evidence :: x.Snapshot()
  }

  ghost function View(m: map<Evidence, Row>, x: Evidence): Row {
    if x in m then m[x] else Row(x.evidenceId, x.subQueryId, x.chunkId, x.fusionScore, None, None, None)
  }

  /** The row has this object's permanent fields. */
  ghost predicate SameRow(x: Evidence, r: Row) {
    x.evidenceId == r.evidenceId && x.subQueryId == r.subQueryId && x.chunkId == r.chunkId
      && x.fusionScore == r.fusionScore
  }

  lemma {:induction false} PermutationKeepsObjects(evidence: seq<Evidence>, order: seq<Evidence>)
    requires multiset(order) == multiset(evidence) && DistinctObjects(evidence)
    ensures DistinctObjects(order)
  {
    ObjectsDiffer(evidence);
    ObjectsDiffer(order);
    PermutationHasNoRepeats(evidence, order);
  }

  /** Object i of the list, with row i, stands somewhere in the order with that same row. */
  ghost predicate Placed(evidence: seq<Evidence>, rows: seq<Row>, order: seq<Evidence>, ranked: seq<Row>) {
    && |rows| == |evidence| && |ranked| == |order|
    && forall i :: 0 <= i < |evidence| ==> StandsIn(evidence[i], rows[i], order, ranked)
  }

  ghost predicate StandsIn(x: Evidence, r: Row, order: seq<Evidence>, ranked: seq<Row>) {
    exists p :: 0 <= p < |order| && p < |ranked| && order[p] == x && ranked[p] == r
  }

  lemma {:induction false} SnapshotsAreRanked(evidence: seq<Evidence>, rows: seq<Row>, order: seq<Evidence>,
                                              ranked: seq<Row>, view: Evidence -> Row)
    requires |rows| == |evidence| && forall i :: 0 <= i < |rows| ==>
      rows[i] == view(evidence[i]) && SameRow(evidence[i], rows[i])
    requires order == SortDesc(evidence, (x: Evidence) => x.fusionScore) && ranked == Map(order, view)
    ensures ranked == SortDesc(rows, Fusion)
  {
    assert rows == Map(evidence, view);
    SortOfMap(evidence, view, (x: Evidence) => x.fusionScore, Fusion);
  }

  lemma {:induction false} RankedObjectsArePlaced(evidence: seq<Evidence>, rows: seq<Row>, order: seq<Evidence>,
                                                  ranked: seq<Row>, view: Evidence -> Row)
    requires |rows| == |evidence| && forall i :: 0 <= i < |rows| ==> rows[i] == view(evidence[i])
    requires multiset(order) == multiset(evidence) && ranked == Map(order, view)
    ensures Placed(evidence, rows, order, ranked)
  {
    forall i | 0 <= i < |evidence| ensures StandsIn(evidence[i], rows[i], order, ranked) {
      assert evidence[i] in multiset(evidence);
      assert evidence[i] in multiset(order);
      var p :| 0 <= p < |order| && order[p] == evidence[i];
      assert ranked[p] == rows[i];
    }
  }

  lemma {:induction false} RankedRowsAreSnapshots(evidence: seq<Evidence>, order: seq<Evidence>, ranked: seq<Row>,
                                                  m: map<Evidence, Row>)
    requires multiset(order) == multiset(evidence) && ranked == Map(order, (x: Evidence) => View(m, x))
    requires forall x :: x in evidence ==> x in m && m[x] == x.Snapshot()
    ensures forall i :: 0 <= i < |order| ==> order[i] in evidence
    ensures ranked == Rows(order) && KeptView(order, ranked)
  {
    forall i | 0 <= i < |order| ensures order[i] in evidence && ranked[i] == order[i].Snapshot() {
      assert order[i] in multiset(order);
      assert order[i] in multiset(evidence);
    }
  }

  /** Sorting the objects and sorting their snapshots give the same ranking. */
  method RankByFusion(evidence: seq<Evidence>) returns (order: seq<Evidence>, ghost ranked: seq<Row>)
    requires DistinctObjects(evidence)
    ensures ranked == SortDesc(Rows(evidence), Fusion) && ranked == Rows(order) && KeptView(order, ranked)
    ensures DistinctObjects(order) && Placed(evidence, Rows(evidence), order, ranked)
    ensures forall i :: 0 <= i < |order| ==> order[i] in evidence
  {
    ghost var m, rows := SnapshotOf(evidence), Rows(evidence);
    ghost var view := (x: Evidence) => View(m, x);
    order := SortDesc(evidence, (x: Evidence) => x.fusionScore);
    ranked := Map(order, view);
    assert multiset(order) == multiset(evidence) by {
      SortIsSorted(evidence, (x: Evidence) => x.fusionScore);
    }
    PermutationKeepsObjects(evidence, order);
    RankedObjectsArePlaced(evidence, rows, order, ranked, view);
    SnapshotsAreRanked(evidence, rows, order, ranked, view);
    RankedRowsAreSnapshots(evidence, order, ranked, m);
  }

  lemma {:induction false} MatchesItself(chunks: map<Id, RetrievedChunk>, threshold: real, e: Embedder, r: Row)
    requires e.Valid() && r.chunkId in chunks
    ensures Matching(chunks, threshold, e)(r, r)
  {
  }

  ghost predicate KeptView(kept: seq<Evidence>, rows: seq<Row>) {
    |rows| == |kept| && forall j :: 0 <= j < |kept| ==> SameRow(kept[j], rows[j])
  }

  lemma {:induction false} KeepersStep(ranked: seq<Row>, n: nat, matches: (Row, Row) -> bool)
    requires n < |ranked|
    ensures var met := Keepers(ranked[..n], matches);
      Keepers(ranked[..n + 1], matches) ==
      if FirstMatch(met, ranked[n], matches).None? then met + [ranked[n]] else met
  {
    assert ranked[..n + 1][..n] == ranked[..n];
  }

  ghost predicate CacheAgrees(cache: seq<Option<Vec>>, kept: seq<Evidence>, chunks: map<Id, RetrievedChunk>,
                              e: Embedder) {
    && |cache| == |kept|
    && (forall j :: 0 <= j < |kept| ==> kept[j].chunkId in chunks)
    && (forall j :: 0 <= j < |kept| && cache[j].Some? ==> cache[j].value == e.embed(chunks[kept[j].chunkId].text))
  }

  lemma {:induction false} KeepAnother(kept: seq<Evidence>, met: seq<Row>, cache: seq<Option<Vec>>, x: Evidence,
                                       r: Row, chunks: map<Id, RetrievedChunk>, e: Embedder)
    requires KeptView(kept, met) && CacheAgrees(cache, kept, chunks, e) && SameRow(x, r) && x.chunkId in chunks
    ensures KeptView(kept + [x], met + [r]) && CacheAgrees(cache + [None], kept + [x], chunks, e)
  {
  }

  /** Looks for the first kept row that x duplicates, filling the cache on the way. */
  method FirstDuplicate(x: Evidence, kept: seq<Evidence>, cache: seq<Option<Vec>>, chunks: map<Id, RetrievedChunk>,
                        threshold: real, e: Embedder, ghost xRow: Row, ghost keptRows: seq<Row>)
    returns (found: Option<nat>, filled: seq<Option<Vec>>)
    requires e.Valid() && CacheAgrees(cache, kept, chunks, e)
    requires x.chunkId in chunks && forall c :: c in chunks ==> chunks[c].chunkId == c
    requires SameRow(x, xRow) && KeptView(kept, keptRows)
    ensures CacheAgrees(filled, kept, chunks, e)
    ensures found == FirstMatch(keptRows, xRow, Matching(chunks, threshold, e))
  {
    ghost var matches := Matching(chunks, threshold, e);
    var chunk := chunks[x.chunkId];
    filled := cache;
    var j := 0;
    while j < |kept|
      invariant 0 <= j <= |kept| && CacheAgrees(filled, kept, chunks, e)
      invariant FirstMatch(keptRows, xRow, matches) == FirstMatch(keptRows, xRow, matches, j)
    {
      var keptChunk := chunks[kept[j].chunkId];
      if chunk.chunkId == keptChunk.chunkId {
        return Some(j), filled;
      }
      if filled[j].None? {
        filled := filled[j := Some(e.embed(keptChunk.text))];
      }
      if Cosine(e.sqrt, e.embed(chunk.text), filled[j].value) > threshold {
        return Some(j), filled;
      }
      j := j + 1;
    }
    found := None;
  }

  /** The objects now hold what deduplicating their earlier rows gives. */
  ghost predicate AreDeduped(evidence: seq<Evidence>, rows: seq<Row>, matches: (Row, Row) -> bool)
    reads evidence
  {
    && |rows| == |evidence|
    && forall i :: 0 <= i < |evidence| ==> evidence[i].Snapshot() == Deduped(rows, matches)[i]
  }

  /** The first n rows of the order carry their verdict, the others are as they came. */
  ghost predicate JudgedUpTo(order: seq<Evidence>, n: nat, ranked: seq<Row>, verdicts: seq<Row>)
    requires |order| == |ranked| == |verdicts|
    reads order
  {
    forall i :: 0 <= i < |order| ==> order[i].Snapshot() == if i < n then verdicts[i] else ranked[i]
  }

  method SetVerdict(order: seq<Evidence>, n: nat, duplicateOf: Option<Id>, ghost ranked: seq<Row>,
                    ghost verdicts: seq<Row>)
    requires |order| == |ranked| == |verdicts| && n < |order| && DistinctObjects(order)
    requires JudgedUpTo(order, n, ranked, verdicts)
    requires verdicts[n] == if duplicateOf.None? then ranked[n] else ranked[n].(duplicateOf := duplicateOf)
    modifies order[n]
    ensures JudgedUpTo(order, n + 1, ranked, verdicts)
  {
    ObjectsDiffer(order);
    assert order[n].Snapshot() == ranked[n];
    if duplicateOf.Some? {
      order[n].duplicateOf := duplicateOf;
    }
  }

  ghost predicate VerdictsOf(ranked: seq<Row>, rows: seq<Row>, matches: (Row, Row) -> bool, verdicts: seq<Row>) {
    && |verdicts| == |ranked|
    && forall i :: 0 <= i < |ranked| ==> verdicts[i] == Judged(ranked[i], Survivors(rows, matches), matches)
  }

  /** Every judged row of the order is the judged row of the input list. */
  lemma {:induction false} VerdictsInPlace(evidence: seq<Evidence>, rows: seq<Row>, order: seq<Evidence>,
                                           ranked: seq<Row>, matches: (Row, Row) -> bool, verdicts: seq<Row>)
    requires Placed(evidence, rows, order, ranked) && VerdictsOf(ranked, rows, matches, verdicts)
    requires JudgedUpTo(order, |order|, ranked, verdicts)
    ensures AreDeduped(evidence, rows, matches)
  {
    forall i | 0 <= i < |evidence|
      ensures evidence[i].Snapshot() == Judged(rows[i], Survivors(rows, matches), matches)
    {
      assert StandsIn(evidence[i], rows[i], order, ranked);
      var p :| 0 <= p < |order| && order[p] == evidence[i] && ranked[p] == rows[i];
    }
  }

  method Dedup(evidence: seq<Evidence>, chunks: map<Id, RetrievedChunk>, threshold: real, e: Embedder)
    requires e.Valid() && DistinctObjects(evidence) && DistinctIds(Rows(evidence))
    requires forall x :: x in evidence ==> x.chunkId in chunks
    requires forall c :: c in chunks ==> chunks[c].chunkId == c
    modifies evidence
    ensures AreDeduped(evidence, old(Rows(evidence)), Matching(chunks, threshold, e))
  {
    ghost var matches := Matching(chunks, threshold, e);
    ghost var rows := Rows(evidence);
    var order; ghost var ranked;
    order, ranked := RankByFusion(evidence);
    ghost var verdicts := Map(ranked, r => Judged(r, Survivors(rows, matches), matches));
    JudgeAll(order, chunks, threshold, e, rows, ranked, verdicts, matches);
    VerdictsInPlace(evidence, rows, order, ranked, matches, verdicts);
  }

  /** The verdict of the next row, and what is kept behind it. */
  lemma {:induction false} VerdictAtItsTurn(rows: seq<Row>, ranked: seq<Row>, n: nat, matches: (Row, Row) -> bool,
                                            met: seq<Row>, verdicts: seq<Row>)
    requires DistinctIds(rows) && ranked == SortDesc(rows, Fusion) && n < |ranked| && matches(ranked[n], ranked[n])
    requires met == Keepers(ranked[..n], matches) && VerdictsOf(ranked, rows, matches, verdicts)
    ensures var first := FirstMatch(met, ranked[n], matches);
      && verdicts[n] == (if first.None? then ranked[n]
        else ranked[n].(duplicateOf := Some(met[first.value].evidenceId)))
      && Keepers(ranked[..n + 1], matches) == if first.None? then met + [ranked[n]] else met
  {
    KeepersStep(ranked, n, matches);
    JudgementAtItsTurn(rows, ranked, n, matches);
  }

  /** The ranked rows and the verdicts that the loop has to come to. */
  ghost predicate Ranking(rows: seq<Row>, ranked: seq<Row>, matches: (Row, Row) -> bool, verdicts: seq<Row>) {
    DistinctIds(rows) && ranked == SortDesc(rows, Fusion) && VerdictsOf(ranked, rows, matches, verdicts)
  }

  /** What the loop has kept of the first n ranked rows, with the embeddings it has cached for them. */
  ghost predicate KeptSoFar(kept: seq<Evidence>, cache: seq<Option<Vec>>, met: seq<Row>, n: nat, ranked: seq<Row>,
                            matches: (Row, Row) -> bool, chunks: map<Id, RetrievedChunk>, e: Embedder)
  {
    && n <= |ranked| && met == Keepers(ranked[..n], matches)
    && CacheAgrees(cache, kept, chunks, e) && KeptView(kept, met)
  }

  /** Which kept row, if any, the n-th ranked one duplicates, the verdict that makes, and what is kept behind it. */
  method JudgeNext(x: Evidence, kept: seq<Evidence>, cache: seq<Option<Vec>>, chunks: map<Id, RetrievedChunk>,
                   threshold: real, e: Embedder, n: nat, ghost rows: seq<Row>, ghost ranked: seq<Row>,
                   ghost verdicts: seq<Row>, ghost matches: (Row, Row) -> bool, ghost met: seq<Row>)
    returns (duplicateOf: Option<Id>, kept': seq<Evidence>, cache': seq<Option<Vec>>, ghost met': seq<Row>)
    requires e.Valid() && x.chunkId in chunks && forall c :: c in chunks ==> chunks[c].chunkId == c
    requires matches == Matching(chunks, threshold, e) && Ranking(rows, ranked, matches, verdicts)
    requires n < |ranked| && SameRow(x, ranked[n]) && KeptSoFar(kept, cache, met, n, ranked, matches, chunks, e)
    ensures KeptSoFar(kept', cache', met', n + 1, ranked, matches, chunks, e)
    ensures verdicts[n] == if duplicateOf.None? then ranked[n] else ranked[n].(duplicateOf := duplicateOf)
  {
    var found, filled := FirstDuplicate(x, kept, cache, chunks, threshold, e, ranked[n], met);
    MatchesItself(chunks, threshold, e, ranked[n]);
    VerdictAtItsTurn(rows, ranked, n, matches, met, verdicts);
    duplicateOf, kept', cache', met' := None, kept, filled, met;
    if found.Some? {
      duplicateOf := Some(kept[found.value].evidenceId);
    } else {
      KeepAnother(kept, met, filled, x, ranked[n], chunks, e);
      kept', cache', met' := kept + [x], filled + [None], met + [ranked[n]];
    }
  }

  /** The loop over the ranked rows. */
  method JudgeAll(order: seq<Evidence>, chunks: map<Id, RetrievedChunk>, threshold: real, e: Embedder,
                  ghost rows: seq<Row>, ghost ranked: seq<Row>, ghost verdicts: seq<Row>,
                  ghost matches: (Row, Row) -> bool)
    requires e.Valid() && DistinctObjects(order) && forall c :: c in chunks ==> chunks[c].chunkId == c
    requires matches == Matching(chunks, threshold, e) && Ranking(rows, ranked, matches, verdicts)
    requires KeptView(order, ranked) && forall i :: 0 <= i < |order| ==> order[i].chunkId in chunks
    requires ranked == Rows(order)
    modifies order
    ensures JudgedUpTo(order, |order|, ranked, verdicts)
  {
    var kept: seq<Evidence>, cache: seq<Option<Vec>> := [], [];
    ghost var met: seq<Row> := [];
    for n := 0 to |order|
      invariant KeptSoFar(kept, cache, met, n, ranked, matches, chunks, e)
      invariant JudgedUpTo(order, n, ranked, verdicts)
    {
      var duplicateOf;
      duplicateOf, kept, cache, met := JudgeNext(order[n], kept, cache, chunks, threshold, e, n, rows, ranked, verdicts,
        matches, met);
      SetVerdict(order, n, duplicateOf, ranked, verdicts);
    }
  }

  lemma {:induction false} JudgementAtItsTurn(rows: seq<Row>, ranked: seq<Row>, n: nat, matches: (Row, Row) -> bool)
    requires DistinctIds(rows) && ranked == SortDesc(rows, Fusion) && n < |ranked| && matches(ranked[n], ranked[n])
    ensures var met := Keepers(ranked[..n], matches);
      var first := FirstMatch(met, ranked[n], matches);
      Judged(ranked[n], Survivors(rows, matches), matches) ==
        if first.None? then ranked[n] else ranked[n].(duplicateOf := Some(met[first.value].evidenceId))
  {
    SortIsSorted(rows, Fusion);
    PermutationMembers(rows, ranked);
    SortKeepsDistinctIds(rows);
    IdsDiffer(ranked);
    assert ranked[n] in rows;
    var met := Keepers(ranked[..n], matches);
    TurnDecides(ranked, n, matches);
    if FirstMatch(met, ranked[n], matches).None? {
      JudgementIsFinal(rows, matches, ranked[n]);
    } else {
      MatchAtItsTurn(ranked, n, matches);
      KeepersAreIndependent(ranked[..n], matches);
      var k := FirstMatch(met, ranked[n], matches).value;
      assert met[k] in ranked[..n];
    }
  }
}
