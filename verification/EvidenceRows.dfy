/** Evidence rows and the retrieved chunks they point at. */
module EvidenceRows {
  import opened Options

  /** Generated identifiers: only their equality matters. */
  type Id = nat

  datatype RetrievedChunk = RetrievedChunk(chunkId: Id, docId: string, section: string, text: string, tokenCount: nat)

  /** The fields of an evidence row at one moment. */
  datatype Row = Row(
    evidenceId: Id, subQueryId: Id, chunkId: Id, fusionScore: real,
    rerankScore: Option<real>, duplicateOf: Option<Id>, pairId: Option<Id>)
  {
    /** `e.rerank_score or 0.0` */
    function Score(): real { rerankScore.GetOr(0.0) }
  }

  /** An evidence row as the pipeline passes it around: three of its fields are set in place by later stages. */
  class Evidence {
    const evidenceId: Id
    const subQueryId: Id
    const chunkId: Id
    const fusionScore: real
    var rerankScore: Option<real>
    var duplicateOf: Option<Id>
    var pairId: Option<Id>

    constructor (evidenceId: Id, subQueryId: Id, chunkId: Id, fusionScore: real)
      ensures Snapshot() == Row(evidenceId, subQueryId, chunkId, fusionScore, None, None, None)
    {
      this.evidenceId, this.subQueryId, this.chunkId, this.fusionScore := evidenceId, subQueryId, chunkId, fusionScore;
      rerankScore, duplicateOf, pairId := None, None, None;
    }

    function Snapshot(): Row
      reads this
    {
      Row(evidenceId, subQueryId, chunkId, fusionScore, rerankScore, duplicateOf, pairId)
    }
  }

  function Rows(evidence: seq<Evidence>): (rows: seq<Row>)
    reads evidence
    ensures |rows| == |evidence|
    ensures forall i :: 0 <= i < |rows| ==> rows[i] == evidence[i].Snapshot()
  {
    if evidence == [] then [] else [evidence[0].Snapshot()] + Rows(evidence[1..])
  }

  /** No two rows carry one evidence id. Stated recursively; IdsDiffer gives it pair by pair. */
  ghost predicate DistinctIds(rows: seq<Row>) {
    rows == [] || (FreshIn(rows[0].evidenceId, rows[1..]) && DistinctIds(rows[1..]))
  }

  ghost predicate FreshIn(id: Id, rows: seq<Row>) {
    forall i :: 0 <= i < |rows| ==> rows[i].evidenceId != id
  }

  lemma {:induction false} IdsDiffer(rows: seq<Row>)
    ensures DistinctIds(rows) <==> forall i, j :: 0 <= i < j < |rows| ==> rows[i].evidenceId != rows[j].evidenceId
  {
    if rows != [] {
      var rest := rows[1..];
      IdsDiffer(rest);
      if forall i, j :: 0 <= i < j < |rows| ==> rows[i].evidenceId != rows[j].evidenceId {
        assert forall j :: 0 <= j < |rest| ==> rest[j] == rows[j + 1];
      }
      if DistinctIds(rows) {
        assert forall j :: 0 < j < |rows| ==> rows[j] == rest[j - 1];
      }
    }
  }

  /** No object stands in the list twice. */
  ghost predicate DistinctObjects(evidence: seq<Evidence>) {
    evidence == [] || (evidence[0] !in evidence[1..] && DistinctObjects(evidence[1..]))
  }

  lemma {:induction false} ObjectsDiffer(evidence: seq<Evidence>)
    ensures DistinctObjects(evidence) <==> forall i, j :: 0 <= i < j < |evidence| ==> evidence[i] != evidence[j]
  {
    if evidence != [] {
      var rest := evidence[1..];
      ObjectsDiffer(rest);
      if forall i, j :: 0 <= i < j < |evidence| ==> evidence[i] != evidence[j] {
        assert forall j :: 0 <= j < |rest| ==> rest[j] == evidence[j + 1];
      }
      if DistinctObjects(evidence) {
        assert forall j :: 0 < j < |evidence| ==> evidence[j] == rest[j - 1];
      }
    }
  }

  /** Every row's chunk is on record, under its own id. */
  ghost predicate Resolved(rows: seq<Row>, chunks: map<Id, RetrievedChunk>) {
    && (forall i :: 0 <= i < |rows| ==> rows[i].chunkId in chunks)
    && (forall c :: c in chunks ==> chunks[c].chunkId == c)
  }
}
