/** Any number of crashed ingestion attempts, at whatever content the corpus had meanwhile, and the run after them. */
module CrashChains {
  import opened Ingestion

  /** An attempt at some content of the corpus, and where it crashed. */
  datatype Crash = Crash(target: Target, forced: bool, at: Stop)

  /** From each disk to the next one of these attempts crashed. */
  ghost predicate Crashes(disks: seq<Disk>, history: seq<Crash>, corpusId: string) {
    && |disks| == |history| + 1
    && forall i :: 0 <= i < |history| ==> CrashedOn(disks[i], disks[i + 1], history[i], corpusId)
  }

  ghost predicate CrashedOn(d: Disk, d': Disk, c: Crash, corpusId: string) {
    c.target.Valid() && c.target.corpusId == corpusId && Attempt(d, d', c.target, c.forced, Status.Crashed(c.at))
  }

  /** What is left of a corpus: its points with their models, the content its BM25 file holds, and its chunk file. */
  datatype Remains = Remains(points: map<ChunkKey, Model>, indexed: Target, chunkFile: seq<ChunkKey>)

  function Points(t: Target): map<ChunkKey, Model> { map k | k in t.chunks :: t.model }

  /** What an attempt adds to what was left before it. */
  function Behind(r: Remains, t: Target, at: Stop): Remains {
    match at
    case Upserting(n) => if n <= |t.chunks| then r.(points := Put(r.points, t.chunks[..n], t.model)) else r
    case Deleting(removed) => r.(points := Put(r.points, t.chunks, t.model) - removed)
    case BeforeChunkFile => Remains(Points(t), t, r.chunkFile)
    case BeforeManifest => Remains(Points(t), t, t.chunks)
  }

  /** What a history of crashes leaves of a corpus that was in agreement before it. */
  function LeftBy(earlier: Target, history: seq<Crash>): Remains {
    if history == [] then Remains(Points(earlier), earlier, earlier.chunks)
    else
      var last := history[|history| - 1];
      Behind(LeftBy(earlier, history[..|history| - 1]), last.target, last.at)
  }

  function Own(dense: map<ChunkKey, Model>, corpusId: string): map<ChunkKey, Model> {
    map k | k in dense && k.corpusId == corpusId :: dense[k]
  }

  /** The disk holds these remains of the corpus, under the manifest of its last agreement. */
  ghost predicate Holds(d: Disk, r: Remains, earlier: Target) {
    var id := earlier.corpusId;
    && Own(d.dense, id) == r.points && r.indexed.corpusId == id
    && id in d.bm25 && d.bm25[id] == Bm25File(r.indexed.Print(), r.indexed.chunks)
    && id in d.chunkFiles && d.chunkFiles[id] == r.chunkFile
    && id in d.manifests && d.manifests[id] == Manifest(earlier.Print(), |earlier.chunks|)
  }

  lemma {:induction false} AgreementHolds(d: Disk, earlier: Target)
    requires earlier.Valid() && Agrees(d, earlier)
    ensures Holds(d, LeftBy(earlier, []), earlier)
  {
    OfItsCorpus(earlier);
    assert Own(d.dense, earlier.corpusId) == Points(earlier) by {
      forall k: ChunkKey ensures k in Own(d.dense, earlier.corpusId) <==> k in Points(earlier) {
        if k.corpusId == earlier.corpusId { assert k in d.dense <==> k in earlier.chunks; }
      }
    }
  }

  lemma {:induction false} OwnAfterUpserts(dense: map<ChunkKey, Model>, t: Target, n: nat)
    requires t.Valid() && n <= |t.chunks|
    ensures Own(Put(dense, t.chunks[..n], t.model), t.corpusId) ==
      Put(Own(dense, t.corpusId), t.chunks[..n], t.model)
  {
    OfItsCorpus(t);
  }

  lemma {:induction false} OwnAfterDeletions(dense: map<ChunkKey, Model>, t: Target, removed: set<ChunkKey>)
    requires t.Valid()
    ensures Own(Put(dense, t.chunks, t.model) - removed, t.corpusId) ==
      Put(Own(dense, t.corpusId), t.chunks, t.model) - removed
  {
    OfItsCorpus(t);
  }

  lemma {:induction false} OwnAfterIndexing(d: Disk, t: Target)
    requires t.Valid()
    ensures Own(Indexed(d, t).dense, t.corpusId) == Points(t)
  {
    OfItsCorpus(t);
  }

  /** One crash more. */
  lemma {:induction false} CrashLeaves(d: Disk, d': Disk, r: Remains, c: Crash, earlier: Target)
    requires CrashedOn(d, d', c, earlier.corpusId) && Holds(d, r, earlier)
    ensures Holds(d', Behind(r, c.target, c.at), earlier)
  {
    match c.at
    case Upserting(n) => OwnAfterUpserts(d.dense, c.target, n);
    case Deleting(removed) => OwnAfterDeletions(d.dense, c.target, removed);
    case BeforeChunkFile | BeforeManifest => OwnAfterIndexing(d, c.target);
  }

  /** After any history of crashes the disk holds exactly what the history leaves. */
  lemma {:induction false} HistoryLeaves(disks: seq<Disk>, history: seq<Crash>, earlier: Target)
    requires earlier.Valid() && Crashes(disks, history, earlier.corpusId) && Agrees(disks[0], earlier)
    ensures Holds(disks[|history|], LeftBy(earlier, history), earlier)
  {
    if history == [] {
      AgreementHolds(disks[0], earlier);
    } else {
      var n := |history| - 1;
      HistoryLeaves(disks[..n + 1], history[..n], earlier);
      assert CrashedOn(disks[n], disks[n + 1], history[n], earlier.corpusId);
      CrashLeaves(disks[n], disks[n + 1], LeftBy(earlier, history[..n]), history[n], earlier);
    }
  }

  /**
    * What the check overlooks: the content is back to that of the last agreement, the BM25 file holds it and the points
    * are as many, but they are not its points by its model, or the chunk file holds other content.
    */
  predicate Overlooked(r: Remains, earlier: Target, t: Target) {
    t == earlier == r.indexed && |r.points| == |t.chunks| && (r.points != Points(t) || r.chunkFile != t.chunks)
  }

  lemma {:induction false} OwnPoints(dense: map<ChunkKey, Model>, corpusId: string)
    ensures PointIds(dense, corpusId) == Own(dense, corpusId).Keys
    ensures |PointIds(dense, corpusId)| == |Own(dense, corpusId)|
  {
    assert PointIds(dense, corpusId) == Own(dense, corpusId).Keys;
  }

  lemma {:induction false} CheckSees(d: Disk, r: Remains, earlier: Target, t: Target)
    requires Holds(d, r, earlier) && t.corpusId == earlier.corpusId
    ensures UpToDate(d, t) <==> t == earlier == r.indexed && |r.points| == |t.chunks|
  {
    OwnPoints(d.dense, t.corpusId);
    assert t.Print() == earlier.Print() <==> t == earlier;
    assert t.Print() == r.indexed.Print() <==> t == r.indexed;
  }

  lemma {:induction false} AgreesWhen(d: Disk, r: Remains, earlier: Target)
    requires earlier.Valid() && Holds(d, r, earlier) && r.indexed == earlier
    ensures Agrees(d, earlier) <==> r.points == Points(earlier) && r.chunkFile == earlier.chunks
  {
    OfItsCorpus(earlier);
    var own := Own(d.dense, earlier.corpusId);
    assert forall k: ChunkKey :: k.corpusId == earlier.corpusId ==> (k in own <==> k in d.dense);
    if DenseHolds(d.dense, earlier) {
      assert own == Points(earlier);
    }
    if own == Points(earlier) {
      forall k: ChunkKey | k.corpusId == earlier.corpusId
        ensures (k in d.dense <==> k in earlier.chunks) && (k in d.dense ==> d.dense[k] == earlier.model)
      {
        assert k in own <==> k in Points(earlier);
      }
    }
  }

  /**
    * From any disk that agrees on the corpus, through any history of crashed attempts at any content, a completed run
    * brings all stores into agreement exactly when it was forced or the check does not overlook what the history left.
    */
  lemma {:induction false} CompletedRunAgreesExactly(disks: seq<Disk>, history: seq<Crash>, earlier: Target, t: Target,
                                                     d: Disk, force: bool, status: Status)
    requires earlier.Valid() && t.Valid() && t.corpusId == earlier.corpusId
    requires Crashes(disks, history, earlier.corpusId) && Agrees(disks[0], earlier)
    requires Attempt(disks[|history|], d, t, force, status) && (status.Unchanged? || status.Ingested?)
    ensures Agrees(d, t) <==> force || !Overlooked(LeftBy(earlier, history), earlier, t)
  {
    var before, r := disks[|history|], LeftBy(earlier, history);
    HistoryLeaves(disks, history, earlier);
    CheckSees(before, r, earlier, t);
    SettledAgrees(before, t);
    if UpToDate(before, t) {
      AgreesWhen(before, r, earlier);
    }
  }

  /**
    * A replacement crashed before its manifest, and the return to the earlier content crashed before its chunk file:
    * no point is wrong any more, and the chunk file keeps the replacement's chunks for good.
    */
  lemma {:induction false} ACrashedRevertCanMislead(earlier: Target, other: Target)
    requires earlier.Valid() && other.Valid() && earlier.corpusId == other.corpusId && earlier.chunks != other.chunks
    ensures var d0 := Settled(BLANK, earlier);
      var d1 := StoppedAt(d0, other, BeforeManifest);
      var d2 := StoppedAt(d1, earlier, BeforeChunkFile);
      && Agrees(d0, earlier) && Attempt(d0, d1, other, false, Status.Crashed(BeforeManifest))
      && Attempt(d1, d2, earlier, false, Status.Crashed(BeforeChunkFile))
      && Attempt(d2, d2, earlier, false, Unchanged)
      && d2.chunkFiles[earlier.corpusId] == other.chunks && !Agrees(d2, earlier)
  {
    var d0 := Settled(BLANK, earlier);
    var d1 := StoppedAt(d0, other, BeforeManifest);
    var d2 := StoppedAt(d1, earlier, BeforeChunkFile);
    SettledAgrees(BLANK, earlier);
    var first, second := Crash(other, false, BeforeManifest), Crash(earlier, false, BeforeChunkFile);
    var r := LeftBy(earlier, []);
    AgreementHolds(d0, earlier);
    CheckSees(d0, r, earlier, other);
    CrashLeaves(d0, d1, r, first, earlier);
    var r1 := Behind(r, other, BeforeManifest);
    CheckSees(d1, r1, earlier, earlier);
    CrashLeaves(d1, d2, r1, second, earlier);
    var r2 := Behind(r1, earlier, BeforeChunkFile);
    OwnCount(earlier);
    CheckSees(d2, r2, earlier, earlier);
    AgreesWhen(d2, r2, earlier);
  }

  lemma {:induction false} OwnCount(t: Target)
    requires t.Valid()
    ensures |Points(t)| == |t.chunks|
  {
    DistinctCount(t.chunks);
    assert Points(t).Keys == set c | c in t.chunks;
  }
}
