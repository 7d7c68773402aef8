/** Ingesting a corpus into its four stores, with a crash possible between any two writes (ingest_corpus). */
module Ingestion {
  import opened Options

  /**
    * What a chunk's id is the hash of. The hash, a version 5 UUID in the sense of section 5.5 of RFC 9562, is taken to
    * be injective, so the name stands for the id; the rest of a chunk's record is computed from it.
    */
  datatype ChunkKey = ChunkKey(corpusId: string, docId: string, section: string, index: nat, text: string)

  type Model = string

  /** The hashed content of a fingerprint, for the same reason. */
  datatype Fingerprint = Fingerprint(model: Model, chunkIds: seq<ChunkKey>)

  datatype Bm25File = Bm25File(fingerprint: Fingerprint, records: seq<ChunkKey>)

  datatype Manifest = Manifest(fingerprint: Fingerprint, chunkCount: nat)

  /** Vector points by id, each with the model that embedded it, and the three files of every corpus. */
  datatype Disk = Disk(
    dense: map<ChunkKey, Model>, bm25: map<string, Bm25File>, chunkFiles: map<string, seq<ChunkKey>>,
      manifests: map<string, Manifest>)

  /** What an attempt is to bring about: a corpus's chunks as they are now, embedded by the current model. */
  datatype Target = Target(corpusId: string, chunks: seq<ChunkKey>, model: Model) {
    function Print(): Fingerprint { Fingerprint(model, chunks) }

    ghost predicate Valid() {
      && (forall i :: 0 <= i < |chunks| ==> chunks[i].corpusId == corpusId)
      && (forall i, j :: 0 <= i < j < |chunks| ==> chunks[i] != chunks[j])
    }
  }

  const BATCH_SIZE := 128

  // ----- Specification -----

  function Put(dense: map<ChunkKey, Model>, chunks: seq<ChunkKey>, model: Model): map<ChunkKey, Model> {
    map k | k in dense.Keys + (set c | c in chunks) :: if k in chunks then model else dense[k]
  }

  function PointIds(dense: map<ChunkKey, Model>, corpusId: string): set<ChunkKey> {
    set k | k in dense && k.corpusId == corpusId
  }

  function Stale(dense: map<ChunkKey, Model>, t: Target): set<ChunkKey> {
    set k | k in dense && k.corpusId == t.corpusId && k !in t.chunks
  }

  /** _is_up_to_date: fingerprints and counts, but only the number of points. */
  predicate UpToDate(d: Disk, t: Target) {
    && t.corpusId in d.manifests && d.manifests[t.corpusId] == Manifest(t.Print(), |t.chunks|)
    && t.corpusId in d.bm25 && d.bm25[t.corpusId].fingerprint == t.Print() && |d.bm25[t.corpusId].records| == |t.chunks|
    && |PointIds(d.dense, t.corpusId)| == |t.chunks|
  }

  /** Where an attempt can stop: within the upserts, within the deletions, or before one of the later files. */
  datatype Stop = Upserting(n: nat) | Deleting(removed: set<ChunkKey>) | BeforeChunkFile | BeforeManifest

  ghost predicate CanStop(d: Disk, t: Target, at: Stop) {
    match at
    case Upserting(n) => n <= |t.chunks|
    case Deleting(removed) => removed <= Stale(d.dense, t)
    case BeforeChunkFile | BeforeManifest => true
  }

  ghost function StoppedAt(d: Disk, t: Target, at: Stop): Disk
    requires CanStop(d, t, at)
  {
    match at
    case Upserting(n) => d.(dense := Put(d.dense, t.chunks[..n], t.model))
    case Deleting(removed) => d.(dense := Put(d.dense, t.chunks, t.model) - removed)
    case BeforeChunkFile => Indexed(d, t)
    case BeforeManifest => Indexed(d, t).(chunkFiles := d.chunkFiles[t.corpusId := t.chunks])
  }

  /** Points and BM25 file written. */
  ghost function Indexed(d: Disk, t: Target): Disk {
    d.(dense := Put(d.dense, t.chunks, t.model) - Stale(d.dense, t),
       bm25 := d.bm25[t.corpusId := Bm25File(t.Print(), t.chunks)])
  }

  /** Everything written. */
  ghost function Settled(d: Disk, t: Target): Disk {
    Indexed(d, t).(chunkFiles := d.chunkFiles[t.corpusId := t.chunks],
                   manifests := d.manifests[t.corpusId := Manifest(t.Print(), |t.chunks|)])
  }

  datatype Status = Refused | Unchanged | Ingested(stalePointsDeleted: nat) | Crashed(at: Stop)

  /** One attempt, from one disk to the next. */
  ghost predicate Attempt(d: Disk, d': Disk, t: Target, force: bool, status: Status) {
    match status
    case Refused => d' == d
    case Unchanged => !force && UpToDate(d, t) && d' == d
    case Ingested(stale) => (force || !UpToDate(d, t)) && d' == Settled(d, t) && stale == |Stale(d.dense, t)|
    case Crashed(at) => (force || !UpToDate(d, t)) && CanStop(d, t, at) && d' == StoppedAt(d, t, at)
  }

  /** All four stores hold exactly the target. */
  ghost predicate Agrees(d: Disk, t: Target) {
    && DenseHolds(d.dense, t)
    && t.corpusId in d.bm25 && d.bm25[t.corpusId] == Bm25File(t.Print(), t.chunks)
    && t.corpusId in d.chunkFiles && d.chunkFiles[t.corpusId] == t.chunks
    && t.corpusId in d.manifests && d.manifests[t.corpusId] == Manifest(t.Print(), |t.chunks|)
  }

  ghost predicate DenseHolds(dense: map<ChunkKey, Model>, t: Target) {
    forall k: ChunkKey :: k.corpusId == t.corpusId ==>
      (k in dense <==> k in t.chunks) && (k in dense ==> dense[k] == t.model)
  }

  // ----- A completed full run always agrees -----

  lemma {:induction false} SettledAgrees(d: Disk, t: Target)
    requires t.Valid()
    ensures Agrees(Settled(d, t), t)
  {
    forall k: ChunkKey | k.corpusId == t.corpusId
      ensures (k in Settled(d, t).dense <==> k in t.chunks)
        && (k in Settled(d, t).dense ==> Settled(d, t).dense[k] == t.model)
    {
    }
  }

  lemma {:induction false} DistinctCount(chunks: seq<ChunkKey>)
    requires forall i, j :: 0 <= i < j < |chunks| ==> chunks[i] != chunks[j]
    ensures |set c | c in chunks| == |chunks|
  {
    if chunks != [] {
      var before, last := chunks[..|chunks| - 1], chunks[|chunks| - 1];
      DistinctCount(before);
      assert (set c | c in chunks) == (set c | c in before) + {last};
    } else {
      assert (set c | c in chunks) == {};
    }
  }

  /** Agreement is noticed: an immediate re-run has nothing to do. */
  lemma {:induction false} AgreeingIsUpToDate(d: Disk, t: Target)
    requires t.Valid() && Agrees(d, t)
    ensures UpToDate(d, t)
  {
    DistinctCount(t.chunks);
    assert PointIds(d.dense, t.corpusId) == set c | c in t.chunks by {
      assert forall i :: 0 <= i < |t.chunks| ==> t.chunks[i].corpusId == t.corpusId;
    }
  }

  /**
    * After a completed attempt on an agreeing disk, an unforced attempt changes nothing and says so, and a forced one
    * reproduces the disk.
    */
  lemma {:induction false} ReRunsAreIdempotent(d: Disk, d': Disk, t: Target, force: bool, status: Status)
    requires t.Valid() && Agrees(d, t) && Attempt(d, d', t, force, status)
    ensures d' == d
    ensures !force ==> status == Unchanged || status == Refused
    ensures status.Ingested? ==> status.stalePointsDeleted == 0
  {
    AgreeingIsUpToDate(d, t);
    assert Stale(d.dense, t) == {};
    assert forall n :: 0 <= n <= |t.chunks| ==> Put(d.dense, t.chunks[..n], t.model) == d.dense by {
      forall n | 0 <= n <= |t.chunks| ensures Put(d.dense, t.chunks[..n], t.model) == d.dense {
        PutAgain(d.dense, t, n);
      }
    }
    PutAgain(d.dense, t, |t.chunks|);
    assert t.chunks[..|t.chunks|] == t.chunks;
    assert d.dense - {} == d.dense;
    assert d.bm25[t.corpusId := Bm25File(t.Print(), t.chunks)] == d.bm25;
    assert d.chunkFiles[t.corpusId := t.chunks] == d.chunkFiles;
    assert d.manifests[t.corpusId := Manifest(t.Print(), |t.chunks|)] == d.manifests;
  }

  lemma {:induction false} PutAgain(dense: map<ChunkKey, Model>, t: Target, n: nat)
    requires t.Valid() && DenseHolds(dense, t) && n <= |t.chunks|
    ensures Put(dense, t.chunks[..n], t.model) == dense
  {
    forall k | k in t.chunks[..n] ensures k in dense && dense[k] == t.model {
      assert k in t.chunks && k.corpusId == t.corpusId;
    }
  }

  // ----- Crashes and retries -----

  /** The manifest does not yet name the target, or everything is in place. */
  ghost predicate Recoverable(d: Disk, t: Target) {
    (t.corpusId in d.manifests ==> d.manifests[t.corpusId].fingerprint != t.Print()) || Agrees(d, t)
  }

  /** Any disk that agrees on some earlier content of the corpus, or knows nothing of it, is recoverable. */
  lemma {:induction false} AgreeingOrEmptyIsRecoverable(d: Disk, t: Target, earlier: Target)
    requires t.corpusId !in d.manifests || (earlier.corpusId == t.corpusId && Agrees(d, earlier))
    ensures Recoverable(d, t)
  {
    if t.corpusId in d.manifests && earlier.Print() == t.Print() {
      assert earlier == t;
    }
  }

  /** Whatever becomes of an attempt, the disk stays recoverable; and if it completes, all stores agree. */
  lemma {:induction false} AttemptRecovers(d: Disk, d': Disk, t: Target, force: bool, status: Status)
    requires t.Valid() && Recoverable(d, t) && Attempt(d, d', t, force, status)
    ensures Recoverable(d', t)
    ensures status.Unchanged? || status.Ingested? ==> Agrees(d', t)
  {
    if Agrees(d, t) {
      ReRunsAreIdempotent(d, d', t, force, status);
    } else if status.Ingested? {
      SettledAgrees(d, t);
    }
  }

  /** A chain of attempts at one target. */
  ghost predicate Chain(disks: seq<Disk>, t: Target, forces: seq<bool>, statuses: seq<Status>) {
    && |disks| == |forces| + 1 && |statuses| == |forces|
    && forall i :: 0 <= i < |forces| ==> Attempt(disks[i], disks[i + 1], t, forces[i], statuses[i])
  }

  lemma {:induction false} ChainStaysRecoverable(disks: seq<Disk>, t: Target, forces: seq<bool>, statuses: seq<Status>,
                                                 n: nat)
    requires t.Valid() && Chain(disks, t, forces, statuses) && Recoverable(disks[0], t) && n <= |forces|
    ensures Recoverable(disks[n], t)
  {
    if n > 0 {
      ChainStaysRecoverable(disks, t, forces, statuses, n - 1);
      AttemptRecovers(disks[n - 1], disks[n], t, forces[n - 1], statuses[n - 1]);
    }
  }

  /** Any number of attempts, crashed wherever, followed by one that completes: the four stores agree on the target. */
  lemma {:induction false} RetriesRecover(disks: seq<Disk>, t: Target, forces: seq<bool>, statuses: seq<Status>,
                                          earlier: Target)
    requires t.Valid() && Chain(disks, t, forces, statuses) && forces != []
    requires t.corpusId !in disks[0].manifests || (earlier.corpusId == t.corpusId && Agrees(disks[0], earlier))
    requires statuses[|statuses| - 1].Unchanged? || statuses[|statuses| - 1].Ingested?
    ensures Agrees(disks[|forces|], t)
  {
    var n := |forces| - 1;
    AgreeingOrEmptyIsRecoverable(disks[0], t, earlier);
    ChainStaysRecoverable(disks, t, forces, statuses, n);
    AttemptRecovers(disks[n], disks[n + 1], t, forces[n], statuses[n]);
  }

  ghost predicate SamePoints(a: map<ChunkKey, Model>, b: map<ChunkKey, Model>, corpusId: string) {
    forall k: ChunkKey :: k.corpusId != corpusId ==> (k in a <==> k in b) && (k in a ==> a[k] == b[k])
  }

  ghost predicate SameFiles<T>(a: map<string, T>, b: map<string, T>, corpusId: string) {
    forall c :: c != corpusId ==> (c in a <==> c in b) && (c in a ==> a[c] == b[c])
  }

  /** What one corpus's attempt leaves alone. */
  ghost predicate SameElsewhere(d: Disk, d': Disk, corpusId: string) {
    && SamePoints(d.dense, d'.dense, corpusId) && SameFiles(d.bm25, d'.bm25, corpusId)
    && SameFiles(d.chunkFiles, d'.chunkFiles, corpusId) && SameFiles(d.manifests, d'.manifests, corpusId)
  }

  lemma {:induction false} PutElsewhere(dense: map<ChunkKey, Model>, t: Target, n: nat)
    requires t.Valid() && n <= |t.chunks|
    ensures SamePoints(dense, Put(dense, t.chunks[..n], t.model), t.corpusId)
  {
    forall k | k in t.chunks[..n] ensures k.corpusId == t.corpusId {
      var i :| 0 <= i < n && t.chunks[..n][i] == k;
      assert t.chunks[i] == k;
    }
  }

  lemma {:induction false} PutAndRemoveElsewhere(dense: map<ChunkKey, Model>, t: Target, removed: set<ChunkKey>)
    requires t.Valid() && removed <= Stale(dense, t)
    ensures SamePoints(dense, Put(dense, t.chunks, t.model) - removed, t.corpusId)
  {
    PutElsewhere(dense, t, |t.chunks|);
    assert t.chunks[..|t.chunks|] == t.chunks;
  }

  lemma {:induction false} IndexedElsewhere(d: Disk, t: Target)
    requires t.Valid()
    ensures SameElsewhere(d, Indexed(d, t), t.corpusId)
  {
    PutAndRemoveElsewhere(d.dense, t, Stale(d.dense, t));
  }

  /** No attempt, completed or crashed, touches another corpus. */
  lemma {:induction false} OtherCorporaAreUntouched(d: Disk, d': Disk, t: Target, force: bool, status: Status)
    requires t.Valid() && Attempt(d, d', t, force, status)
    ensures SameElsewhere(d, d', t.corpusId)
  {
    match status
    case Refused | Unchanged =>
    case Ingested(_) | Crashed(BeforeChunkFile) | Crashed(BeforeManifest) => IndexedElsewhere(d, t);
    case Crashed(Upserting(n)) => PutElsewhere(d.dense, t, n);
    case Crashed(Deleting(removed)) => PutAndRemoveElsewhere(d.dense, t, removed);
  }

  // ----- The exact reach of the up-to-date check -----

  /** The chunks as a set. */
  function ChunkSet(chunks: seq<ChunkKey>): set<ChunkKey> { set c | c in chunks }

  /** The points an attempt at t has upserted, and those it has deleted, by the time it stops there. */
  function UpsertedBy(t: Target, at: Stop): set<ChunkKey> {
    match at
    case Upserting(n) => if n <= |t.chunks| then ChunkSet(t.chunks[..n]) else {}
    case Deleting(_) | BeforeChunkFile | BeforeManifest => ChunkSet(t.chunks)
  }

  function DeletedBy(at: Stop): set<ChunkKey> {
    if at.Deleting? then at.removed else {}
  }

  /**
    * What an attempt at `other`, crashed at `at` on a disk that agreed on `earlier`, leaves for an attempt at t to
    * overlook: t is what the disk agreed on, no file was reached, as many new points came as old ones went, and a point
    * was replaced or embedded anew by another model.
    */
  ghost predicate SlipsThrough(earlier: Target, other: Target, at: Stop, t: Target) {
    var added := UpsertedBy(other, at) - ChunkSet(earlier.chunks);
    && t == earlier && (at.Upserting? || at.Deleting?) && |added| == |DeletedBy(at)|
    && (added != {} || (other.model != earlier.model && UpsertedBy(other, at) * ChunkSet(earlier.chunks) != {}))
  }

  /** The points of the corpus after such a crash: those that were there, more the upserted, less the deleted. */
  lemma {:induction false} PointsAfterACrash(d: Disk, earlier: Target, other: Target, at: Stop)
    requires earlier.Valid() && other.Valid() && earlier.corpusId == other.corpusId && Agrees(d, earlier)
    requires CanStop(d, other, at) && (at.Upserting? || at.Deleting?)
    ensures PointIds(StoppedAt(d, other, at).dense, other.corpusId) ==
      ChunkSet(earlier.chunks) + UpsertedBy(other, at) - DeletedBy(at)
    ensures DeletedBy(at) <= ChunkSet(earlier.chunks) - UpsertedBy(other, at)
  {
    var points := PointIds(StoppedAt(d, other, at).dense, other.corpusId);
    OfItsCorpus(earlier);
    OfItsCorpus(other);
    forall k: ChunkKey | k.corpusId == other.corpusId
      ensures k in points <==> k in ChunkSet(earlier.chunks) + UpsertedBy(other, at) - DeletedBy(at)
    {
      assert k in d.dense <==> k in earlier.chunks;
    }
    forall k | k in DeletedBy(at) ensures k in ChunkSet(earlier.chunks) - UpsertedBy(other, at) {
      assert k in Stale(d.dense, other) && k.corpusId == earlier.corpusId;
    }
  }

  lemma {:induction false} OfItsCorpus(t: Target)
    requires t.Valid()
    ensures forall k :: k in t.chunks ==> k.corpusId == t.corpusId
    ensures forall n, k :: 0 <= n <= |t.chunks| && k in t.chunks[..n] ==> k in t.chunks
  {
  }

  lemma {:induction false} CountAfterACrash(old': set<ChunkKey>, upserted: set<ChunkKey>, deleted: set<ChunkKey>)
    requires deleted <= old' - upserted
    ensures |old' + upserted - deleted| == |old'| + |upserted - old'| - |deleted|
  {
    assert old' + upserted - deleted == (old' - deleted) + (upserted - old');
    assert (old' - deleted) !! (upserted - old');
    assert |old' - deleted| == |old'| - |deleted|;
  }

  /** Each file still holds what it held, so the check sees a changed number of points at most. */
  lemma {:induction false} OnlyTheCountIsSeen(d: Disk, earlier: Target, other: Target, at: Stop, t: Target)
    requires earlier.Valid() && other.Valid() && earlier.corpusId == other.corpusId == t.corpusId && Agrees(d, earlier)
    requires CanStop(d, other, at) && (at.Upserting? || at.Deleting?)
    ensures UpToDate(StoppedAt(d, other, at), t) <==>
      t == earlier && |UpsertedBy(other, at) - ChunkSet(earlier.chunks)| == |DeletedBy(at)|
  {
    PointsAfterACrash(d, earlier, other, at);
    CountAfterACrash(ChunkSet(earlier.chunks), UpsertedBy(other, at), DeletedBy(at));
    DistinctCount(earlier.chunks);
    if UpToDate(StoppedAt(d, other, at), t) {
      assert t.Print() == earlier.Print();
    }
  }

  /** With as many points as before, the crash has left them as they were unless one was replaced or embedded anew. */
  lemma {:induction false} UnlessReplacedOrEmbeddedAnew(d: Disk, earlier: Target, other: Target, at: Stop)
    requires earlier.Valid() && other.Valid() && earlier.corpusId == other.corpusId && Agrees(d, earlier)
    requires CanStop(d, other, at) && (at.Upserting? || at.Deleting?)
    requires |UpsertedBy(other, at) - ChunkSet(earlier.chunks)| == |DeletedBy(at)|
    ensures Agrees(StoppedAt(d, other, at), earlier) <==> !SlipsThrough(earlier, other, at, earlier)
  {
    if UpsertedBy(other, at) - ChunkSet(earlier.chunks) != {} {
      ANewPointDisagrees(d, earlier, other, at);
    } else {
      NothingOutside(UpsertedBy(other, at), ChunkSet(earlier.chunks));
      assert DeletedBy(at) == {};
      OnlyTheModelCanDiffer(d, earlier, other, at);
    }
  }

  lemma {:induction false} NothingOutside<T>(a: set<T>, b: set<T>)
    requires a - b == {}
    ensures a <= b && a * b == a
  {
    assert forall x :: x in a ==> x !in a - b;
  }

  lemma {:induction false} ANewPointDisagrees(d: Disk, earlier: Target, other: Target, at: Stop)
    requires earlier.Valid() && other.Valid() && earlier.corpusId == other.corpusId && Agrees(d, earlier)
    requires CanStop(d, other, at) && (at.Upserting? || at.Deleting?)
    requires UpsertedBy(other, at) - ChunkSet(earlier.chunks) != {}
    ensures !Agrees(StoppedAt(d, other, at), earlier)
  {
    PointsAfterACrash(d, earlier, other, at);
    var k :| k in UpsertedBy(other, at) - ChunkSet(earlier.chunks);
    assert k in PointIds(StoppedAt(d, other, at).dense, other.corpusId) && k !in earlier.chunks;
  }

  lemma {:induction false} OnlyTheModelCanDiffer(d: Disk, earlier: Target, other: Target, at: Stop)
    requires earlier.Valid() && other.Valid() && earlier.corpusId == other.corpusId && Agrees(d, earlier)
    requires CanStop(d, other, at) && (at.Upserting? || at.Deleting?) && DeletedBy(at) == {}
    requires UpsertedBy(other, at) <= ChunkSet(earlier.chunks)
    ensures Agrees(StoppedAt(d, other, at), earlier) <==> other.model == earlier.model || UpsertedBy(other, at) == {}
  {
    var dense, upserted := StoppedAt(d, other, at).dense, UpsertedBy(other, at);
    WrittenPoints(d, other, at);
    OfItsCorpus(earlier);
    if upserted != {} {
      var k :| k in upserted;
      assert k in earlier.chunks && k.corpusId == earlier.corpusId && dense[k] == other.model;
    }
    assert forall k :: k in upserted ==> k in earlier.chunks;
    assert other.model == earlier.model || upserted == {} ==> DenseHolds(dense, earlier);
  }

  lemma {:induction false} WrittenPoints(d: Disk, other: Target, at: Stop)
    requires CanStop(d, other, at) && (at.Upserting? || at.Deleting?) && DeletedBy(at) == {}
    ensures var dense := StoppedAt(d, other, at).dense;
      forall k :: (k in dense <==> k in d.dense || k in UpsertedBy(other, at))
        && (k in dense ==> dense[k] == if k in UpsertedBy(other, at) then other.model else d.dense[k])
  {
  }

  /** Once the BM25 file is written, the check notices, unless nothing was to be changed in the first place. */
  lemma {:induction false} FilesAreNoticed(d: Disk, earlier: Target, other: Target, at: Stop, t: Target)
    requires earlier.Valid() && other.Valid() && earlier.corpusId == other.corpusId == t.corpusId && Agrees(d, earlier)
    requires at.BeforeChunkFile? || at.BeforeManifest?
    ensures UpToDate(StoppedAt(d, other, at), t) ==> Agrees(StoppedAt(d, other, at), t)
  {
    if UpToDate(StoppedAt(d, other, at), t) {
      assert t.Print() == other.Print() && t.Print() == earlier.Print();
      assert t == other == earlier;
      SettledAgrees(d, t);
      assert StoppedAt(d, other, at).dense == Settled(d, t).dense;
    }
  }

  /**
    * From any disk that agrees on the corpus, through an attempt at other content crashed anywhere, a completed run
    * brings all stores into agreement exactly when it was forced or the crash did not slip through.
    */
  lemma {:induction false} CompletedRunAgreesExactlyUnless(d: Disk, d': Disk, d'': Disk, earlier: Target,
                                                           other: Target, t: Target, at: Stop, forced: bool,
                                                           force: bool, status: Status)
    requires earlier.Valid() && other.Valid() && t.Valid() && earlier.corpusId == other.corpusId == t.corpusId
    requires Agrees(d, earlier) && Attempt(d, d', other, forced, Crashed(at))
    requires Attempt(d', d'', t, force, status) && (status.Unchanged? || status.Ingested?)
    ensures Agrees(d'', t) <==> force || !SlipsThrough(earlier, other, at, t)
  {
    SettledAgrees(d', t);
    if at.Upserting? || at.Deleting? {
      OnlyTheCountIsSeen(d, earlier, other, at, t);
      if UpToDate(d', t) {
        UnlessReplacedOrEmbeddedAnew(d, earlier, other, at);
      }
    } else {
      FilesAreNoticed(d, earlier, other, at, t);
    }
  }

  const BLANK: Disk := Disk(map[], map[], map[], map[])

  /**
    * A run that reports no change on a disk that does not agree: a full run on an empty disk, a crashed attempt at
    * other content, and the attempt that should bring the earlier content back.
    */
  ghost predicate GoesUnnoticed(earlier: Target, other: Target, at: Stop) {
    var d := Settled(BLANK, earlier);
    && CanStop(d, other, at) && Agrees(d, earlier)
    && Attempt(d, StoppedAt(d, other, at), other, false, Crashed(at))
    && Attempt(StoppedAt(d, other, at), StoppedAt(d, other, at), earlier, false, Unchanged)
    && !Agrees(StoppedAt(d, other, at), earlier)
  }

  /** Whatever slips through does go unnoticed in such a run. */
  lemma {:induction false} SlippingGoesUnnoticed(earlier: Target, other: Target, at: Stop)
    requires earlier.Valid() && other.Valid() && earlier.corpusId == other.corpusId && earlier.Print() != other.Print()
    requires CanStop(Settled(BLANK, earlier), other, at) && SlipsThrough(earlier, other, at, earlier)
    ensures GoesUnnoticed(earlier, other, at)
  {
    var d := Settled(BLANK, earlier);
    SettledAgrees(BLANK, earlier);
    OnlyTheCountIsSeen(d, earlier, other, at, earlier);
    UnlessReplacedOrEmbeddedAnew(d, earlier, other, at);
  }

  /** The crashed attempt replaces the corpus's one chunk, and the earlier content comes back. */
  lemma {:induction false} ARevertCanMislead(corpusId: string, model: Model, a: ChunkKey, b: ChunkKey)
    requires a.corpusId == b.corpusId == corpusId && a != b
    ensures GoesUnnoticed(Target(corpusId, [a], model), Target(corpusId, [b], model), Deleting({a}))
  {
    var earlier, other := Target(corpusId, [a], model), Target(corpusId, [b], model);
    assert earlier.Valid() && other.Valid();
    StaleOnAFullDisk(earlier, other, {a});
    ReplacingOneSlips(corpusId, model, a, b);
    SlippingGoesUnnoticed(earlier, other, Deleting({a}));
  }

  lemma {:induction false} StaleOnAFullDisk(earlier: Target, other: Target, removed: set<ChunkKey>)
    requires earlier.Valid() && earlier.corpusId == other.corpusId
    requires removed <= ChunkSet(earlier.chunks) - ChunkSet(other.chunks)
    ensures CanStop(Settled(BLANK, earlier), other, Deleting(removed))
  {
    OfItsCorpus(earlier);
    forall k | k in removed ensures k in Stale(Settled(BLANK, earlier).dense, other) {
      assert k in ChunkSet(earlier.chunks) && k !in ChunkSet(other.chunks);
    }
  }

  lemma {:induction false} ReplacingOneSlips(corpusId: string, model: Model, a: ChunkKey, b: ChunkKey)
    requires a != b
    ensures var earlier, other := Target(corpusId, [a], model), Target(corpusId, [b], model);
      SlipsThrough(earlier, other, Deleting({a}), earlier)
  {
    assert ChunkSet([b]) - ChunkSet([a]) == {b};
  }

  /**
    * The crashed attempt embeds the first chunk of the same content by another model, and the earlier model comes
    * back.
    */
  lemma {:induction false} AModelChangeCanMislead(earlier: Target, model: Model)
    requires earlier.Valid() && earlier.chunks != [] && model != earlier.model
    ensures GoesUnnoticed(earlier, earlier.(model := model), Upserting(1))
  {
    var other := earlier.(model := model);
    assert earlier.chunks[0] in ChunkSet(earlier.chunks[..1]) * ChunkSet(earlier.chunks);
    assert ChunkSet(earlier.chunks[..1]) - ChunkSet(earlier.chunks) == {};
    SlippingGoesUnnoticed(earlier, other, Upserting(1));
  }

  // ----- The implementation -----

  /** The four stores; the process may die once `left` more writes have been made. */
  class Stores {
    var dense: map<ChunkKey, Model>
    var bm25: map<string, Bm25File>
    var chunkFiles: map<string, seq<ChunkKey>>
    var manifests: map<string, Manifest>
    var left: nat

    function State(): Disk
      reads this
    {
      Disk(dense, bm25, chunkFiles, manifests)
    }

    /** One batch of points, start to end of the chunks: a single call to the store, which a crash may cut anywhere. */
    method UpsertBatch(t: Target, start: nat, end: nat, ghost dense0: map<ChunkKey, Model>) returns (written: nat)
      requires start <= end <= |t.chunks| && dense == Put(dense0, t.chunks[..start], t.model)
      modifies this`dense, this`left
      ensures start <= written <= end && dense == Put(dense0, t.chunks[..written], t.model)
      ensures written == (if old(left) < end - start then start + old(left) else end)
        && left == old(left) - (written - start)
    {
      written := if left < end - start then start + left else end;
      PutBatch(dense0, t.chunks, start, written, t.model);
      dense := Put(dense, t.chunks[start..written], t.model);
      left := left - (written - start);
    }

    /** upsert_chunks: the batches in order, all of them unless the process dies on the way. */
    method UpsertChunks(t: Target) returns (written: nat)
      modifies this`dense, this`left
      ensures written == (if old(left) < |t.chunks| then old(left) else |t.chunks|) && left == old(left) - written
      ensures dense == Put(old(dense), t.chunks[..written], t.model)
    {
      written := 0;
      var crashed := false;
      PutNone(dense, t.chunks, t.model);
      while written < |t.chunks| && !crashed
        invariant written <= |t.chunks| && dense == Put(old(dense), t.chunks[..written], t.model)
        invariant left + written == old(left) && (crashed ==> left == 0)
        decreases |t.chunks| - written, !crashed
      {
        var end := if written + BATCH_SIZE < |t.chunks| then written + BATCH_SIZE else |t.chunks|;
        var reached := UpsertBatch(t, written, end, old(dense));
        crashed, written := reached < end, reached;
      }
    }

    /** delete_stale, point by point, all of them unless the process dies on the way. */
    method DeleteStale(t: Target) returns (removed: set<ChunkKey>)
      modifies this`dense, this`left
      ensures removed <= Stale(old(dense), t) && dense == old(dense) - removed
      ensures |removed| == (if old(left) < |Stale(old(dense), t)| then old(left) else |Stale(old(dense), t)|)
      ensures left == old(left) - |removed|
    {
      var stale := Stale(dense, t);
      removed := {};
      while stale != {} && left > 0
        invariant stale + removed == Stale(old(dense), t) && stale !! removed
        invariant dense == old(dense) - removed && left + |removed| == old(left)
        decreases |stale|
      {
        var k :| k in stale;
        OneMoreRemoved(old(dense), stale, removed, k);
        dense := dense - {k};
        stale, removed := stale - {k}, removed + {k};
        left := left - 1;
      }
      SizesAddUp(stale, removed);
    }
  }

  lemma {:induction false} OneMoreRemoved(dense: map<ChunkKey, Model>, stale: set<ChunkKey>, removed: set<ChunkKey>,
                                          k: ChunkKey)
    requires k in stale && stale !! removed
    ensures (dense - removed) - {k} == dense - (removed + {k})
    ensures (stale - {k}) + (removed + {k}) == stale + removed && (stale - {k}) !! (removed + {k})
    ensures |removed + {k}| == |removed| + 1
  {
  }

  lemma {:induction false} SizesAddUp<T>(a: set<T>, b: set<T>)
    requires a !! b
    ensures |a + b| == |a| + |b|
  {
  }

  lemma {:induction false} PutNone(dense: map<ChunkKey, Model>, chunks: seq<ChunkKey>, model: Model)
    ensures Put(dense, chunks[..0], model) == dense
  {
  }

  lemma {:induction false} PutBatch(dense: map<ChunkKey, Model>, chunks: seq<ChunkKey>, start: nat, end: nat,
                                    model: Model)
    requires start <= end <= |chunks|
    ensures Put(Put(dense, chunks[..start], model), chunks[start..end], model) == Put(dense, chunks[..end], model)
  {
    assert chunks[..end] == chunks[..start] + chunks[start..end];
    PutTwice(dense, chunks[..start], chunks[start..end], model);
  }

  lemma {:induction false} PutTwice(dense: map<ChunkKey, Model>, first: seq<ChunkKey>, batch: seq<ChunkKey>,
                                    model: Model)
    ensures Put(Put(dense, first, model), batch, model) == Put(dense, first + batch, model)
  {
  }

  lemma {:induction false} StaleAfterPut(dense: map<ChunkKey, Model>, t: Target)
    ensures Stale(Put(dense, t.chunks, t.model), t) == Stale(dense, t)
  {
  }

  /** The number of writes made before an attempt at t can stop there. */
  ghost predicate DiesAfter(at: Stop, writes: nat, d: Disk, t: Target) {
    match at
    case Upserting(n) => writes == n < |t.chunks|
    case Deleting(removed) => writes == |t.chunks| + |removed| && removed <= Stale(d.dense, t)
    case BeforeChunkFile => writes == |t.chunks| + |Stale(d.dense, t)| + 1
    case BeforeManifest => writes == |t.chunks| + |Stale(d.dense, t)| + 2
  }

  /** The points of the corpus as they should be: all chunks upserted, then all stale points deleted. */
  method WritePoints(stores: Stores, t: Target) returns (stop: Option<Stop>, stale: nat)
    modifies stores`dense, stores`left
    ensures match stop
      case None => stores.dense == Put(old(stores.dense), t.chunks, t.model) - Stale(old(stores.dense), t)
                   && stale == |Stale(old(stores.dense), t)| && old(stores.left) - |t.chunks| - stale == stores.left > 0
      case Some(at) => CanStop(old(stores.State()), t, at) && stores.State() == StoppedAt(old(stores.State()), t, at)
                       && DiesAfter(at, old(stores.left), old(stores.State()), t)
  {
    stale := 0;
    var written := stores.UpsertChunks(t);
    if written < |t.chunks| {
      return Some(Upserting(written)), 0;
    }
    assert t.chunks[..written] == t.chunks;
    StaleAfterPut(old(stores.dense), t);
    var allStale := Stale(stores.dense, t);
    stale := |allStale|;
    var removed := stores.DeleteStale(t);
    if removed < allStale {
      FewerThanAll(removed, allStale);
    }
    stop := if removed < allStale || stores.left == 0 then Some(Deleting(removed)) else None;
  }

  lemma {:induction false} FewerThanAll(removed: set<ChunkKey>, all: set<ChunkKey>)
    requires removed < all
    ensures |removed| < |all|
  {
    var k :| k in all && k !in removed;
    assert k in all - removed;
    assert all == (all - removed) + removed;
    assert |all - removed| > 0;
  }

  /**
    * ingest_corpus. A corpus that does not load is refused before anything is written; otherwise this is an attempt at
    * its chunks, with the manifest written last. It crashes only where the process dies, and otherwise completes.
    */
  method IngestCorpus(stores: Stores, corpusId: string, prepared: Option<seq<ChunkKey>>, model: Model, force: bool)
    returns (status: Status)
    modifies stores
    ensures prepared.None? ==> status == Refused && stores.State() == old(stores.State())
    ensures prepared.Some? ==>
      var d, t := old(stores.State()), Target(corpusId, prepared.value, model);
      && status != Refused && Attempt(d, stores.State(), t, force, status)
      && (status.Crashed? ==> DiesAfter(status.at, old(stores.left), d, t))
      && (status.Crashed? ==> old(stores.left) <= |t.chunks| + |Stale(d.dense, t)| + 2)
      && (status.Ingested? ==> old(stores.left) > |t.chunks| + |Stale(d.dense, t)| + 2)
  {
    if prepared.None? {
      return Refused;
    }
    var t := Target(corpusId, prepared.value, model);
    if !force && UpToDate(stores.State(), t) {
      return Unchanged;
    }
    var stop, stale := WritePoints(stores, t);
    if stop.Some? {
      DiesInTime(stop.value, old(stores.left), old(stores.State()), t);
      return Crashed(stop.value);
    }
    status := WriteFiles(stores, t, stale);
  }

  lemma {:induction false} DiesInTime(at: Stop, writes: nat, d: Disk, t: Target)
    requires DiesAfter(at, writes, d, t)
    ensures writes <= |t.chunks| + |Stale(d.dense, t)| + 2
  {
    if at.Deleting? && at.removed != Stale(d.dense, t) {
      FewerThanAll(at.removed, Stale(d.dense, t));
    }
  }

  /** The BM25 file, the chunk file and, as the commit marker, the manifest: each an atomic replacement. */
  method WriteFiles(stores: Stores, t: Target, stale: nat) returns (status: Status)
    requires stores.left > 0
    modifies stores`bm25, stores`chunkFiles, stores`manifests, stores`left
    ensures var d := old(stores.State()).(bm25 := old(stores.bm25)[t.corpusId := Bm25File(t.Print(), t.chunks)]);
      var f := d.(chunkFiles := d.chunkFiles[t.corpusId := t.chunks]);
      var m := f.(manifests := f.manifests[t.corpusId := Manifest(t.Print(), |t.chunks|)]);
      if old(stores.left) == 1 then status == Crashed(BeforeChunkFile) && stores.State() == d
      else if old(stores.left) == 2 then status == Crashed(BeforeManifest) && stores.State() == f
      else status == Ingested(stale) && stores.State() == m
  {
    stores.bm25 := stores.bm25[t.corpusId := Bm25File(t.Print(), t.chunks)];
    stores.left := stores.left - 1;
    if stores.left == 0 {
      return Crashed(BeforeChunkFile);
    }
    stores.chunkFiles := stores.chunkFiles[t.corpusId := t.chunks];
    stores.left := stores.left - 1;
    if stores.left == 0 {
      return Crashed(BeforeManifest);
    }
    stores.manifests := stores.manifests[t.corpusId := Manifest(t.Print(), |t.chunks|)];
    status := Ingested(stale);
  }
}
