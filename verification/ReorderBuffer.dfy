/** The order-resolving transcript buffer of one session (SessionRecord.ingest_chunk). */
module ReorderBuffer {
  import opened Collections
  import opened Options

  datatype TranscriptChunk = TranscriptChunk(seqNo: nat, text: string, tOffsetMs: nat, isFinal: bool)

  /** The four fields of the session record that ingestion reads and writes. */
  datatype Buffered = Buffered(
    buffer: seq<TranscriptChunk>,
    pending: map<nat, TranscriptChunk>,
    nextSeq: Option<nat>,
    gapOpenedAtMs: Option<nat>)

  datatype Ingested = Ingested(state: Buffered, committed: seq<TranscriptChunk>, sequenceGap: bool)

  const EMPTY: Buffered := Buffered([], map[], None, None)

  // ----- Specification -----

  /** The held chunks numbered n, n+1, ... up to the first hole. */
  function HeldRun(pending: map<nat, TranscriptChunk>, n: nat): seq<TranscriptChunk>
    decreases pending.Keys
  {
    if n in pending then
      assert (pending - {n}).Keys == pending.Keys - {n};
      [pending[n]] + HeldRun(pending - {n}, n + 1)
    else []
  }

  predicate IsLeast(k: nat, keys: set<nat>) {
    k in keys && forall j :: j in keys ==> k <= j
  }

  lemma {:induction false} LeastKeyExists(keys: set<nat>)
    requires keys != {}
    ensures exists k :: IsLeast(k, keys)
  {
    var k :| k in keys;
    var others := keys - {k};
    assert forall j :: j in keys ==> j == k || j in others;
    if others == {} {
      assert IsLeast(k, keys);
    } else {
      LeastKeyExists(others);
      var m :| IsLeast(m, others);
      assert IsLeast(if k < m then k else m, keys);
    }
  }

  function LeastKey(keys: set<nat>): (k: nat)
    requires keys != {}
    ensures IsLeast(k, keys)
  {
    LeastKeyExists(keys);
    var k :| k in keys && IsLeast(k, keys);
    k
  }

  /** All held chunks in increasing order of their key. */
  function AllHeld(pending: map<nat, TranscriptChunk>): seq<TranscriptChunk>
    decreases pending.Keys
  {
    if pending == map[] then []
    else
      var k := LeastKey(pending.Keys);
      assert (pending - {k}).Keys == pending.Keys - {k};
      [pending[k]] + AllHeld(pending - {k})
  }

  /** The chunk that was waited for arrives: it and the run behind it are committed. */
  function CommitRun(s: Buffered, chunk: TranscriptChunk): Ingested {
    var batch := [chunk] + HeldRun(s.pending, chunk.seqNo + 1);
    var after := chunk.seqNo + |batch|;
    var pending := map k | k in s.pending && !(chunk.seqNo < k < after) :: s.pending[k];
    Ingested(
      Buffered(s.buffer + batch, pending, Some(after), if pending == map[] then None else s.gapOpenedAtMs),
      batch, false)
  }

  /** A chunk beyond the gap is held back, or everything held is forced out when the window has passed. */
  function HoldOrFlush(s: Buffered, next: nat, chunk: TranscriptChunk, windowMs: nat): Ingested {
    var pending := s.pending[chunk.seqNo := chunk];
    var openedAt := s.gapOpenedAtMs.GetOr(chunk.tOffsetMs);
    if chunk.tOffsetMs - openedAt < windowMs then
      Ingested(Buffered(s.buffer, pending, Some(next), Some(openedAt)), [], false)
    else
      assert chunk.seqNo in pending;
      var batch := AllHeld(pending);
      Ingested(Buffered(s.buffer + batch, map[], Some(batch[|batch| - 1].seqNo + 1), None), batch, true)
  }

  /** One arrival, as a function of the buffer state. */
  function Ingest(s: Buffered, chunk: TranscriptChunk, windowMs: nat): Ingested {
    var next := s.nextSeq.GetOr(chunk.seqNo);
    if chunk.seqNo < next then Ingested(s, [], false)
    else if chunk.seqNo == next then CommitRun(s, chunk)
    else HoldOrFlush(s, next, chunk, windowMs)
  }

  /** A whole run: every arrival in turn, with the batches handed to the controller and the number of forced flushes. */
  datatype Delivery = Delivery(state: Buffered, batches: seq<seq<TranscriptChunk>>, gaps: nat)

  function Deliver(arrivals: seq<TranscriptChunk>, windowMs: nat): (o: Delivery)
    ensures |o.batches| == |arrivals|
  {
    if arrivals == [] then Delivery(EMPTY, [], 0)
    else
      var before := Deliver(arrivals[..|arrivals| - 1], windowMs);
      var step := Ingest(before.state, arrivals[|arrivals| - 1], windowMs);
      Delivery(step.state, before.batches + [step.committed], before.gaps + if step.sequenceGap then 1 else 0)
  }

  function Flatten(batches: seq<seq<TranscriptChunk>>): seq<TranscriptChunk> {
    if batches == [] then [] else Flatten(batches[..|batches| - 1]) + batches[|batches| - 1]
  }

  // ----- The invariant -----

  ghost predicate Increasing(s: seq<TranscriptChunk>) {
    forall i, j :: 0 <= i < j < |s| ==> s[i].seqNo < s[j].seqNo
  }

  /** What holds between any two arrivals, whatever came before. */
  ghost predicate WellFormed(s: Buffered, windowMs: nat) {
    && Increasing(s.buffer)
    && (s.nextSeq.None? <==> s.buffer == [])
    && (s.buffer != [] ==> s.nextSeq == Some(s.buffer[|s.buffer| - 1].seqNo + 1))
    && (forall k :: k in s.pending ==> s.pending[k].seqNo == k && s.nextSeq.Some? && k > s.nextSeq.value)
    && (s.gapOpenedAtMs.Some? <==> s.pending != map[])
    && (s.gapOpenedAtMs.Some? ==>
          forall k :: k in s.pending ==> s.pending[k].tOffsetMs < s.gapOpenedAtMs.value + windowMs)
  }

  ghost predicate KeyedBySeq(pending: map<nat, TranscriptChunk>) {
    forall k :: k in pending ==> pending[k].seqNo == k
  }

  /** From n on the run is what is held, up to the first missing number. */
  ghost predicate IsRun(pending: map<nat, TranscriptChunk>, n: nat, run: seq<TranscriptChunk>) {
    && (forall k :: n <= k < n + |run| ==> k in pending && run[k - n] == pending[k])
    && n + |run| !in pending
  }

  lemma {:induction false} OneMoreHeld(pending: map<nat, TranscriptChunk>, n: nat, tail: seq<TranscriptChunk>)
    requires n in pending && IsRun(pending - {n}, n + 1, tail)
    ensures IsRun(pending, n, [pending[n]] + tail)
  {
    var rest, run := pending - {n}, [pending[n]] + tail;
    forall k | n <= k < n + |run| ensures k in pending && run[k - n] == pending[k] {
      if k > n { assert k in rest && run[k - n] == tail[k - (n + 1)]; }
    }
    assert n + 1 + |tail| !in rest;
  }

  lemma {:induction false} HeldRunIsTheRun(pending: map<nat, TranscriptChunk>, n: nat)
    ensures IsRun(pending, n, HeldRun(pending, n))
    decreases pending.Keys
  {
    if n in pending {
      var rest := pending - {n};
      assert rest.Keys == pending.Keys - {n};
      HeldRunIsTheRun(rest, n + 1);
      OneMoreHeld(pending, n, HeldRun(rest, n + 1));
    }
  }

  lemma {:induction false} AllHeldIsSorted(pending: map<nat, TranscriptChunk>)
    requires KeyedBySeq(pending)
    ensures Increasing(AllHeld(pending))
    ensures forall c :: c in AllHeld(pending) <==> c.seqNo in pending && pending[c.seqNo] == c
    decreases pending.Keys
  {
    if pending != map[] {
      var k := LeastKey(pending.Keys);
      var rest := pending - {k};
      assert rest.Keys == pending.Keys - {k};
      AllHeldIsSorted(rest);
      assert AllHeld(pending) == [pending[k]] + AllHeld(rest);
      forall j | 0 <= j < |AllHeld(rest)| ensures AllHeld(rest)[j].seqNo > k {
        assert AllHeld(rest)[j] in AllHeld(rest);
      }
    }
  }

  /** The committed batch is numbered consecutively from the chunk on. */
  lemma {:induction false} BatchIsNumbered(pending: map<nat, TranscriptChunk>, chunk: TranscriptChunk)
    requires KeyedBySeq(pending)
    ensures var batch := [chunk] + HeldRun(pending, chunk.seqNo + 1);
      && (forall i :: 0 <= i < |batch| ==> batch[i].seqNo == chunk.seqNo + i)
      && (forall k :: chunk.seqNo < k < chunk.seqNo + |batch| ==> k in pending)
      && chunk.seqNo + |batch| !in pending
  {
    HeldRunIsTheRun(pending, chunk.seqNo + 1);
    var held := HeldRun(pending, chunk.seqNo + 1);
    var batch := [chunk] + held;
    forall i | 0 <= i < |batch| ensures batch[i].seqNo == chunk.seqNo + i {
      if i > 0 {
        assert chunk.seqNo + i in pending;
        assert batch[i] == held[i - 1] == pending[chunk.seqNo + i];
      }
    }
  }

  lemma {:induction false} CommitKeepsWellFormed(s: Buffered, chunk: TranscriptChunk, windowMs: nat)
    requires WellFormed(s, windowMs) && s.nextSeq.GetOr(chunk.seqNo) == chunk.seqNo
    ensures WellFormed(CommitRun(s, chunk).state, windowMs)
  {
    BatchIsNumbered(s.pending, chunk);
    var batch := [chunk] + HeldRun(s.pending, chunk.seqNo + 1);
    var t := CommitRun(s, chunk).state;
    assert t.buffer[|t.buffer| - 1] == batch[|batch| - 1];
    if t.pending != map[] {
      var k :| k in t.pending;
      assert k in s.pending;
    }
  }

  lemma {:induction false} HoldKeepsWellFormed(s: Buffered, next: nat, chunk: TranscriptChunk, windowMs: nat)
    requires WellFormed(s, windowMs) && s.nextSeq == Some(next) && chunk.seqNo > next
    requires chunk.tOffsetMs - s.gapOpenedAtMs.GetOr(chunk.tOffsetMs) < windowMs
    ensures WellFormed(HoldOrFlush(s, next, chunk, windowMs).state, windowMs)
  {
    assert chunk.seqNo in s.pending[chunk.seqNo := chunk];
  }

  lemma {:induction false} FlushKeepsWellFormed(s: Buffered, next: nat, chunk: TranscriptChunk, windowMs: nat)
    requires WellFormed(s, windowMs) && s.nextSeq == Some(next) && chunk.seqNo > next
    requires chunk.tOffsetMs - s.gapOpenedAtMs.GetOr(chunk.tOffsetMs) >= windowMs
    ensures WellFormed(HoldOrFlush(s, next, chunk, windowMs).state, windowMs)
  {
    var pending := s.pending[chunk.seqNo := chunk];
    FlushedBatch(pending, chunk.seqNo, next);
    FlushedIsWellFormed(s.buffer, AllHeld(pending), next, windowMs);
  }

  ghost predicate AllLater(batch: seq<TranscriptChunk>, next: nat) {
    forall j :: 0 <= j < |batch| ==> batch[j].seqNo > next
  }

  /** What a forced flush commits: at least the chunk that forced it, in increasing order, and all behind the gap. */
  lemma {:induction false} FlushedBatch(pending: map<nat, TranscriptChunk>, k: nat, next: nat)
    requires KeyedBySeq(pending) && k in pending && forall k :: k in pending ==> k > next
    ensures AllHeld(pending) != [] && Increasing(AllHeld(pending)) && AllLater(AllHeld(pending), next)
  {
    AllHeldIsSorted(pending);
    var batch := AllHeld(pending);
    assert pending[k] in batch;
    forall j | 0 <= j < |batch| ensures batch[j].seqNo > next {
      assert batch[j] in batch;
    }
  }

  lemma {:induction false} FlushedIsWellFormed(buffer: seq<TranscriptChunk>, batch: seq<TranscriptChunk>, next: nat,
                                               windowMs: nat)
    requires Increasing(buffer) && (buffer != [] ==> buffer[|buffer| - 1].seqNo < next)
    requires batch != [] && Increasing(batch) && AllLater(batch, next)
    ensures WellFormed(Buffered(buffer + batch, map[], Some(batch[|batch| - 1].seqNo + 1), None), windowMs)
  {
    IncreasingTogether(buffer, batch, next);
  }

  lemma {:induction false} IncreasingTogether(a: seq<TranscriptChunk>, b: seq<TranscriptChunk>, next: nat)
    requires Increasing(a) && Increasing(b) && (a != [] ==> a[|a| - 1].seqNo < next)
    requires AllLater(b, next)
    ensures Increasing(a + b)
  {
  }

  lemma {:induction false} IngestKeepsWellFormed(s: Buffered, chunk: TranscriptChunk, windowMs: nat)
    requires WellFormed(s, windowMs)
    ensures WellFormed(Ingest(s, chunk, windowMs).state, windowMs)
    ensures Ingest(s, chunk, windowMs).state.buffer == s.buffer + Ingest(s, chunk, windowMs).committed
  {
    var next := s.nextSeq.GetOr(chunk.seqNo);
    if chunk.seqNo == next {
      CommitKeepsWellFormed(s, chunk, windowMs);
    } else if chunk.seqNo > next {
      if chunk.tOffsetMs - s.gapOpenedAtMs.GetOr(chunk.tOffsetMs) < windowMs {
        HoldKeepsWellFormed(s, next, chunk, windowMs);
      } else {
        FlushKeepsWellFormed(s, next, chunk, windowMs);
      }
    }
  }

  /** Over every arrival sequence the invariant holds and the buffer is the concatenation of what was handed on. */
  lemma {:induction false} EveryRunIsWellFormed(arrivals: seq<TranscriptChunk>, windowMs: nat)
    ensures WellFormed(Deliver(arrivals, windowMs).state, windowMs)
    ensures Deliver(arrivals, windowMs).state.buffer == Flatten(Deliver(arrivals, windowMs).batches)
  {
    if arrivals != [] {
      var before := arrivals[..|arrivals| - 1];
      EveryRunIsWellFormed(before, windowMs);
      IngestKeepsWellFormed(Deliver(before, windowMs).state, arrivals[|arrivals| - 1], windowMs);
      assert Deliver(arrivals, windowMs).batches[..|arrivals| - 1] == Deliver(before, windowMs).batches;
    }
  }

  // ----- What a run without a forced flush delivers -----

  lemma {:induction false} NothingIsInvented(arrivals: seq<TranscriptChunk>, windowMs: nat)
    ensures var s := Deliver(arrivals, windowMs).state;
      && (forall c :: c in s.buffer ==> c in arrivals)
      && (forall k :: k in s.pending ==> s.pending[k] in arrivals)
      && (s.gapOpenedAtMs.Some? ==> exists c :: c in arrivals && c.tOffsetMs == s.gapOpenedAtMs.value)
  {
    if arrivals != [] {
      var before, chunk := arrivals[..|arrivals| - 1], arrivals[|arrivals| - 1];
      NothingIsInvented(before, windowMs);
      EveryRunIsWellFormed(before, windowMs);
      assert chunk in arrivals && forall c :: c in before ==> c in arrivals;
      IngestInventsNothing(Deliver(before, windowMs).state, chunk, windowMs);
    }
  }

  lemma {:induction false} IngestInventsNothing(s: Buffered, chunk: TranscriptChunk, windowMs: nat)
    requires WellFormed(s, windowMs)
    ensures var t := Ingest(s, chunk, windowMs).state;
      && (forall c :: c in t.buffer ==>
        c in s.buffer || c == chunk || (c.seqNo in s.pending && s.pending[c.seqNo] == c))
      && (forall k :: k in t.pending ==> t.pending[k] == chunk || (k in s.pending && s.pending[k] == t.pending[k]))
      && (t.gapOpenedAtMs.Some? ==> t.gapOpenedAtMs == s.gapOpenedAtMs || t.gapOpenedAtMs == Some(chunk.tOffsetMs))
  {
    var next := s.nextSeq.GetOr(chunk.seqNo);
    if chunk.seqNo == next {
      HeldRunWasHeld(s.pending, next + 1);
    } else if chunk.seqNo > next {
      HeldWasHeld(s.pending, chunk);
    }
  }

  lemma {:induction false} HeldWasHeld(pending: map<nat, TranscriptChunk>, chunk: TranscriptChunk)
    requires KeyedBySeq(pending)
    ensures forall c :: c in AllHeld(pending[chunk.seqNo := chunk]) ==>
      c == chunk || (c.seqNo in pending && pending[c.seqNo] == c)
  {
    AllHeldIsSorted(pending[chunk.seqNo := chunk]);
  }

  lemma {:induction false} HeldRunWasHeld(pending: map<nat, TranscriptChunk>, n: nat)
    requires KeyedBySeq(pending)
    ensures forall c :: c in HeldRun(pending, n) ==> c.seqNo in pending && pending[c.seqNo] == c
  {
    HeldRunIsTheRun(pending, n);
    var held := HeldRun(pending, n);
    forall c | c in held ensures c.seqNo in pending && pending[c.seqNo] == c {
      var i :| 0 <= i < |held| && held[i] == c;
      assert n + i in pending && held[n + i - n] == pending[n + i];
    }
  }

  /**
    * The chunks committed so far are numbered first, first + 1, ... and together with the held ones are all that
    * arrived.
    */
  ghost predicate Accounted(s: Buffered, arrivals: seq<TranscriptChunk>, first: nat) {
    && s.nextSeq == Some(first + |s.buffer|)
    && (forall i :: 0 <= i < |s.buffer| ==> s.buffer[i].seqNo == first + i)
    && (forall n :: first <= n ==> (Arrived(arrivals, n) <==> n < first + |s.buffer| || n in s.pending))
  }

  ghost predicate Arrived(arrivals: seq<TranscriptChunk>, n: nat) {
    exists i :: 0 <= i < |arrivals| && arrivals[i].seqNo == n
  }

  lemma {:induction false} ArrivedSnoc(arrivals: seq<TranscriptChunk>, n: nat)
    requires arrivals != []
    ensures Arrived(arrivals, n) <==> Arrived(arrivals[..|arrivals| - 1], n) || arrivals[|arrivals| - 1].seqNo == n
  {
    var before := arrivals[..|arrivals| - 1];
    if Arrived(before, n) {
      var i :| 0 <= i < |before| && before[i].seqNo == n;
      assert arrivals[i].seqNo == n;
    }
    if Arrived(arrivals, n) && arrivals[|arrivals| - 1].seqNo != n {
      var i :| 0 <= i < |arrivals| && arrivals[i].seqNo == n;
      assert before[i].seqNo == n;
    }
  }

  lemma {:induction false} OneMoreArrived(before: seq<TranscriptChunk>, chunk: TranscriptChunk)
    ensures forall n :: Arrived(before + [chunk], n) <==> Arrived(before, n) || n == chunk.seqNo
  {
    assert (before + [chunk])[..|before|] == before;
    forall n ensures Arrived(before + [chunk], n) <==> Arrived(before, n) || n == chunk.seqNo {
      ArrivedSnoc(before + [chunk], n);
    }
  }

  lemma {:induction false} CommitAccounts(s: Buffered, before: seq<TranscriptChunk>, chunk: TranscriptChunk, first: nat)
    requires s.nextSeq.GetOr(chunk.seqNo) == chunk.seqNo
    requires if before == [] then s == EMPTY && first == chunk.seqNo else Accounted(s, before, first)
    requires KeyedBySeq(s.pending)
    ensures Accounted(CommitRun(s, chunk).state, before + [chunk], first)
  {
    BatchIsNumbered(s.pending, chunk);
    OneMoreArrived(before, chunk);
  }

  lemma {:induction false} HoldAccounts(s: Buffered, before: seq<TranscriptChunk>, chunk: TranscriptChunk, first: nat,
                                        windowMs: nat)
    requires before != [] && Accounted(s, before, first) && chunk.seqNo != s.nextSeq.value
    requires !Ingest(s, chunk, windowMs).sequenceGap
    ensures Accounted(Ingest(s, chunk, windowMs).state, before + [chunk], first)
  {
    OneMoreArrived(before, chunk);
  }

  /** Without a forced flush, no chunk at or after the first arrival's number is ever lost. */
  lemma {:induction false} NothingIsLostWithoutAGap(arrivals: seq<TranscriptChunk>, windowMs: nat)
    requires arrivals != [] && Deliver(arrivals, windowMs).gaps == 0
    ensures Accounted(Deliver(arrivals, windowMs).state, arrivals, arrivals[0].seqNo)
  {
    var before, chunk, first := arrivals[..|arrivals| - 1], arrivals[|arrivals| - 1], arrivals[0].seqNo;
    var s := Deliver(before, windowMs).state;
    assert arrivals == before + [chunk];
    EveryRunIsWellFormed(before, windowMs);
    if before != [] {
      NothingIsLostWithoutAGap(before, windowMs);
    }
    if chunk.seqNo == s.nextSeq.GetOr(chunk.seqNo) {
      CommitAccounts(s, before, chunk, first);
    } else {
      HoldAccounts(s, before, chunk, first, windowMs);
    }
  }

  // ----- One arrival, case by case -----

  /** The chunk with the held chunks numbered next, up to the first missing one. */
  ghost predicate IsBatch(pending: map<nat, TranscriptChunk>, chunk: TranscriptChunk, batch: seq<TranscriptChunk>) {
    && batch != [] && batch[0] == chunk
    && (forall k :: chunk.seqNo < k < chunk.seqNo + |batch| ==> k in pending && batch[k - chunk.seqNo] == pending[k])
    && chunk.seqNo + |batch| !in pending
  }

  /** The chunk that was waited for: its batch is committed and taken out of what is held. */
  ghost predicate InOrderArrival(s: Buffered, chunk: TranscriptChunk, o: Ingested) {
    var after := chunk.seqNo + |o.committed|;
    && !o.sequenceGap && IsBatch(s.pending, chunk, o.committed)
    && o.state.buffer == s.buffer + o.committed && o.state.nextSeq == Some(after)
    && (forall k :: k in o.state.pending <==> k in s.pending && k > after)
    && (forall k :: k in o.state.pending ==> o.state.pending[k] == s.pending[k])
    && o.state.gapOpenedAtMs == if o.state.pending == map[] then None else s.gapOpenedAtMs
  }

  /** A chunk beyond the gap inside the window: it is held, and the clock started at the first chunk held. */
  ghost predicate HeldArrival(s: Buffered, chunk: TranscriptChunk, openedAtMs: nat, o: Ingested) {
    && !o.sequenceGap && o.committed == []
    && o.state == Buffered(s.buffer, s.pending[chunk.seqNo := chunk], s.nextSeq, Some(openedAtMs))
  }

  /** The window has passed: everything held and the chunk itself are committed, in order, each once. */
  ghost predicate ForcedArrival(s: Buffered, chunk: TranscriptChunk, o: Ingested) {
    && o.sequenceGap && o.committed != [] && Increasing(o.committed)
    && (forall c :: c in o.committed <==> c == chunk || HeldOther(s.pending, chunk.seqNo, c))
    && o.state.buffer == s.buffer + o.committed
    && o.state.nextSeq == Some(o.committed[|o.committed| - 1].seqNo + 1)
    && o.state.pending == map[] && o.state.gapOpenedAtMs == None
  }

  ghost predicate HeldOther(pending: map<nat, TranscriptChunk>, n: nat, c: TranscriptChunk) {
    c.seqNo != n && c.seqNo in pending && pending[c.seqNo] == c
  }

  /** What one arrival does, by its number and its offset alone. */
  ghost predicate IngestedExactly(s: Buffered, chunk: TranscriptChunk, windowMs: nat, o: Ingested) {
    var next := if s.nextSeq.Some? then s.nextSeq.value else chunk.seqNo;
    var openedAtMs := if s.gapOpenedAtMs.Some? then s.gapOpenedAtMs.value else chunk.tOffsetMs;
    if chunk.seqNo < next then o == Ingested(s, [], false)
    else if chunk.seqNo == next then InOrderArrival(s, chunk, o)
    else if chunk.tOffsetMs - openedAtMs < windowMs then HeldArrival(s, chunk, openedAtMs, o)
    else ForcedArrival(s, chunk, o)
  }

  lemma {:induction false} RunMakesBatch(pending: map<nat, TranscriptChunk>, chunk: TranscriptChunk,
                                         held: seq<TranscriptChunk>)
    requires IsRun(pending, chunk.seqNo + 1, held)
    ensures IsBatch(pending, chunk, [chunk] + held)
  {
    var n, batch := chunk.seqNo, [chunk] + held;
    forall k | n < k < n + |batch| ensures k in pending && batch[k - n] == pending[k] {
      assert batch[k - n] == held[k - (n + 1)];
    }
  }

  lemma {:induction false} CommitExactly(s: Buffered, chunk: TranscriptChunk, windowMs: nat)
    requires WellFormed(s, windowMs) && s.nextSeq.GetOr(chunk.seqNo) == chunk.seqNo
    ensures InOrderArrival(s, chunk, CommitRun(s, chunk))
  {
    var held := HeldRun(s.pending, chunk.seqNo + 1);
    HeldRunIsTheRun(s.pending, chunk.seqNo + 1);
    RunMakesBatch(s.pending, chunk, held);
    LeftBehind(s.pending, chunk, [chunk] + held);
  }

  /** Nothing held before the chunk's number is left, and nothing of its batch. */
  lemma {:induction false} LeftBehind(pending: map<nat, TranscriptChunk>, chunk: TranscriptChunk,
                                      batch: seq<TranscriptChunk>)
    requires IsBatch(pending, chunk, batch) && forall k :: k in pending ==> k > chunk.seqNo
    ensures forall k :: k in pending && !(chunk.seqNo < k < chunk.seqNo + |batch|) <==>
      k in pending && k > chunk.seqNo + |batch|
  {
  }

  lemma {:induction false} FlushedIsHeldOrChunk(held: map<nat, TranscriptChunk>, chunk: TranscriptChunk,
                                                c: TranscriptChunk)
    requires KeyedBySeq(held)
    ensures c in AllHeld(held[chunk.seqNo := chunk]) <==> c == chunk || HeldOther(held, chunk.seqNo, c)
  {
    var pending := held[chunk.seqNo := chunk];
    AllHeldIsSorted(pending);
    assert c in AllHeld(pending) <==> c.seqNo in pending && pending[c.seqNo] == c;
  }

  lemma {:induction false} FlushExactly(s: Buffered, next: nat, chunk: TranscriptChunk, windowMs: nat)
    requires WellFormed(s, windowMs) && s.nextSeq == Some(next) && chunk.seqNo > next
    requires chunk.tOffsetMs - s.gapOpenedAtMs.GetOr(chunk.tOffsetMs) >= windowMs
    ensures ForcedArrival(s, chunk, HoldOrFlush(s, next, chunk, windowMs))
  {
    var pending := s.pending[chunk.seqNo := chunk];
    FlushedBatch(pending, chunk.seqNo, next);
    var o := HoldOrFlush(s, next, chunk, windowMs);
    forall c ensures c in o.committed <==> c == chunk || HeldOther(s.pending, chunk.seqNo, c) {
      FlushedIsHeldOrChunk(s.pending, chunk, c);
    }
  }

  /** Every arrival does exactly what its number and its offset say, whatever came before. */
  lemma {:induction false} EveryArrivalIsIngestedExactly(s: Buffered, chunk: TranscriptChunk, windowMs: nat)
    requires WellFormed(s, windowMs)
    ensures IngestedExactly(s, chunk, windowMs, Ingest(s, chunk, windowMs))
  {
    var next := s.nextSeq.GetOr(chunk.seqNo);
    if chunk.seqNo == next {
      CommitExactly(s, chunk, windowMs);
    } else if chunk.seqNo > next && chunk.tOffsetMs - s.gapOpenedAtMs.GetOr(chunk.tOffsetMs) >= windowMs {
      FlushExactly(s, next, chunk, windowMs);
    }
  }

  /** The i-th arrival was not numbered below what was waited for when it came. */
  ghost predicate TakenIn(arrivals: seq<TranscriptChunk>, windowMs: nat, i: nat)
    requires i < |arrivals|
  {
    var s := Deliver(arrivals[..i], windowMs).state;
    s.nextSeq.None? || arrivals[i].seqNo >= s.nextSeq.value
  }

  /** The number stands in the buffer or is held. */
  ghost predicate Present(s: Buffered, n: nat) {
    n in s.pending || Arrived(s.buffer, n)
  }

  lemma {:induction false} ArrivedTogether(a: seq<TranscriptChunk>, b: seq<TranscriptChunk>, n: nat)
    ensures Arrived(a + b, n) <==> Arrived(a, n) || Arrived(b, n)
  {
    if Arrived(a, n) {
      var i :| 0 <= i < |a| && a[i].seqNo == n;
      assert (a + b)[i].seqNo == n;
    }
    if Arrived(b, n) {
      var i :| 0 <= i < |b| && b[i].seqNo == n;
      assert (a + b)[|a| + i].seqNo == n;
    }
    if Arrived(a + b, n) {
      var i :| 0 <= i < |a + b| && (a + b)[i].seqNo == n;
      assert if i < |a| then a[i].seqNo == n else b[i - |a|].seqNo == n;
    }
  }

  lemma {:induction false} BatchNumbers(pending: map<nat, TranscriptChunk>, chunk: TranscriptChunk,
                                        batch: seq<TranscriptChunk>, n: nat)
    requires IsBatch(pending, chunk, batch) && KeyedBySeq(pending)
    ensures Arrived(batch, n) <==> n == chunk.seqNo || (n in pending && chunk.seqNo < n < chunk.seqNo + |batch|)
  {
    if n == chunk.seqNo {
      assert batch[0].seqNo == n;
    } else if n in pending && chunk.seqNo < n < chunk.seqNo + |batch| {
      assert batch[n - chunk.seqNo].seqNo == n;
    } else if Arrived(batch, n) {
      var i :| 0 <= i < |batch| && batch[i].seqNo == n;
      NumberInBatch(pending, chunk, batch, i);
      assert false;
    }
  }

  lemma {:induction false} NumberInBatch(pending: map<nat, TranscriptChunk>, chunk: TranscriptChunk,
                                         batch: seq<TranscriptChunk>, i: nat)
    requires IsBatch(pending, chunk, batch) && KeyedBySeq(pending) && i < |batch|
    ensures batch[i].seqNo == chunk.seqNo + i && (i > 0 ==> chunk.seqNo + i in pending)
  {
    if i > 0 {
      var k := chunk.seqNo + i;
      assert k in pending && batch[k - chunk.seqNo] == pending[k];
    }
  }

  lemma {:induction false} InOrderKeeps(s: Buffered, chunk: TranscriptChunk, o: Ingested, n: nat)
    requires InOrderArrival(s, chunk, o) && KeyedBySeq(s.pending)
    requires forall k :: k in s.pending ==> k > chunk.seqNo
    ensures Present(o.state, n) <==> Present(s, n) || n == chunk.seqNo
  {
    ArrivedTogether(s.buffer, o.committed, n);
    BatchNumbers(s.pending, chunk, o.committed, n);
  }

  lemma {:induction false} ForcedKeeps(s: Buffered, chunk: TranscriptChunk, o: Ingested, n: nat)
    requires ForcedArrival(s, chunk, o) && KeyedBySeq(s.pending)
    ensures Present(o.state, n) <==> Present(s, n) || n == chunk.seqNo
  {
    ArrivedTogether(s.buffer, o.committed, n);
    if n == chunk.seqNo {
      assert chunk in o.committed;
    } else if n in s.pending {
      assert HeldOther(s.pending, chunk.seqNo, s.pending[n]) && s.pending[n] in o.committed;
    } else if Arrived(o.committed, n) {
      var i :| 0 <= i < |o.committed| && o.committed[i].seqNo == n;
      assert o.committed[i] in o.committed;
    }
  }

  /** One arrival adds its number, unless it is stale, and takes none away. */
  lemma {:induction false} IngestKeeps(s: Buffered, chunk: TranscriptChunk, windowMs: nat, n: nat)
    requires WellFormed(s, windowMs)
    ensures Present(Ingest(s, chunk, windowMs).state, n) <==>
      Present(s, n) || (n == chunk.seqNo && (s.nextSeq.None? || chunk.seqNo >= s.nextSeq.value))
  {
    EveryArrivalIsIngestedExactly(s, chunk, windowMs);
    var o, next := Ingest(s, chunk, windowMs), s.nextSeq.GetOr(chunk.seqNo);
    if chunk.seqNo == next {
      InOrderKeeps(s, chunk, o, n);
    } else if o.sequenceGap {
      ForcedKeeps(s, chunk, o, n);
    }
  }

  /** Some arrival with this number was taken in. */
  ghost predicate NumberTakenIn(arrivals: seq<TranscriptChunk>, windowMs: nat, n: nat) {
    exists i :: 0 <= i < |arrivals| && TakenIn(arrivals, windowMs, i) && arrivals[i].seqNo == n
  }

  lemma {:induction false} TakenInBefore(arrivals: seq<TranscriptChunk>, windowMs: nat, m: nat, i: nat)
    requires i < m <= |arrivals|
    ensures TakenIn(arrivals[..m], windowMs, i) == TakenIn(arrivals, windowMs, i)
  {
    assert arrivals[..m][..i] == arrivals[..i];
  }

  lemma {:induction false} StillTakenIn(arrivals: seq<TranscriptChunk>, windowMs: nat, n: nat, last: nat)
    requires |arrivals| == last + 1 && NumberTakenIn(arrivals[..last], windowMs, n)
    ensures NumberTakenIn(arrivals, windowMs, n)
  {
    var before := arrivals[..last];
    var i :| 0 <= i < last && TakenIn(before, windowMs, i) && before[i].seqNo == n;
    TakenInBefore(arrivals, windowMs, last, i);
    assert arrivals[i].seqNo == n;
  }

  lemma {:induction false} AlreadyTakenIn(arrivals: seq<TranscriptChunk>, windowMs: nat, last: nat, i: nat)
    requires i < last < |arrivals| && TakenIn(arrivals, windowMs, i)
    ensures NumberTakenIn(arrivals[..last], windowMs, arrivals[i].seqNo)
  {
    TakenInBefore(arrivals, windowMs, last, i);
    assert arrivals[..last][i].seqNo == arrivals[i].seqNo;
  }

  lemma {:induction false} NumberTakenInSnoc(arrivals: seq<TranscriptChunk>, windowMs: nat, n: nat, last: nat)
    requires |arrivals| == last + 1
    ensures NumberTakenIn(arrivals, windowMs, n) <==>
      NumberTakenIn(arrivals[..last], windowMs, n) || (arrivals[last].seqNo == n && TakenIn(arrivals, windowMs, last))
  {
    var before := arrivals[..last];
    if NumberTakenIn(before, windowMs, n) {
      StillTakenIn(arrivals, windowMs, n, last);
    } else if NumberTakenIn(arrivals, windowMs, n) {
      var i :| 0 <= i <= last && TakenIn(arrivals, windowMs, i) && arrivals[i].seqNo == n;
      if i < last {
        AlreadyTakenIn(arrivals, windowMs, last, i);
      }
    }
  }

  /** Over every run, with any number of forced flushes, a number is present iff some arrival with it was taken in. */
  lemma {:induction false} PresentExactlyWhenTakenIn(arrivals: seq<TranscriptChunk>, windowMs: nat, n: nat)
    ensures Present(Deliver(arrivals, windowMs).state, n) <==> NumberTakenIn(arrivals, windowMs, n)
  {
    if arrivals != [] {
      var last := |arrivals| - 1;
      EveryRunIsWellFormed(arrivals[..last], windowMs);
      IngestKeeps(Deliver(arrivals[..last], windowMs).state, arrivals[last], windowMs, n);
      PresentExactlyWhenTakenIn(arrivals[..last], windowMs, n);
      NumberTakenInSnoc(arrivals, windowMs, n, last);
    }
  }

  // ----- Arrival order is invisible inside the window -----

  /** Distinct numbers filling a range that starts at the first arrival's, with offsets less than a window apart. */
  ghost predicate WithinWindow(arrivals: seq<TranscriptChunk>, windowMs: nat) {
    && (forall i, j :: 0 <= i < j < |arrivals| ==> arrivals[i].seqNo != arrivals[j].seqNo)
    && (forall i :: 0 <= i < |arrivals| ==> arrivals[0].seqNo <= arrivals[i].seqNo < arrivals[0].seqNo + |arrivals|)
    && (forall c, d :: c in arrivals && d in arrivals ==> c.tOffsetMs - d.tOffsetMs < windowMs)
  }

  lemma {:induction false} NoGapWithinWindow(arrivals: seq<TranscriptChunk>, windowMs: nat)
    requires forall c, d :: c in arrivals && d in arrivals ==> c.tOffsetMs - d.tOffsetMs < windowMs
    ensures Deliver(arrivals, windowMs).gaps == 0
  {
    if arrivals != [] {
      var before, chunk := arrivals[..|arrivals| - 1], arrivals[|arrivals| - 1];
      assert chunk in arrivals && forall c :: c in before ==> c in arrivals;
      NoGapWithinWindow(before, windowMs);
      NothingIsInvented(before, windowMs);
      EveryRunIsWellFormed(before, windowMs);
    }
  }

  ghost function Interval(lo: nat, n: nat): (r: set<nat>)
    ensures |r| == n && forall k :: k in r <==> lo <= k < lo + n
  {
    if n == 0 then {} else Interval(lo, n - 1) + {lo + n - 1}
  }

  ghost function SeqNos(cs: seq<TranscriptChunk>): (r: set<nat>)
    ensures forall k :: k in r <==> Arrived(cs, k)
    ensures (forall i, j :: 0 <= i < j < |cs| ==> cs[i].seqNo != cs[j].seqNo) ==> |r| == |cs|
  {
    if cs == [] then {}
    else
      var before := SeqNos(cs[..|cs| - 1]);
      assert forall k :: Arrived(cs, k) <==> Arrived(cs[..|cs| - 1], k) || cs[|cs| - 1].seqNo == k by {
        forall k { ArrivedSnoc(cs, k); }
      }
      before + {cs[|cs| - 1].seqNo}
  }

  /** n distinct numbers in a range of length n leave no number of the range out. */
  lemma {:induction false} RangeIsFilled(arrivals: seq<TranscriptChunk>, n: nat)
    requires arrivals != []
    requires forall i, j :: 0 <= i < j < |arrivals| ==> arrivals[i].seqNo != arrivals[j].seqNo
    requires forall i :: 0 <= i < |arrivals| ==> arrivals[0].seqNo <= arrivals[i].seqNo < arrivals[0].seqNo + |arrivals|
    requires arrivals[0].seqNo <= n < arrivals[0].seqNo + |arrivals|
    ensures Arrived(arrivals, n)
  {
    var all, seen := Interval(arrivals[0].seqNo, |arrivals|), SeqNos(arrivals);
    if n !in seen {
      assert seen <= all - {n};
      SubsetIsNoLarger(seen, all - {n});
      assert false;
    }
  }

  /** No hole can be left in the range. */
  lemma {:induction false} NothingStaysHeld(arrivals: seq<TranscriptChunk>, windowMs: nat)
    requires arrivals != [] && WithinWindow(arrivals, windowMs)
    ensures var s := Deliver(arrivals, windowMs).state;
      && Accounted(s, arrivals, arrivals[0].seqNo) && |s.buffer| == |arrivals| && s.pending == map[]
  {
    NoGapWithinWindow(arrivals, windowMs);
    NothingIsLostWithoutAGap(arrivals, windowMs);
    EveryRunIsWellFormed(arrivals, windowMs);
    var s, first := Deliver(arrivals, windowMs).state, arrivals[0].seqNo;
    var next := s.nextSeq.value;
    if next < first + |arrivals| {
      RangeIsFilled(arrivals, next);
      assert false;
    }
    assert forall k :: k in s.pending ==> first <= k && Arrived(arrivals, k);
    assert next > first ==> Arrived(arrivals, first + |s.buffer| - 1);
  }

  /** Every arrival stands at its place. */
  lemma {:induction false} ArrivalsStandInOrder(arrivals: seq<TranscriptChunk>, windowMs: nat, i: nat)
    requires i < |arrivals| && WithinWindow(arrivals, windowMs)
    ensures var s, first := Deliver(arrivals, windowMs).state, arrivals[0].seqNo;
      0 <= arrivals[i].seqNo - first < |arrivals| == |s.buffer| && s.buffer[arrivals[i].seqNo - first] == arrivals[i]
  {
    NothingStaysHeld(arrivals, windowMs);
    NothingIsInvented(arrivals, windowMs);
    var s, first := Deliver(arrivals, windowMs).state, arrivals[0].seqNo;
    var c := s.buffer[arrivals[i].seqNo - first];
    assert c in s.buffer;
    var j :| 0 <= j < |arrivals| && arrivals[j] == c;
  }

  /** Any such arrival order ends with every chunk at its place in the buffer, nothing held and no gap flagged. */
  lemma {:induction false} AnyOrderWithinWindowIsResolved(arrivals: seq<TranscriptChunk>, windowMs: nat)
    requires arrivals != [] && WithinWindow(arrivals, windowMs)
    ensures var o := Deliver(arrivals, windowMs);
      && o.gaps == 0 && o.state.pending == map[] && o.state.gapOpenedAtMs == None
      && |o.state.buffer| == |arrivals| && Increasing(o.state.buffer)
      && forall i :: 0 <= i < |arrivals| ==>
           0 <= arrivals[i].seqNo - arrivals[0].seqNo < |arrivals|
           && o.state.buffer[arrivals[i].seqNo - arrivals[0].seqNo] == arrivals[i]
  {
    NoGapWithinWindow(arrivals, windowMs);
    NothingStaysHeld(arrivals, windowMs);
    EveryRunIsWellFormed(arrivals, windowMs);
    forall i | 0 <= i < |arrivals|
      ensures 0 <= arrivals[i].seqNo - arrivals[0].seqNo < |arrivals|
      ensures Deliver(arrivals, windowMs).state.buffer[arrivals[i].seqNo - arrivals[0].seqNo] == arrivals[i]
    {
      ArrivalsStandInOrder(arrivals, windowMs, i);
    }
  }

  lemma {:induction false} BufferHoldsTheArrivals(a: seq<TranscriptChunk>, windowMs: nat)
    requires a != [] && WithinWindow(a, windowMs)
    ensures forall c :: c in Deliver(a, windowMs).state.buffer <==> c in a
    ensures Increasing(Deliver(a, windowMs).state.buffer)
  {
    AnyOrderWithinWindowIsResolved(a, windowMs);
    NothingIsInvented(a, windowMs);
  }

  lemma {:induction false} IncreasingIsUnique(x: seq<TranscriptChunk>, y: seq<TranscriptChunk>)
    requires Increasing(x) && Increasing(y) && forall c :: c in x <==> c in y
    ensures x == y
  {
    assert x != [] ==> x[0] in y;
    assert y != [] ==> y[0] in x;
    if x != [] && y != [] {
      assert x[0] in y && y[0] in x;
      forall c ensures c in x[1..] <==> c in y[1..] {
        assert c in x <==> c == x[0] || c in x[1..];
        assert c in y <==> c == y[0] || c in y[1..];
      }
      IncreasingIsUnique(x[1..], y[1..]);
    }
  }

  /** Two such orders of the same chunks leave the same transcript. */
  lemma {:induction false} ArrivalOrderIsInvisible(a: seq<TranscriptChunk>, b: seq<TranscriptChunk>, windowMs: nat)
    requires a != [] && WithinWindow(a, windowMs) && b != [] && WithinWindow(b, windowMs)
    requires forall c :: c in a <==> c in b
    ensures Deliver(a, windowMs).state.buffer == Deliver(b, windowMs).state.buffer
  {
    BufferHoldsTheArrivals(a, windowMs);
    BufferHoldsTheArrivals(b, windowMs);
    IncreasingIsUnique(Deliver(a, windowMs).state.buffer, Deliver(b, windowMs).state.buffer);
  }
}
