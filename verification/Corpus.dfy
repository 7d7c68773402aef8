/** From a corpus's document files to the chunks an ingestion attempt is to bring about (_prepare). */
module Corpus {
  import opened Collections
  import opened Options
  import opened Tokens
  import opened Documents
  import opened CitationTags
  import opened Ingestion

  /** A supported file: its path without the extension, and its text. */
  datatype File = File(stem: string, text: string)

  datatype Loaded = Loaded(docId: string, sections: seq<Section>)

  datatype Limits = Limits(maxTokens: nat, overlapTokens: nat)

  // ----- Specification -----

  /** The documents in the order of their files, those without content left out. */
  function LoadedFrom(files: seq<File>, al: Alphabet): seq<Loaded> {
    if files == [] then []
    else
      var before, last := LoadedFrom(files[..|files| - 1], al), files[|files| - 1];
      var sections := SectionsOf(last.text, al);
      if sections == [] then before else before + [Loaded(DocId(last.stem), sections)]
  }

  /** No two documents share an id. */
  ghost predicate DistinctDocs(docs: seq<Loaded>) {
    forall i, j :: 0 <= i < j < |docs| ==> docs[i].docId != docs[j].docId
  }

  /** What the ids of a document's chunks are made of. */
  function KeysOf(corpusId: string, docId: string, shown: seq<(nat, string, nat)>): (keys: seq<ChunkKey>)
    ensures |keys| == |shown|
    ensures forall i :: 0 <= i < |keys| ==>
      keys[i] == ChunkKey(corpusId, docId, SectionLabel(shown[i].0), shown[i].2, shown[i].1)
  {
    seq(|shown|, i requires 0 <= i < |shown| =>
      ChunkKey(corpusId, docId, SectionLabel(shown[i].0), shown[i].2, shown[i].1))
  }

  function KeysOfDocument(corpusId: string, doc: Loaded, limits: Limits, al: Alphabet): seq<ChunkKey>
    requires al.Valid()
  {
    KeysOf(corpusId, doc.docId, ChunkTexts(ChunksOf(doc.sections, limits.maxTokens, limits.overlapTokens, al)))
  }

  function KeysOfAll(corpusId: string, docs: seq<Loaded>, limits: Limits, al: Alphabet): seq<ChunkKey>
    requires al.Valid()
  {
    if docs == [] then []
    else KeysOfAll(corpusId, docs[..|docs| - 1], limits, al) + KeysOfDocument(corpusId, docs[|docs| - 1], limits, al)
  }

  // ----- Chunks of distinct documents have distinct ids -----

  lemma {:induction false} KeysOfOneDiffer(corpusId: string, doc: Loaded, limits: Limits, al: Alphabet)
    requires al.Valid()
    ensures var keys := KeysOfDocument(corpusId, doc, limits, al);
      forall i :: 0 <= i < |keys| ==> keys[i].corpusId == corpusId && keys[i].docId == doc.docId && keys[i].index == i
  {
    ChunksAreNumbered(doc.sections, limits.maxTokens, limits.overlapTokens, al);
  }

  ghost predicate IsOf(k: ChunkKey, corpusId: string, docs: seq<Loaded>) {
    k.corpusId == corpusId && exists d :: 0 <= d < |docs| && docs[d].docId == k.docId
  }

  ghost predicate AllOf(keys: seq<ChunkKey>, corpusId: string, docs: seq<Loaded>) {
    forall i :: 0 <= i < |keys| ==> IsOf(keys[i], corpusId, docs)
  }

  lemma {:induction false} StillOf(keys: seq<ChunkKey>, corpusId: string, docs: seq<Loaded>, doc: Loaded)
    requires AllOf(keys, corpusId, docs)
    ensures AllOf(keys, corpusId, docs + [doc])
  {
    forall i | 0 <= i < |keys| ensures IsOf(keys[i], corpusId, docs + [doc]) {
      assert IsOf(keys[i], corpusId, docs);
      var d :| 0 <= d < |docs| && docs[d].docId == keys[i].docId;
      assert (docs + [doc])[d].docId == keys[i].docId;
    }
  }

  lemma {:induction false} KeysOfOneAreOf(corpusId: string, docs: seq<Loaded>, doc: Loaded, limits: Limits,
                                          al: Alphabet)
    requires al.Valid()
    ensures AllOf(KeysOfDocument(corpusId, doc, limits, al), corpusId, docs + [doc])
  {
    KeysOfOneDiffer(corpusId, doc, limits, al);
    assert (docs + [doc])[|docs|] == doc;
  }

  lemma {:induction false} KeysAreOfTheDocuments(corpusId: string, docs: seq<Loaded>, limits: Limits, al: Alphabet)
    requires al.Valid()
    ensures AllOf(KeysOfAll(corpusId, docs, limits, al), corpusId, docs)
  {
    if docs != [] {
      var before, last := docs[..|docs| - 1], docs[|docs| - 1];
      KeysAreOfTheDocuments(corpusId, before, limits, al);
      StillOf(KeysOfAll(corpusId, before, limits, al), corpusId, before, last);
      KeysOfOneAreOf(corpusId, before, last, limits, al);
      assert before + [last] == docs;
    }
  }

  ghost predicate Distinct<T>(s: seq<T>) {
    forall i, j :: 0 <= i < j < |s| ==> s[i] != s[j]
  }

  lemma {:induction false} OtherDocumentsKeys(keys: seq<ChunkKey>, more: seq<ChunkKey>, corpusId: string,
                                              docs: seq<Loaded>, doc: Loaded)
    requires AllOf(keys, corpusId, docs) && DistinctDocs(docs + [doc]) && Distinct(keys) && Distinct(more)
    requires forall j :: 0 <= j < |more| ==> more[j].docId == doc.docId
    ensures Distinct(keys + more)
  {
    forall i | 0 <= i < |keys| ensures keys[i].docId != doc.docId {
      assert IsOf(keys[i], corpusId, docs);
      var d :| 0 <= d < |docs| && docs[d].docId == keys[i].docId;
      assert (docs + [doc])[d].docId != (docs + [doc])[|docs|].docId;
    }
  }

  lemma {:induction false} KeysAreDistinct(corpusId: string, docs: seq<Loaded>, limits: Limits, al: Alphabet)
    requires al.Valid() && DistinctDocs(docs)
    ensures Distinct(KeysOfAll(corpusId, docs, limits, al))
  {
    if docs != [] {
      var before, last := docs[..|docs| - 1], docs[|docs| - 1];
      assert before + [last] == docs;
      KeysAreDistinct(corpusId, before, limits, al);
      KeysAreOfTheDocuments(corpusId, before, limits, al);
      KeysOfOneDiffer(corpusId, last, limits, al);
      OtherDocumentsKeys(KeysOfAll(corpusId, before, limits, al), KeysOfDocument(corpusId, last, limits, al), corpusId,
        before, last);
    }
  }

  /** Whatever documents of distinct ids a corpus holds, its chunks make a valid target of ingestion. */
  lemma {:induction false} DistinctDocumentsMakeATarget(corpusId: string, docs: seq<Loaded>, limits: Limits,
                                                        al: Alphabet, model: Model)
    requires al.Valid() && DistinctDocs(docs)
    ensures Target(corpusId, KeysOfAll(corpusId, docs, limits, al), model).Valid()
  {
    var keys := KeysOfAll(corpusId, docs, limits, al);
    KeysAreDistinct(corpusId, docs, limits, al);
    KeysAreOfTheDocuments(corpusId, docs, limits, al);
    assert forall i :: 0 <= i < |keys| ==> IsOf(keys[i], corpusId, docs);
  }

  // ----- The loops -----

  // ----- What the target holds -----

  /** The key is that of one of the file's chunks: under its document's id and its section's label, with its text. */
  ghost predicate IsKeyOf(k: ChunkKey, corpusId: string, f: File, limits: Limits, al: Alphabet)
    requires al.Valid()
  {
    var chunks := ChunksOf(SectionsOf(f.text, al), limits.maxTokens, limits.overlapTokens, al);
    exists i :: 0 <= i < |chunks| && IsKeyOfChunk(k, corpusId, f, chunks[i])
  }

  ghost predicate IsKeyOfChunk(k: ChunkKey, corpusId: string, f: File, c: Chunk) {
    && k.corpusId == corpusId && k.docId == DocId(f.stem) && k.section == SectionLabel(c.labelNo) && k.index == c.index
    && k.text == if c.title == "" then c.piece.text else c.title + "\n\n" + c.piece.text
  }

  lemma {:induction false} TextOfAChunk(title: string, piece: string)
    ensures ChunkText(title, piece) == if title == "" then piece else title + "\n\n" + piece
  {
    ConcatIsAssociative(title, "\n\n", piece);
  }

  lemma {:induction false} KeyAt(corpusId: string, f: File, limits: Limits, al: Alphabet, i: nat)
    requires al.Valid() && i < |ChunksOf(SectionsOf(f.text, al), limits.maxTokens, limits.overlapTokens, al)|
    ensures var c := ChunksOf(SectionsOf(f.text, al), limits.maxTokens, limits.overlapTokens, al)[i];
      var keys := KeysOfDocument(corpusId, Loaded(DocId(f.stem), SectionsOf(f.text, al)), limits, al);
      i < |keys| && forall k :: k == keys[i] <==> IsKeyOfChunk(k, corpusId, f, c)
  {
    var c := ChunksOf(SectionsOf(f.text, al), limits.maxTokens, limits.overlapTokens, al)[i];
    TextOfAChunk(c.title, c.piece.text);
  }

  lemma {:induction false} KeysOfDocumentAre(corpusId: string, f: File, limits: Limits, al: Alphabet, k: ChunkKey)
    requires al.Valid()
    ensures k in KeysOfDocument(corpusId, Loaded(DocId(f.stem), SectionsOf(f.text, al)), limits, al) <==>
      IsKeyOf(k, corpusId, f, limits, al)
  {
    var keys := KeysOfDocument(corpusId, Loaded(DocId(f.stem), SectionsOf(f.text, al)), limits, al);
    if k in keys {
      var i :| 0 <= i < |keys| && keys[i] == k;
      KeyAt(corpusId, f, limits, al, i);
    } else if IsKeyOf(k, corpusId, f, limits, al) {
      KeyIsListed(k, corpusId, f, limits, al);
    }
  }

  lemma {:induction false} KeyIsListed(k: ChunkKey, corpusId: string, f: File, limits: Limits, al: Alphabet)
    requires al.Valid() && IsKeyOf(k, corpusId, f, limits, al)
    ensures k in KeysOfDocument(corpusId, Loaded(DocId(f.stem), SectionsOf(f.text, al)), limits, al)
  {
    var chunks := ChunksOf(SectionsOf(f.text, al), limits.maxTokens, limits.overlapTokens, al);
    var i :| 0 <= i < |chunks| && IsKeyOfChunk(k, corpusId, f, chunks[i]);
    KeyAt(corpusId, f, limits, al, i);
  }

  /** One more file adds its document's keys; one without sections has none. */
  lemma {:induction false} KeysOfMoreFiles(corpusId: string, before: seq<File>, f: File, limits: Limits, al: Alphabet,
                                           k: ChunkKey)
    requires al.Valid()
    ensures k in KeysOfAll(corpusId, LoadedFrom(before + [f], al), limits, al) <==>
      k in KeysOfAll(corpusId, LoadedFrom(before, al), limits, al)
      || k in KeysOfDocument(corpusId, Loaded(DocId(f.stem), SectionsOf(f.text, al)), limits, al)
  {
    var docs, doc := LoadedFrom(before, al), Loaded(DocId(f.stem), SectionsOf(f.text, al));
    assert (before + [f])[..|before|] == before;
    if doc.sections != [] {
      assert (docs + [doc])[..|docs|] == docs;
    }
  }

  ghost predicate InSomeFile(k: ChunkKey, corpusId: string, files: seq<File>, limits: Limits, al: Alphabet)
    requires al.Valid()
  {
    exists f :: f in files && IsKeyOf(k, corpusId, f, limits, al)
  }

  lemma {:induction false} InOneOfMoreFiles(k: ChunkKey, corpusId: string, before: seq<File>, f: File, limits: Limits,
                                            al: Alphabet)
    requires al.Valid()
    ensures InSomeFile(k, corpusId, before + [f], limits, al) <==>
      InSomeFile(k, corpusId, before, limits, al) || IsKeyOf(k, corpusId, f, limits, al)
  {
    assert forall g :: g in before + [f] <==> g in before || g == f;
  }

  /** The target's chunks are exactly those of the files, each under its document's id and its section's label. */
  lemma {:induction false} TheTargetHoldsEveryChunk(corpusId: string, files: seq<File>, limits: Limits, al: Alphabet,
                                                    k: ChunkKey)
    requires al.Valid()
    ensures k in KeysOfAll(corpusId, LoadedFrom(files, al), limits, al) <==>
      InSomeFile(k, corpusId, files, limits, al)
  {
    if files != [] {
      var before, last := files[..|files| - 1], files[|files| - 1];
      assert files == before + [last];
      TheTargetHoldsEveryChunk(corpusId, before, limits, al, k);
      KeysOfMoreFiles(corpusId, before, last, limits, al, k);
      KeysOfDocumentAre(corpusId, last, limits, al, k);
      InOneOfMoreFiles(k, corpusId, before, last, limits, al);
    }
  }

  ghost predicate SeenAre(seen: set<string>, docs: seq<Loaded>) {
    forall id :: id in seen <==> exists d :: 0 <= d < |docs| && docs[d].docId == id
  }

  lemma {:induction false} SeeOneMore(seen: set<string>, docs: seq<Loaded>, doc: Loaded)
    requires SeenAre(seen, docs)
    ensures SeenAre(seen + {doc.docId}, docs + [doc])
    ensures DistinctDocs(docs + [doc]) <==> DistinctDocs(docs) && doc.docId !in seen
  {
    var all := docs + [doc];
    forall id ensures id in seen + {doc.docId} <==> exists d :: 0 <= d < |all| && all[d].docId == id {
      if id in seen {
        var d :| 0 <= d < |docs| && docs[d].docId == id;
        assert all[d].docId == id;
      }
      assert all[|docs|].docId == doc.docId;
    }
    DistinctWithOneMore(docs, doc);
    assert doc.docId in seen <==> exists d :: 0 <= d < |docs| && docs[d].docId == doc.docId;
  }

  lemma {:induction false} DistinctWithOneMore(docs: seq<Loaded>, doc: Loaded)
    ensures DistinctDocs(docs + [doc]) <==>
      DistinctDocs(docs) && forall d :: 0 <= d < |docs| ==> docs[d].docId != doc.docId
  {
    var all := docs + [doc];
    assert forall d :: 0 <= d < |docs| ==> all[d] == docs[d];
    if DistinctDocs(all) {
      forall d | 0 <= d < |docs| ensures docs[d].docId != doc.docId {
        assert all[d].docId != all[|docs|].docId;
      }
      forall i, j | 0 <= i < j < |docs| ensures docs[i].docId != docs[j].docId {
        assert all[i].docId != all[j].docId;
      }
    }
  }

  lemma {:induction false} PrefixesAreDistinct(files: seq<File>, n: nat, al: Alphabet)
    requires n <= |files| && DistinctDocs(LoadedFrom(files, al))
    ensures DistinctDocs(LoadedFrom(files[..n], al))
    decreases |files|
  {
    if n < |files| {
      var before := files[..|files| - 1];
      assert before[..n] == files[..n];
      assert LoadedFrom(before, al) <= LoadedFrom(files, al);
      PrefixesAreDistinct(before, n, al);
    } else {
      assert files[..n] == files;
    }
  }

  /** The loop over the files, which refuses a second document of one id. */
  method Load(files: seq<File>, al: Alphabet) returns (loaded: Option<seq<Loaded>>)
    ensures loaded == if DistinctDocs(LoadedFrom(files, al)) then Some(LoadedFrom(files, al)) else None
  {
    var docs: seq<Loaded>, seen := [], {};
    for n := 0 to |files|
      invariant docs == LoadedFrom(files[..n], al) && DistinctDocs(docs) && SeenAre(seen, docs)
    {
      var sections := SplitSections(files[n].text, al);
      if sections != [] {
        var doc := Loaded(DocId(files[n].stem), sections);
        SeeOneMore(seen, docs, doc);
        LoadedNext(files, n, al);
        if doc.docId in seen {
          TwoShareAnId(files, n + 1, al);
          return None;
        }
        docs, seen := docs + [doc], seen + {doc.docId};
      } else {
        LoadedNext(files, n, al);
      }
    }
    WholePrefix(files);
    loaded := Some(docs);
  }

  lemma {:induction false} LoadedNext(files: seq<File>, n: nat, al: Alphabet)
    requires n < |files|
    ensures var sections := SectionsOf(files[n].text, al);
      LoadedFrom(files[..n + 1], al) == LoadedFrom(files[..n], al) +
        if sections == [] then [] else [Loaded(DocId(files[n].stem), sections)]
  {
    assert files[..n + 1][..n] == files[..n];
    assert LoadedFrom(files[..n], al) + [] == LoadedFrom(files[..n], al);
  }

  lemma {:induction false} TwoShareAnId(files: seq<File>, n: nat, al: Alphabet)
    requires n <= |files| && !DistinctDocs(LoadedFrom(files[..n], al))
    ensures !DistinctDocs(LoadedFrom(files, al))
  {
    if DistinctDocs(LoadedFrom(files, al)) { PrefixesAreDistinct(files, n, al); }
  }

  /** The loop over the loaded documents. */
  method ChunkAll(corpusId: string, docs: seq<Loaded>, limits: Limits, al: Alphabet) returns (keys: seq<ChunkKey>)
    requires al.Valid()
    ensures keys == KeysOfAll(corpusId, docs, limits, al)
  {
    keys := [];
    for n := 0 to |docs|
      invariant keys == KeysOfAll(corpusId, docs[..n], limits, al)
    {
      assert docs[..n + 1][..n] == docs[..n];
      var shown := ChunkDocument(docs[n].sections, limits.maxTokens, limits.overlapTokens, al);
      keys := keys + KeysOf(corpusId, docs[n].docId, shown);
    }
    WholePrefix(docs);
  }

  /** _prepare: a corpus is refused exactly when two documents share an id or no chunk results. */
  method Prepare(corpusId: string, files: seq<File>, limits: Limits, al: Alphabet)
    returns (prepared: Option<seq<ChunkKey>>)
    requires al.Valid()
    ensures var docs := LoadedFrom(files, al);
      prepared.None? <==> !DistinctDocs(docs) || KeysOfAll(corpusId, docs, limits, al) == []
    ensures prepared.Some? ==> prepared.value == KeysOfAll(corpusId, LoadedFrom(files, al), limits, al)
    ensures prepared.Some? ==> forall model :: Target(corpusId, prepared.value, model).Valid()
  {
    var loaded := Load(files, al);
    if loaded.None? {
      return None;
    }
    var keys := ChunkAll(corpusId, loaded.value, limits, al);
    if keys == [] {
      return None;
    }
    forall model ensures Target(corpusId, keys, model).Valid() {
      DistinctDocumentsMakeATarget(corpusId, loaded.value, limits, al, model);
    }
    prepared := Some(keys);
  }

  /** ingest_corpus from the files on: a refusal writes nothing, and any other run is an attempt at a valid target. */
  method IngestFiles(stores: Stores, corpusId: string, files: seq<File>, limits: Limits, al: Alphabet, model: Model,
                     force: bool)
    returns (status: Status)
    requires al.Valid()
    modifies stores
    ensures var docs := LoadedFrom(files, al);
      var t := Target(corpusId, KeysOfAll(corpusId, docs, limits, al), model);
      if !DistinctDocs(docs) || t.chunks == [] then status == Refused && stores.State() == old(stores.State())
      else
        var d := old(stores.State());
        && t.Valid() && status != Refused && Attempt(d, stores.State(), t, force, status)
        && (status.Crashed? ==> DiesAfter(status.at, old(stores.left), d, t))
        && (status.Crashed? ==> old(stores.left) <= |t.chunks| + |Stale(d.dense, t)| + 2)
        && (status.Ingested? ==> old(stores.left) > |t.chunks| + |Stale(d.dense, t)| + 2)
  {
    var prepared := Prepare(corpusId, files, limits, al);
    status := IngestCorpus(stores, corpusId, prepared, model, force);
  }
}
