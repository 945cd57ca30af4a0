/** A document's `chunk_count` against the chunk rows its generation holds (catalog.py): what
    `_require_copied_source` (pipeline.py) relies on when a document is carried over. */
module ChunkCounts {
  import opened Common
  import opened Digest
  import opened Records
  import opened Catalog
  import opened CatalogInvariants
  import opened CatalogChunks
  import opened Planner
  import opened Convergence
  import opened Replanning
  import opened RunSuccess

  /** The chunk rows of one source in one generation. */
  function SourceRows(chunks: Chunks, g: string, id: string): set<Key> {
    set k | k in chunks && k.0 == g && chunks[k].sourceId == id
  }

  /** The source's recorded count is the number of its rows. */
  predicate CountHolds(s: State, g: string, id: string) {
    (g, id) in s.documents ==> s.documents[(g, id)].chunkCount == |SourceRows(s.chunks, g, id)|
  }

  ghost predicate Counted(s: State, g: string) {
    forall id: string :: CountHolds(s, g, id)
  }

  // ----- one `record_chunks` call

  function KeysIn(g: string, ids: set<string>): set<Key> {
    set id | id in ids :: (g, id)
  }

  lemma {:induction false} KeysInSize(g: string, ids: set<string>)
    ensures |KeysIn(g, ids)| == |ids|
  {
    if ids != {} {
      var id :| id in ids;
      KeysInSize(g, ids - {id});
      assert KeysIn(g, ids) == KeysIn(g, ids - {id}) + {(g, id)};
    }
  }

  /** Some chunk of the call takes over a row of a source the call does not mention. */
  ghost predicate Steals(rows: Chunks, g: string, chunks: seq<ChunkInput>) {
    exists c :: c in chunks && (g, c.chunkId) in rows && rows[(g, c.chunkId)].sourceId !in SourcesOf(chunks)
  }

  lemma StoredSteals(rows: Chunks, g: string, chunks: seq<ChunkInput>, k: Key)
    requires k in rows && rows[k].sourceId !in SourcesOf(chunks)
    ensures IsStored(g, chunks, k) ==> Steals(rows, g, chunks)
  {
    if IsStored(g, chunks, k) {
      var c :| Stores(g, chunks, k, c);
      assert c in chunks && (g, c.chunkId) in rows;
    }
  }

  lemma MentionedRows(rows: Chunks, g: string, chunks: seq<ChunkInput>, x: string)
    requires UniqueIds(chunks) && x in SourcesOf(chunks)
    ensures SourceRows(Recorded(rows, g, chunks), g, x) == KeysIn(g, IdsOf(chunks, x))
  {
    var after := Recorded(rows, g, chunks);
    forall k ensures k in SourceRows(after, g, x) <==> k in KeysIn(g, IdsOf(chunks, x)) {
      RecordedRows(rows, g, chunks, k);
      if k in SourceRows(after, g, x) {
        assert Mentioned(after, g, SourcesOf(chunks), k);
        var c :| Stores(g, chunks, k, c);
        assert c.chunkId in IdsOf(chunks, x);
      }
      if k in KeysIn(g, IdsOf(chunks, x)) {
        var c :| c in chunks && c.sourceId == x && k == (g, c.chunkId);
        assert Stores(g, chunks, k, c);
      }
    }
  }

  /** The rows of a source the call does not mention, less those taken over. */
  lemma OtherRows(rows: Chunks, g: string, chunks: seq<ChunkInput>, x: string, k: Key)
    requires UniqueIds(chunks) && x !in SourcesOf(chunks)
    ensures k in SourceRows(Recorded(rows, g, chunks), g, x) <==> k in SourceRows(rows, g, x) && !IsStored(g, chunks, k)
  {
    var kept := WithoutSources(rows, g, SourcesOf(chunks));
    WithRowsMeaning(kept, g, chunks, k);
    if IsStored(g, chunks, k) {
      var c :| Stores(g, chunks, k, c);
      StoredSource(g, chunks, k, c);
    }
  }

  lemma OtherCount(s: State, runId: string, chunks: seq<ChunkInput>, x: string)
    requires RecordChunks(s, runId, chunks).Done? && x !in SourcesOf(chunks)
    requires CountHolds(s, s.runs[runId].generationId, x) && !Steals(s.chunks, s.runs[runId].generationId, chunks)
    ensures CountHolds(RecordChunks(s, runId, chunks).state, s.runs[runId].generationId, x)
  {
    var g := s.runs[runId].generationId;
    var t := RecordChunks(s, runId, chunks).state;
    forall k ensures k in SourceRows(t.chunks, g, x) <==> k in SourceRows(s.chunks, g, x) {
      OtherRows(s.chunks, g, chunks, x, k);
      if k in SourceRows(s.chunks, g, x) { StoredSteals(s.chunks, g, chunks, k); }
    }
    assert SourceRows(t.chunks, g, x) == SourceRows(s.chunks, g, x);
  }

  lemma MentionedCount(s: State, runId: string, chunks: seq<ChunkInput>, x: string)
    requires RecordChunks(s, runId, chunks).Done? && x in SourcesOf(chunks)
    ensures CountHolds(RecordChunks(s, runId, chunks).state, s.runs[runId].generationId, x)
  {
    var g := s.runs[runId].generationId;
    ChunkManifest(s, runId, chunks);
    MentionedRows(s.chunks, g, chunks, x);
    KeysInSize(g, IdsOf(chunks, x));
  }

  lemma StolenCount(s: State, runId: string, chunks: seq<ChunkInput>, c: ChunkInput)
    requires RecordChunks(s, runId, chunks).Done? && c in chunks
    requires var g := s.runs[runId].generationId;
      && (g, c.chunkId) in s.chunks && s.chunks[(g, c.chunkId)].sourceId !in SourcesOf(chunks)
      && (g, s.chunks[(g, c.chunkId)].sourceId) in s.documents
      && CountHolds(s, g, s.chunks[(g, c.chunkId)].sourceId)
    ensures var g := s.runs[runId].generationId;
      !CountHolds(RecordChunks(s, runId, chunks).state, g, s.chunks[(g, c.chunkId)].sourceId)
  {
    var g := s.runs[runId].generationId;
    var t := RecordChunks(s, runId, chunks).state;
    var x := s.chunks[(g, c.chunkId)].sourceId;
    var before, after := SourceRows(s.chunks, g, x), SourceRows(t.chunks, g, x);
    forall k | k in after ensures k in before - {(g, c.chunkId)} {
      OtherRows(s.chunks, g, chunks, x, k);
      assert k == (g, c.chunkId) ==> Stores(g, chunks, k, c);
    }
    SubsetCard(after, before - {(g, c.chunkId)});
  }

  /** After a call every count is right again exactly when no chunk of it takes over a row of a
      source it does not mention: such a row changes owner, and its old source keeps its count. */
  lemma CountsAfterChunks(s: State, runId: string, chunks: seq<ChunkInput>)
    requires RecordChunks(s, runId, chunks).Done? && Referenced(s.generations, s.documents, s.chunks)
    requires Counted(s, s.runs[runId].generationId)
    ensures Counted(RecordChunks(s, runId, chunks).state, s.runs[runId].generationId)
       <==> !Steals(s.chunks, s.runs[runId].generationId, chunks)
  {
    var g := s.runs[runId].generationId;
    if Steals(s.chunks, g, chunks) {
      var c :| c in chunks && (g, c.chunkId) in s.chunks && s.chunks[(g, c.chunkId)].sourceId !in SourcesOf(chunks);
      StolenCount(s, runId, chunks, c);
    } else {
      forall x: string ensures CountHolds(RecordChunks(s, runId, chunks).state, g, x) {
        if x in SourcesOf(chunks) { MentionedCount(s, runId, chunks, x); } else { OtherCount(s, runId, chunks, x); }
      }
    }
  }

  /** One chunk whose ID another source's row holds is accepted, and that source's count is then wrong. */
  lemma StealBreaks(s: State, runId: string, c: ChunkInput)
    requires Writable(s, runId) && c.kbId == s.runs[runId].kbId
    requires Referenced(s.generations, s.documents, s.chunks) && Counted(s, s.runs[runId].generationId)
    requires var g := s.runs[runId].generationId;
      (g, c.sourceId) in s.documents && (g, c.chunkId) in s.chunks && s.chunks[(g, c.chunkId)].sourceId != c.sourceId
    ensures var o := RecordChunks(s, runId, [c]); o.Done? && !Counted(o.state, s.runs[runId].generationId)
  {
    assert [c][0] == c && c in [c] && SourcesOf([c]) == {c.sourceId};
    CountsAfterChunks(s, runId, [c]);
  }

  // ----- the actions of a run

  /** The document an action carries over is listed with the count its row holds. */
  ghost predicate CarriesCounted(s: State, g: string, a: SyncAction) {
    Carries(a) && a.previous.Some? ==>
      var d := a.previous.value;
      && d.generationId != g && Counted(s, d.generationId) && (d.generationId, d.sourceId) in s.documents
      && s.documents[(d.generationId, d.sourceId)].chunkCount == d.chunkCount
  }

  lemma {:induction false} MovedSize(keys: set<Key>, from: string, to: string)
    requires forall k | k in keys :: k.0 == from
    ensures |set k | k in keys :: (to, k.1)| == |keys|
  {
    if keys != {} {
      var k :| k in keys;
      MovedSize(keys - {k}, from, to);
      var rest: set<Key> := set l | l in keys - {k} :: (to, l.1);
      forall l | l in keys - {k} ensures l.1 != k.1 { assert l.0 == k.0; }
      assert (set l | l in keys :: (to, l.1)) == rest + {(to, k.1)};
    }
  }

  lemma CopiedSource(chunks: Chunks, from: string, sourceId: string, to: string)
    requires from != to && SourceRows(chunks, to, sourceId) == {} && !ChunkClash(chunks, from, sourceId, to)
    ensures var all := chunks + CopiedRows(chunks, from, sourceId, to);
      SourceRows(all, to, sourceId) == set k | k in SourceRows(chunks, from, sourceId) :: (to, k.1)
  {
    var copied := CopiedRows(chunks, from, sourceId, to);
    var all := chunks + copied;
    forall k ensures k in SourceRows(all, to, sourceId) <==> k in copied {
      assert k !in SourceRows(chunks, to, sourceId);
      if k in copied { assert (from, k.1) in chunks && copied[k] == chunks[(from, k.1)]; }
    }
    forall k | k in copied ensures (from, k.1) in SourceRows(chunks, from, sourceId) {}
  }

  lemma CopiedOthers(chunks: Chunks, from: string, sourceId: string, to: string, g: string, id: string)
    requires !ChunkClash(chunks, from, sourceId, to) && (g != to || id != sourceId)
    ensures SourceRows(chunks + CopiedRows(chunks, from, sourceId, to), g, id) == SourceRows(chunks, g, id)
  {
    var copied := CopiedRows(chunks, from, sourceId, to);
    forall k | k in copied ensures k.0 == to && copied[k].sourceId == sourceId && k !in chunks {
      assert (from, k.1) in chunks;
    }
  }

  lemma NoRows(s: State, g: string, id: string)
    requires Referenced(s.generations, s.documents, s.chunks) && (g, id) !in s.documents
    ensures SourceRows(s.chunks, g, id) == {}
  {
    assert forall k | k in s.chunks :: (k.0, s.chunks[k].sourceId) in s.documents;
  }

  lemma CarryCounts(s: State, runId: string, d: ManifestDocument, override: Option<Pipeline>)
    requires Carry(s, runId, d, override).Done? && Referenced(s.generations, s.documents, s.chunks)
    requires Counted(s, s.runs[runId].generationId) && d.generationId != s.runs[runId].generationId
    requires CountHolds(s, d.generationId, d.sourceId)
    requires s.documents[(d.generationId, d.sourceId)].chunkCount == d.chunkCount
    ensures Counted(Carry(s, runId, d, override).state, s.runs[runId].generationId)
  {
    var g := s.runs[runId].generationId;
    var t := Carry(s, runId, d, override).state;
    NoRows(s, g, d.sourceId);
    CopiedSource(s.chunks, d.generationId, d.sourceId, g);
    MovedSize(SourceRows(s.chunks, d.generationId, d.sourceId), d.generationId, g);
    forall id: string ensures CountHolds(t, g, id) {
      if id != d.sourceId {
        CopiedOthers(s.chunks, d.generationId, d.sourceId, g, g, id);
        assert CountHolds(s, g, id);
      }
    }
  }

  /** `record_document`, then `record_chunks` for the same source. */
  lemma RecordCounts(s: State, runId: string, source: Source, pipeline: Pipeline, chunks: seq<ChunkInput>, owner: Owner)
    requires Record(s, runId, source, pipeline, |chunks|).Done? && Referenced(s.generations, s.documents, s.chunks)
    requires var r := Record(s, runId, source, pipeline, |chunks|).state; RecordChunks(r, runId, chunks).Done?
    requires var g := s.runs[runId].generationId; Counted(s, g) && (g, source.sourceId) !in s.documents
    requires OwnedRows(s.chunks, owner)
    requires forall c | c in chunks :: c.sourceId == source.sourceId && owner(c.chunkId) == source.sourceId
    ensures var r := Record(s, runId, source, pipeline, |chunks|).state;
      Counted(RecordChunks(r, runId, chunks).state, s.runs[runId].generationId)
  {
    var g := s.runs[runId].generationId;
    var r := Record(s, runId, source, pipeline, |chunks|).state;
    NoRows(s, g, source.sourceId);
    assert !Steals(r.chunks, g, chunks);
    CountAll(chunks, source.sourceId);
    forall x: string ensures CountHolds(RecordChunks(r, runId, chunks).state, g, x) {
      if x in SourcesOf(chunks) {
        MentionedCount(r, runId, chunks, x);
      } else {
        assert CountHolds(s, g, x);
        OtherCount(r, runId, chunks, x);
      }
    }
  }

  ghost predicate OwnedTable(table: ChunkTable, owner: Owner) {
    Owned(table) && forall id, c | id in table && c in table[id] :: owner(c.chunkId) == id
  }

  /** A performed action leaves every count of the new generation right. */
  lemma PerformCounts(
    s: State, runId: string, g: string, kbId: string, a: SyncAction, pipeline: Pipeline, table: ChunkTable,
    owner: Owner)
    requires RunsIn(s, runId, g, kbId) && Coherent(a, pipeline) && Referenced(s.generations, s.documents, s.chunks)
    requires OwnedTable(table, owner) && OwnedRows(s.chunks, owner)
    requires Counted(s, g) && CarriesCounted(s, g, a) && (a.change != Deleted ==> (g, a.sourceId) !in s.documents)
    requires Perform(s, runId, a, pipeline, table).ok
    ensures Counted(Perform(s, runId, a, pipeline, table).state, g)
  {
    if a.change == Deleted {
    } else if Carries(a) {
      CarryCounts(s, runId, a.previous.value, if a.change == Unchanged then None else Some(pipeline));
    } else {
      RecordCounts(s, runId, a.source.value, pipeline, table[a.sourceId], owner);
    }
  }

  /** Whatever becomes of an action, every row still belongs to its chunk ID's source. */
  lemma PerformOwned(s: State, runId: string, a: SyncAction, pipeline: Pipeline, table: ChunkTable, owner: Owner)
    requires OwnedTable(table, owner) && OwnedRows(s.chunks, owner)
    ensures OwnedRows(Perform(s, runId, a, pipeline, table).state.chunks, owner)
  {
    if a.change == Unchanged {
      if a.previous.Some? { CarryOwned(s, runId, a.previous.value, None, owner); }
    } else if a.change == Deleted {
    } else if a.startStage == IndexStage && a.previous.Some? {
      CarryOwned(s, runId, a.previous.value, Some(pipeline), owner);
    } else if a.source.Some? && a.source.value.sourceId in table {
      var chunks := table[a.source.value.sourceId];
      var r := After(s, Record(s, runId, a.source.value, pipeline, |chunks|));
      assert r.chunks == s.chunks;
      ChunksOwned(r, runId, chunks, owner);
    }
  }

  lemma CarryOwned(s: State, runId: string, d: ManifestDocument, override: Option<Pipeline>, owner: Owner)
    requires OwnedRows(s.chunks, owner)
    ensures OwnedRows(After(s, Carry(s, runId, d, override)).chunks, owner)
  {
    if runId in s.runs { CopiedOwned(s.chunks, d.generationId, d.sourceId, s.runs[runId].generationId, owner); }
  }

  lemma ChunksOwned(s: State, runId: string, chunks: seq<ChunkInput>, owner: Owner)
    requires OwnedRows(s.chunks, owner) && forall c | c in chunks :: owner(c.chunkId) == c.sourceId
    ensures OwnedRows(After(s, RecordChunks(s, runId, chunks)).chunks, owner)
  {
    if runId in s.runs {
      var g := s.runs[runId].generationId;
      WithoutOwned(s.chunks, g, SourcesOf(chunks), owner);
      WithRowsOwned(WithoutSources(s.chunks, g, SourcesOf(chunks)), g, chunks, owner);
    }
  }
}
