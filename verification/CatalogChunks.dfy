/** What one `record_chunks` call leaves behind (catalog.py): the complete chunk manifest of every
    source it mentions, whatever was recorded before. */
module CatalogChunks {
  import opened Common
  import opened Digest
  import opened Records
  import opened Catalog
  import opened CatalogInvariants

  /** Chunk `c` of the list is stored under `k`. */
  predicate Stores(g: string, chunks: seq<ChunkInput>, k: Key, c: ChunkInput) {
    c in chunks && k == (g, c.chunkId)
  }

  ghost predicate IsStored(g: string, chunks: seq<ChunkInput>, k: Key) {
    exists c :: Stores(g, chunks, k, c)
  }

  lemma LastUnique(chunks: seq<ChunkInput>)
    requires UniqueIds(chunks) && chunks != []
    ensures var n := |chunks| - 1;
      UniqueIds(chunks[..n]) && forall c | c in chunks[..n] :: c.chunkId != chunks[n].chunkId
  {
  }

  /** The inserted rows win, all others stay. */
  lemma {:induction false} WithRowsMeaning(rows: Chunks, g: string, chunks: seq<ChunkInput>, k: Key)
    requires UniqueIds(chunks)
    ensures k in WithRows(rows, g, chunks) <==> k in rows || IsStored(g, chunks, k)
    ensures k in rows && !IsStored(g, chunks, k) ==> WithRows(rows, g, chunks)[k] == rows[k]
    ensures forall c | Stores(g, chunks, k, c) :: WithRows(rows, g, chunks)[k] == RowOf(c)
  {
    if chunks != [] {
      var n := |chunks| - 1;
      var earlier, last := chunks[..n], chunks[n];
      assert chunks == earlier + [last];
      WithRowsMeaning(rows, g, earlier, k);
      LastUnique(chunks);
      forall c ensures Stores(g, chunks, k, c) <==> Stores(g, earlier, k, c) || (c == last && k == (g, last.chunkId)) {}
      assert k == (g, last.chunkId) ==> Stores(g, chunks, k, last);
      assert IsStored(g, chunks, k) <==> IsStored(g, earlier, k) || k == (g, last.chunkId);
    }
  }

  /** The rows of generation `g` that belong to one of the given sources. */
  predicate Mentioned(rows: Chunks, g: string, sources: set<string>, k: Key) {
    k in rows && k.0 == g && rows[k].sourceId in sources
  }

  lemma StoredSource(g: string, chunks: seq<ChunkInput>, k: Key, c: ChunkInput)
    requires Stores(g, chunks, k, c)
    ensures RowOf(c).sourceId in SourcesOf(chunks)
  {
  }

  function Recorded(rows: Chunks, g: string, chunks: seq<ChunkInput>): Chunks {
    WithRows(WithoutSources(rows, g, SourcesOf(chunks)), g, chunks)
  }

  /** After the call the mentioned sources have exactly the given rows: nothing stale remains. */
  lemma RecordedRows(rows: Chunks, g: string, chunks: seq<ChunkInput>, k: Key)
    requires UniqueIds(chunks)
    ensures Mentioned(Recorded(rows, g, chunks), g, SourcesOf(chunks), k) <==> IsStored(g, chunks, k)
    ensures forall c | Stores(g, chunks, k, c) ::
      k in Recorded(rows, g, chunks) && Recorded(rows, g, chunks)[k] == RowOf(c)
  {
    var kept := WithoutSources(rows, g, SourcesOf(chunks));
    WithRowsMeaning(kept, g, chunks, k);
    if IsStored(g, chunks, k) {
      var c :| Stores(g, chunks, k, c);
      StoredSource(g, chunks, k, c);
    }
  }

  lemma RecordedTwice(rows: Chunks, g: string, chunks: seq<ChunkInput>)
    requires UniqueIds(chunks)
    ensures Recorded(Recorded(rows, g, chunks), g, chunks) == Recorded(rows, g, chunks)
  {
    var once := Recorded(rows, g, chunks);
    var kept := WithoutSources(once, g, SourcesOf(chunks));
    var twice := Recorded(once, g, chunks);
    forall k: Key ensures SameRow(once, twice, k) {
      RecordedRows(rows, g, chunks, k);
      WithRowsMeaning(kept, g, chunks, k);
      if IsStored(g, chunks, k) {
        var c :| Stores(g, chunks, k, c);
        assert once[k] == RowOf(c) == twice[k];
      }
    }
    assert forall k :: k in once <==> k in twice by {
      forall k ensures k in once <==> k in twice { assert SameRow(once, twice, k); }
    }
    assert forall k | k in once :: once[k] == twice[k] by {
      forall k | k in once ensures once[k] == twice[k] { assert SameRow(once, twice, k); }
    }
  }

  // ----- counts

  function IdsOf(chunks: seq<ChunkInput>, sourceId: string): set<string> {
    set c | c in chunks && c.sourceId == sourceId :: c.chunkId
  }

  lemma IdsSnoc(earlier: seq<ChunkInput>, last: ChunkInput, sourceId: string)
    ensures IdsOf(earlier + [last], sourceId) == IdsOf(earlier, sourceId) + if last.sourceId == sourceId
      then {last.chunkId} else {}
  {
  }

  /** The stored count is the number of different chunk IDs of the source. */
  lemma {:induction false} CountIds(chunks: seq<ChunkInput>, sourceId: string)
    requires UniqueIds(chunks)
    ensures CountOf(chunks, sourceId) == |IdsOf(chunks, sourceId)|
  {
    if chunks != [] {
      var n := |chunks| - 1;
      var earlier, last := chunks[..n], chunks[n];
      assert chunks == earlier + [last];
      CountIds(earlier, sourceId);
      IdsSnoc(earlier, last, sourceId);
      LastUnique(chunks);
      assert last.chunkId !in IdsOf(earlier, sourceId);
    }
  }

  // ----- the call

  /** One call records the complete manifest of every source it mentions: exactly the given rows, the
      count of each source the number of its rows, and a repeated call changes nothing. */
  lemma ChunkManifest(s: State, runId: string, chunks: seq<ChunkInput>)
    requires RecordChunks(s, runId, chunks).Done?
    ensures var t := RecordChunks(s, runId, chunks).state;
      var g := s.runs[runId].generationId;
      && (forall k :: Mentioned(t.chunks, g, SourcesOf(chunks), k) <==> IsStored(g, chunks, k))
      && (forall k, c | Stores(g, chunks, k, c) :: k in t.chunks && t.chunks[k] == RowOf(c))
      && (forall x | x in SourcesOf(chunks) ::
            (g, x) in t.documents && t.documents[(g, x)].chunkCount == |IdsOf(chunks, x)|)
      && RecordChunks(t, runId, chunks) == Done(t, None)
  {
    var t := RecordChunks(s, runId, chunks).state;
    var g := s.runs[runId].generationId;
    assert t.chunks == Recorded(s.chunks, g, chunks);
    forall k: Key
      ensures Mentioned(t.chunks, g, SourcesOf(chunks), k) <==> IsStored(g, chunks, k)
      ensures forall c | Stores(g, chunks, k, c) :: k in t.chunks && t.chunks[k] == RowOf(c)
    {
      RecordedRows(s.chunks, g, chunks, k);
    }
    forall x | x in SourcesOf(chunks)
      ensures (g, x) in t.documents && t.documents[(g, x)].chunkCount == |IdsOf(chunks, x)|
    {
      CountIds(chunks, x);
    }
    RecordedTwice(s.chunks, g, chunks);
    RecountedTwice(s.documents, g, chunks);
  }

  lemma RecountedTwice(documents: Documents, g: string, chunks: seq<ChunkInput>)
    ensures Recounted(Recounted(documents, g, chunks), g, chunks) == Recounted(documents, g, chunks)
  {
  }
}
