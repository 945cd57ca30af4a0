/** `ManifestCatalog` itself (catalog.py): the tables are fields that every method updates in place
    inside one transaction, and each method is proved against its step of the state machine. */
module CatalogStore {
  import opened Common
  import opened Digest
  import opened Records
  import opened Catalog
  import opened CatalogInvariants
  import opened CatalogHistory

  ghost predicate Reports(o: Outcome, r: Result<Option<string>>) {
    match o
    case Rejected => r.Err?
    case Done(_, value) => r == Ok(value)
  }

  // ----- the loop that validates and counts a chunk manifest

  lemma SourcesSnoc(values: seq<ChunkInput>, i: nat)
    requires i < |values|
    ensures SourcesOf(values[..i + 1]) == SourcesOf(values[..i]) + {values[i].sourceId}
  {
    var longer := values[..i + 1];
    assert longer == values[..i] + [values[i]];
    forall x ensures x in SourcesOf(longer) <==> x in SourcesOf(values[..i]) + {values[i].sourceId} {
      if x in SourcesOf(longer) {
        var c :| c in longer && c.sourceId == x;
      }
      if x in SourcesOf(values[..i]) {
        var c :| c in values[..i] && c.sourceId == x;
        assert c in longer;
      }
      if x == values[i].sourceId { assert values[i] in longer; }
    }
  }

  lemma CountSnoc(values: seq<ChunkInput>, i: nat, sourceId: string)
    requires i < |values|
    ensures CountOf(values[..i + 1], sourceId)
         == CountOf(values[..i], sourceId) + if values[i].sourceId == sourceId then 1 else 0
  {
    assert values[..i + 1][..i] == values[..i];
  }

  lemma {:induction false} CountZero(values: seq<ChunkInput>, sourceId: string)
    ensures CountOf(values, sourceId) == 0 <==> sourceId !in SourcesOf(values)
  {
    if values != [] {
      var n := |values| - 1;
      CountZero(values[..n], sourceId);
      SourcesSnoc(values, n);
      assert values[..n + 1] == values;
    }
  }

  ghost predicate Counted(values: seq<ChunkInput>, counts: map<string, nat>) {
    counts.Keys == SourcesOf(values) && forall x | x in counts :: counts[x] == CountOf(values, x)
  }

  lemma CountedSnoc(values: seq<ChunkInput>, i: nat, counts: map<string, nat>)
    requires i < |values| && Counted(values[..i], counts)
    ensures var x := values[i].sourceId;
      Counted(values[..i + 1], counts[x := (if x in counts then counts[x] else 0) + 1])
  {
    SourcesSnoc(values, i);
    var x := values[i].sourceId;
    CountZero(values[..i], x);
    var longer := counts[x := (if x in counts then counts[x] else 0) + 1];
    forall y | y in longer ensures longer[y] == CountOf(values[..i + 1], y) { CountSnoc(values, i, y); }
  }

  /** Every chunk belongs to the knowledge base and no chunk ID repeats. */
  ghost predicate Acceptable(values: seq<ChunkInput>, kbId: string) {
    (forall c | c in values :: c.kbId == kbId) && UniqueIds(values)
  }

  function IdsOf(values: seq<ChunkInput>): set<string> {
    set c | c in values :: c.chunkId
  }

  lemma AcceptableSnoc(values: seq<ChunkInput>, c: ChunkInput, kbId: string)
    requires Acceptable(values, kbId)
    ensures Acceptable(values + [c], kbId) <==> c.kbId == kbId && c.chunkId !in IdsOf(values)
    ensures IdsOf(values + [c]) == IdsOf(values) + {c.chunkId}
  {
    var longer := values + [c];
    assert longer[|values|] == c && forall i | 0 <= i < |values| :: longer[i] == values[i];
    forall x ensures x in IdsOf(longer) <==> x in IdsOf(values) + {c.chunkId} {
      if x in IdsOf(values) {
        var d :| d in values && d.chunkId == x;
        assert d in longer;
      }
      if x == c.chunkId { assert c in longer; }
    }
    if c.chunkId in IdsOf(values) {
      var i :| 0 <= i < |values| && values[i].chunkId == c.chunkId;
      assert longer[i].chunkId == longer[|values|].chunkId;
    }
  }

  lemma AcceptablePrefix(values: seq<ChunkInput>, i: nat, kbId: string)
    requires i <= |values| && Acceptable(values, kbId)
    ensures Acceptable(values[..i], kbId)
  {
    assert forall c | c in values[..i] :: c in values;
  }

  /** The checks of `record_chunks`, and how many chunks each source has. */
  method CountChunks(values: seq<ChunkInput>, kbId: string) returns (valid: bool, counts: map<string, nat>)
    ensures valid <==> Acceptable(values, kbId)
    ensures valid ==> Counted(values, counts)
  {
    valid, counts := true, map[];
    var seen: set<string> := {};
    var i := 0;
    while i < |values| && valid
      invariant 0 <= i <= |values|
      invariant valid ==> Counted(values[..i], counts) && seen == IdsOf(values[..i])
      invariant valid <==> Acceptable(values[..i], kbId)
    {
      var chunk := values[i];
      AcceptableSnoc(values[..i], chunk, kbId);
      CountedSnoc(values, i, counts);
      assert values[..i + 1] == values[..i] + [chunk];
      valid := chunk.kbId == kbId && chunk.chunkId !in seen;
      seen := seen + {chunk.chunkId};
      counts := counts[chunk.sourceId := (if chunk.sourceId in counts then counts[chunk.sourceId] else 0) + 1];
      i := i + 1;
    }
    if valid {
      assert values[..i] == values;
    } else if Acceptable(values, kbId) {
      AcceptablePrefix(values, i, kbId);
    }
  }

  function Updated(documents: Documents, g: string, done: set<string>, counts: map<string, nat>): Documents
    requires done <= counts.Keys
  {
    map k | k in documents ::
      if k.0 == g && k.1 in done then documents[k].(chunkCount := counts[k.1]) else documents[k]
  }

  lemma UpdatedOne(documents: Documents, g: string, done: set<string>, counts: map<string, nat>, x: string)
    requires done <= counts.Keys && x in counts && (g, x) in documents && x !in done
    ensures var now := Updated(documents, g, done, counts);
      Updated(documents, g, done + {x}, counts) == now[(g, x) := now[(g, x)].(chunkCount := counts[x])]
  {
  }

  lemma UpdatedAll(documents: Documents, g: string, counts: map<string, nat>, values: seq<ChunkInput>)
    requires Counted(values, counts)
    ensures Updated(documents, g, counts.Keys, counts) == Recounted(documents, g, values)
  {
  }

  // ----- queries

  function NewestFirst(generations: Generations): (string, string) -> bool {
    (a: string, b: string) => a in generations && b in generations && Newer(generations, a, b)
  }

  lemma NewestFirstTotal(generations: Generations)
    ensures Asymmetric(NewestFirst(generations)) && Transitive(NewestFirst(generations))
    ensures TotalOn(generations.Keys, NewestFirst(generations))
  {
    var less := NewestFirst(generations);
    forall a, b | less(a, b) ensures !less(b, a) { StrTrichotomy(a, b); }
    forall a, b, c | less(a, b) && less(b, c) ensures less(a, c) {
      if StrLess(c, b) && StrLess(b, a) { StrTransitive(c, b, a); }
    }
    forall a, b | a in generations.Keys && b in generations.Keys && a != b ensures less(a, b) || less(b, a) {
      StrTrichotomy(a, b);
    }
  }

  lemma ByPathTotal()
    ensures Asymmetric(ByPath()) && Transitive(ByPath())
    ensures forall a: ManifestDocument, b: ManifestDocument | a.sourceId != b.sourceId ::
      ByPath()(a, b) || ByPath()(b, a)
  {
    ByPathAsymmetric();
    forall a, b, c | ByPath()(a, b) && ByPath()(b, c) ensures ByPath()(a, c) {
      if StrLess(a.relativePath, b.relativePath) && StrLess(b.relativePath, c.relativePath) {
        StrTransitive(a.relativePath, b.relativePath, c.relativePath);
      } else if StrLess(a.sourceId, b.sourceId) && StrLess(b.sourceId, c.sourceId) {
        StrTransitive(a.sourceId, b.sourceId, c.sourceId);
      }
    }
    forall a: ManifestDocument, b: ManifestDocument | a.sourceId != b.sourceId
      ensures ByPath()(a, b) || ByPath()(b, a)
    {
      StrTrichotomy(a.relativePath, b.relativePath);
      StrTrichotomy(a.sourceId, b.sourceId);
    }
  }

  /** Every generation of a knowledge base has a listing. */
  lemma ListingExists(s: State, kbId: string, generation: Option<string>) returns (docs: seq<ManifestDocument>)
    ensures IsListing(s, kbId, generation, docs)
  {
    var g := if generation.Some? then generation else CurrentOf(s, kbId);
    docs := [];
    if g.Some? && g.value in s.generations {
      var rows := set k | k in s.documents && k.0 == g.value && s.documents[k].kbId == kbId ::
        RowDocument(k, s.generations[k.0].state, s.documents[k]);
      forall d ensures d in rows <==> IsRow(s, kbId, g.value, d) {
        if IsRow(s, kbId, g.value, d) { assert (g.value, d.sourceId) in s.documents; }
      }
      ByPathTotal();
      docs := OrderExists(rows, ByPath());
      forall d ensures d in docs <==> IsRow(s, kbId, g.value, d) { assert d in docs <==> d in Elements(docs); }
    }
  }

  class ManifestCatalog {
    var generations: map<string, Generation>
    var runs: map<string, Run>
    var current: map<string, string>
    var documents: map<Key, DocumentRow>
    var chunks: map<Key, ChunkRow>
    ghost var history: seq<Move>

    ghost function Snapshot(): State
      reads this
    {
      State(generations, runs, current, documents, chunks, history)
    }

    constructor ()
      ensures Snapshot() == EMPTY
    {
      generations, runs, current, documents, chunks, history := map[], map[], map[], map[], map[], [];
    }

    method BeginRun(kbId: string, pipeline: Pipeline, generationId: string, runId: string, now: int)
      returns (r: Result<Option<string>>)
      modifies this
      ensures var o := Begin(old(Snapshot()), runId, generationId, kbId, pipeline, now);
        Reports(o, r) && Snapshot() == After(old(Snapshot()), o)
    {
      if generationId in generations || runId in runs {
        r := Err("generation ID already exists");
      } else {
        generations := generations[generationId := Generation(kbId, Building, pipeline, now, None)];
        runs := runs[runId := Run(generationId, kbId, Running, PipelineDigest(pipeline))];
        r := Ok(Some(runId));
      }
    }

    method RecordDocument(runId: string, source: Source, pipeline: Pipeline, chunkCount: int)
      returns (r: Result<Option<string>>)
      modifies this`documents
      ensures var o := Record(old(Snapshot()), runId, source, pipeline, chunkCount);
        Reports(o, r) && Snapshot() == After(old(Snapshot()), o)
    {
      if runId !in runs || runs[runId].state != Running {
        r := Err("manifest run is no longer writable");
      } else if source.kbId != runs[runId].kbId || chunkCount < 0 || PipelineDigest(pipeline) != runs[runId].digest {
        r := Err("document does not belong to this run");
      } else {
        var g := runs[runId].generationId;
        var key := (g, source.sourceId);
        if exists k | k in documents ::
          k.0 == g && k.1 != source.sourceId && documents[k].relativePath == source.relativePath {
          r := Err("document manifest could not be recorded");
        } else {
          if key in documents {
            documents := documents[key := documents[key].(
              relativePath := source.relativePath, mediaType := source.mediaType, sizeBytes := source.sizeBytes,
              mtimeNs := source.mtimeNs, contentSha256 := source.sha256, pipeline := pipeline,
              chunkCount := chunkCount)];
          } else {
            documents := documents[key := DocumentRow(
              source.kbId, source.relativePath, source.mediaType, source.sizeBytes, source.mtimeNs, source.sha256,
              pipeline, chunkCount)];
          }
          r := Ok(None);
        }
      }
    }

    /** Deletes the recorded chunks of every counted source. */
    method DeleteRows(g: string, counts: map<string, nat>)
      modifies this`chunks
      ensures chunks == WithoutSources(old(chunks), g, counts.Keys)
    {
      ghost var before := chunks;
      var left := counts.Keys;
      while left != {}
        invariant left <= counts.Keys
        invariant chunks == WithoutSources(before, g, counts.Keys - left)
        decreases |left|
      {
        var sourceId :| sourceId in left;
        chunks := map k | k in chunks && !(k.0 == g && chunks[k].sourceId == sourceId) :: chunks[k];
        left := left - {sourceId};
      }
    }

    /** Upserts the rows; a row without its document violates the foreign key. */
    method InsertRows(g: string, values: seq<ChunkInput>) returns (ok: bool)
      modifies this`chunks
      ensures ok <==> forall x | x in SourcesOf(values) :: (g, x) in documents
      ensures ok ==> chunks == WithRows(old(chunks), g, values)
    {
      ok := true;
      var i := 0;
      while i < |values| && ok
        invariant 0 <= i <= |values|
        invariant ok ==> chunks == WithRows(old(chunks), g, values[..i])
        invariant ok ==> forall x | x in SourcesOf(values[..i]) :: (g, x) in documents
        invariant !ok ==> !(forall x | x in SourcesOf(values) :: (g, x) in documents)
      {
        ok := (g, values[i].sourceId) in documents;
        if ok {
          SourcesSnoc(values, i);
          assert values[..i + 1][..i] == values[..i];
          chunks := chunks[(g, values[i].chunkId) := RowOf(values[i])];
        } else {
          assert values[i].sourceId in SourcesOf(values);
        }
        i := i + 1;
      }
      if ok { assert values[..i] == values; }
    }

    /** Stores the counts; every source must have its document. */
    method UpdateCounts(g: string, counts: map<string, nat>) returns (ok: bool)
      modifies this`documents
      ensures ok <==> forall x | x in counts :: (g, x) in old(documents)
      ensures ok ==> documents == Updated(old(documents), g, counts.Keys, counts)
    {
      ok := true;
      ghost var before := documents;
      var left := counts.Keys;
      assert Updated(before, g, {}, counts) == before;
      while left != {} && ok
        invariant left <= counts.Keys
        invariant ok ==> documents == Updated(before, g, counts.Keys - left, counts)
        invariant ok ==> forall x | x in counts.Keys - left :: (g, x) in before
        invariant !ok ==> exists x :: x in counts && (g, x) !in before
        decreases |left|
      {
        var sourceId :| sourceId in left;
        ok := (g, sourceId) in documents;
        if ok {
          UpdatedOne(before, g, counts.Keys - left, counts, sourceId);
          assert counts.Keys - (left - {sourceId}) == counts.Keys - left + {sourceId};
          documents := documents[(g, sourceId) := documents[(g, sourceId)].(chunkCount := counts[sourceId])];
        }
        left := left - {sourceId};
      }
    }

    method RecordChunks(runId: string, values: seq<ChunkInput>) returns (r: Result<Option<string>>)
      modifies this`documents, this`chunks
      ensures var o := Catalog.RecordChunks(old(Snapshot()), runId, values);
        Reports(o, r) && Snapshot() == After(old(Snapshot()), o)
    {
      if runId !in runs || runs[runId].state != Running || |values| > 1_000_000 {
        return Err("manifest run is no longer writable");
      }
      var g := runs[runId].generationId;
      var valid, counts := CountChunks(values, runs[runId].kbId);
      if !valid {
        return Err("duplicate chunk ID");
      }
      var savedDocuments, savedChunks := documents, chunks;
      DeleteRows(g, counts);
      var ok := InsertRows(g, values);
      if ok { ok := UpdateCounts(g, counts); }
      if ok {
        UpdatedAll(savedDocuments, g, counts, values);
        r := Ok(None);
      } else {
        documents, chunks := savedDocuments, savedChunks;
        r := Err("chunks require a document manifest in the same run");
      }
    }

    method CarryForwardDocument(runId: string, document: ManifestDocument, override: Option<Pipeline>)
      returns (r: Result<Option<string>>)
      modifies this`documents, this`chunks
      ensures var o := Carry(old(Snapshot()), runId, document, override);
        Reports(o, r) && Snapshot() == After(old(Snapshot()), o)
    {
      if runId !in runs || runs[runId].state != Running {
        return Err("manifest run is no longer writable");
      }
      var pipeline := if override.Some? then override.value else document.pipeline;
      if document.kbId != runs[runId].kbId || PipelineDigest(pipeline) != runs[runId].digest {
        return Err("document does not belong to this run");
      }
      var g := runs[runId].generationId;
      if (document.generationId, document.sourceId) !in documents {
        return Err("source document generation is unavailable");
      }
      if (g, document.sourceId) in documents || PathTaken(documents, g, document.sourceId, document.relativePath)
        || ChunkClash(chunks, document.generationId, document.sourceId, g) {
        return Err("document was already recorded in this run");
      }
      documents := documents[(g, document.sourceId) := DocumentRow(
        document.kbId, document.relativePath, document.mediaType, document.sizeBytes, document.mtimeNs,
        document.contentSha256, pipeline, document.chunkCount)];
      chunks := chunks + CopiedRows(chunks, document.generationId, document.sourceId, g);
      r := Ok(None);
    }

    method MarkStaged(runId: string) returns (r: Result<Option<string>>)
      modifies this`generations, this`runs
      ensures var o := Stage(old(Snapshot()), runId);
        Reports(o, r) && Snapshot() == After(old(Snapshot()), o)
    {
      if runId !in runs || runs[runId].state != Running {
        r := Err("manifest run is no longer writable");
      } else {
        var g := runs[runId].generationId;
        if g in generations { generations := generations[g := generations[g].(state := Staged)]; }
        runs := runs[runId := runs[runId].(state := RunStaged)];
        r := Ok(Some(g));
      }
    }

    method CommitPublished(runId: string, now: int) returns (r: Result<Option<string>>)
      modifies this`generations, this`runs, this`current, this`history
      ensures var o := Commit(old(Snapshot()), runId, now);
        Reports(o, r) && Snapshot() == After(old(Snapshot()), o)
    {
      if runId !in runs || runs[runId].state != RunStaged {
        r := Err("only a staged run can be published");
      } else {
        var run := runs[runId];
        var previous := if run.kbId in current then Some(current[run.kbId]) else None;
        if previous.Some? && previous.value != run.generationId && previous.value in generations {
          generations := generations[previous.value := generations[previous.value].(state := Available)];
        }
        if run.generationId in generations {
          generations := generations[run.generationId :=
            generations[run.generationId].(state := Published, publishedAt := Some(now))];
        }
        current := current[run.kbId := run.generationId];
        runs := runs[runId := run.(state := RunPublished)];
        history := history + [Move(run.kbId, run.generationId, now, true)];
        r := Ok(previous);
      }
    }

    method FailRun(runId: string) returns (r: Result<Option<string>>)
      modifies this`generations, this`runs
      ensures var o := Fail(old(Snapshot()), runId);
        Reports(o, r) && Snapshot() == After(old(Snapshot()), o)
    {
      if runId !in runs || runs[runId].state == RunPublished {
        r := Err("a published run cannot be marked failed");
      } else {
        var g := runs[runId].generationId;
        if g in generations { generations := generations[g := generations[g].(state := Failed)]; }
        runs := runs[runId := runs[runId].(state := RunFailed)];
        r := Ok(None);
      }
    }

    method RollbackToGeneration(kbId: string, generationId: string, now: int) returns (r: Result<Option<string>>)
      modifies this`generations, this`current, this`history
      ensures var o := Rollback(old(Snapshot()), kbId, generationId, now);
        Reports(o, r) && Snapshot() == After(old(Snapshot()), o)
    {
      if generationId !in generations || generations[generationId].kbId != kbId {
        r := Err("rollback generation does not exist");
      } else if generations[generationId].state != Published && generations[generationId].state != Available {
        r := Err("rollback target is not a successful generation");
      } else {
        var previous := if kbId in current then Some(current[kbId]) else None;
        if previous != Some(generationId) {
          if previous.Some? && previous.value in generations {
            generations := generations[previous.value := generations[previous.value].(state := Available)];
          }
          generations := generations[generationId :=
            generations[generationId].(state := Published, publishedAt := Some(now))];
          current := current[kbId := generationId];
          history := history + [Move(kbId, generationId, now, false)];
        }
        r := Ok(previous);
      }
    }

    /** Retained successful generations, newest first, excluding the active one. */
    method RollbackCandidates(kbId: string) returns (r: seq<string>)
      ensures IsCandidates(generations, kbId, r)
    {
      var table := generations;
      var rows := set g | g in table && table[g].kbId == kbId && table[g].state == Available;
      NewestFirstTotal(table);
      r := OrderBy(rows, NewestFirst(table));
      forall g ensures g in r <==> IsAvailable(generations, kbId, g) { assert g in r <==> g in Elements(r); }
    }

    method PreviousGeneration(kbId: string) returns (p: Option<string>)
      ensures IsPrevious(generations, kbId, p)
    {
      var candidates := RollbackCandidates(kbId);
      FirstIsPrevious(generations, kbId, candidates);
      p := First(candidates);
    }

    method ListDocuments(kbId: string, generation: Option<string>) returns (docs: seq<ManifestDocument>)
      ensures IsListing(Snapshot(), kbId, generation, docs)
    {
      var g := if generation.Some? then generation
               else if kbId in current then Some(current[kbId]) else None;
      docs := [];
      if g.Some? && g.value in generations {
        var rows := set k | k in documents && k.0 == g.value && documents[k].kbId == kbId ::
          RowDocument(k, generations[k.0].state, documents[k]);
        forall d ensures d in rows <==> IsRow(Snapshot(), kbId, g.value, d) {
          if IsRow(Snapshot(), kbId, g.value, d) { assert (g.value, d.sourceId) in documents; }
        }
        ByPathTotal();
        docs := OrderBy(rows, ByPath());
        forall d
          ensures d in docs <==> IsRow(Snapshot(), kbId, g.value, d)
        {
          assert d in docs <==> d in Elements(docs);
        }
      }
    }
  }
}
