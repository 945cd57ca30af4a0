/** When each catalog call is accepted and what it then changes, table by table (catalog.py), and what
    a failed run can still become: nothing. */
module CatalogEffects {
  import opened Common
  import opened Digest
  import opened Records
  import opened Catalog
  import opened CatalogInvariants

  /** The entry is the same in both tables. */
  ghost predicate SameEntry<K, V>(before: map<K, V>, after: map<K, V>, k: K) {
    (k in after <==> k in before) && (k in before ==> after[k] == before[k])
  }

  /** Every entry but one is the same. */
  ghost predicate OnlyAt<K(!new), V>(before: map<K, V>, after: map<K, V>, key: K) {
    forall k | k != key :: SameEntry(before, after, k)
  }

  ghost predicate SameRowTables(s: State, t: State) {
    t.documents == s.documents && t.chunks == s.chunks
  }

  ghost predicate SamePointers(s: State, t: State) {
    t.current == s.current && t.history == s.history
  }

  /** The run and the generation are as given, all others unchanged. */
  ghost predicate Sets(s: State, t: State, runId: string, run: Run, g: string, generation: Generation) {
    && runId in t.runs && t.runs[runId] == run && OnlyAt(s.runs, t.runs, runId)
    && g in t.generations && t.generations[g] == generation && OnlyAt(s.generations, t.generations, g)
  }

  lemma OnlyAtTwice<K(!new), V>(a: map<K, V>, b: map<K, V>, c: map<K, V>, key: K)
    requires OnlyAt(a, b, key) && OnlyAt(b, c, key)
    ensures OnlyAt(a, c, key)
  {
    forall k | k != key ensures SameEntry(a, c, k) { assert SameEntry(a, b, k) && SameEntry(b, c, k); }
  }

  lemma SetsTwice(
    s: State, t: State, u: State, runId: string, run: Run, next: Run, g: string, generation: Generation,
    after: Generation)
    requires Sets(s, t, runId, run, g, generation) && Sets(t, u, runId, next, g, after)
    ensures Sets(s, u, runId, next, g, after)
  {
    OnlyAtTwice(s.runs, t.runs, u.runs, runId);
    OnlyAtTwice(s.generations, t.generations, u.generations, g);
  }

  lemma RunGeneration(s: State, runId: string)
    requires Reachable(s) && runId in s.runs
    ensures RunLinked(s.generations, s.runs[runId])
  {
    ReachableHolds(s);
  }

  // ----- opening and closing a run

  /** Both IDs must be new; the run starts RUNNING on an empty BUILDING generation. */
  lemma BeginEffect(s: State, runId: string, g: string, kbId: string, pipeline: Pipeline, now: int)
    ensures var o := Begin(s, runId, g, kbId, pipeline, now);
      && (o.Done? <==> runId !in s.runs && g !in s.generations)
      && (o.Done? ==>
            && Sets(s, o.state, runId, Run(g, kbId, Running, PipelineDigest(pipeline)),
                    g, Generation(kbId, Building, pipeline, now, None))
            && SameRowTables(s, o.state) && SamePointers(s, o.state) && o.value == Some(runId))
  {
  }

  /** Only a RUNNING run can be sealed; it and its generation become STAGED. */
  lemma StageEffect(s: State, runId: string)
    requires Reachable(s)
    ensures var o := Stage(s, runId);
      && (o.Done? <==> runId in s.runs && s.runs[runId].state == Running)
      && (o.Done? ==>
            var g := s.runs[runId].generationId;
            && g in s.generations
            && Sets(s, o.state, runId, s.runs[runId].(state := RunStaged), g, s.generations[g].(state := Staged))
            && SameRowTables(s, o.state) && SamePointers(s, o.state) && o.value == Some(g))
  {
    if runId in s.runs { RunGeneration(s, runId); }
  }

  /** Every run that is not published can fail; it and its generation become FAILED, nothing else changes. */
  lemma FailEffect(s: State, runId: string)
    requires Reachable(s)
    ensures var o := Fail(s, runId);
      && (o.Done? <==> runId in s.runs && s.runs[runId].state != RunPublished)
      && (o.Done? ==>
            var g := s.runs[runId].generationId;
            && g in s.generations
            && Sets(s, o.state, runId, s.runs[runId].(state := RunFailed), g, s.generations[g].(state := Failed))
            && SameRowTables(s, o.state) && SamePointers(s, o.state))
  {
    if runId in s.runs { RunGeneration(s, runId); }
  }

  // ----- moving the pointer

  /** The pointer of one knowledge base moves to `g`, which is published now; the generation it leaves
      becomes AVAILABLE; no other pointer and no other generation changes. */
  ghost predicate Points(s: State, t: State, kbId: string, g: string, now: int) {
    && g in s.generations && g in t.generations
    && t.generations[g] == s.generations[g].(state := Published, publishedAt := Some(now))
    && kbId in t.current && t.current[kbId] == g && OnlyAt(s.current, t.current, kbId)
    && (kbId in s.current ==>
          var left := s.current[kbId];
          && left != g && left in s.generations && left in t.generations
          && t.generations[left] == s.generations[left].(state := Available))
    && forall h | h != g && (kbId in s.current ==> h != s.current[kbId]) :: SameEntry(s.generations, t.generations, h)
  }

  lemma MovePoints(s: State, kbId: string, g: string, now: int, committed: bool)
    requires Pointed(s.generations, s.current) && g in s.generations && CurrentOf(s, kbId) != Some(g)
    ensures Points(s, MovePointer(s, kbId, g, now, committed), kbId, g, now)
  {
    if kbId in s.current { assert s.current[kbId] in s.generations; }
  }

  ghost predicate Publishes(s: State, o: Outcome, runId: string, now: int)
    requires o.Done? && runId in s.runs
  {
    var run := s.runs[runId];
    && runId in o.state.runs && o.state.runs[runId] == run.(state := RunPublished)
    && OnlyAt(s.runs, o.state.runs, runId)
    && Points(s, o.state, run.kbId, run.generationId, now) && SameRowTables(s, o.state)
    && o.state.history == s.history + [Move(run.kbId, run.generationId, now, true)]
    && o.value == (if run.kbId in s.current then Some(s.current[run.kbId]) else None)
  }

  lemma StagedPoints(s: State, runId: string, now: int)
    requires Reachable(s) && runId in s.runs && s.runs[runId].state == RunStaged
    ensures var run := s.runs[runId];
      Points(s, MovePointer(s, run.kbId, run.generationId, now, true), run.kbId, run.generationId, now)
  {
    ReachableHolds(s);
    StagedNotCurrent(s, runId);
    MovePoints(s, s.runs[runId].kbId, s.runs[runId].generationId, now, true);
  }

  /** Only a STAGED run can be published; the call returns the generation it displaced. */
  lemma CommitEffect(s: State, runId: string, now: int)
    requires Reachable(s)
    ensures var o := Commit(s, runId, now);
      && (o.Done? <==> runId in s.runs && s.runs[runId].state == RunStaged)
      && (o.Done? ==> Publishes(s, o, runId, now))
  {
    if runId in s.runs && s.runs[runId].state == RunStaged { StagedPoints(s, runId, now); }
  }

  /** Only a PUBLISHED or AVAILABLE generation of the same knowledge base can be rolled back to; the
      current one is returned as it is, any other is published again. */
  lemma RollbackEffect(s: State, kbId: string, g: string, now: int)
    requires Reachable(s)
    ensures var o := Rollback(s, kbId, g, now);
      && (o.Done? <==>
            && g in s.generations && s.generations[g].kbId == kbId
            && (s.generations[g].state == Published || s.generations[g].state == Available))
      && (o.Done? ==>
            && o.value == (if kbId in s.current then Some(s.current[kbId]) else None)
            && (kbId in s.current && s.current[kbId] == g ==> o.state == s)
            && (!(kbId in s.current && s.current[kbId] == g) ==>
                  && o.state.runs == s.runs && Points(s, o.state, kbId, g, now) && SameRowTables(s, o.state)
                  && o.state.history == s.history + [Move(kbId, g, now, false)]))
  {
    ReachableHolds(s);
    if g in s.generations && CurrentOf(s, kbId) != Some(g) { MovePoints(s, kbId, g, now, false); }
  }

  // ----- rows

  ghost predicate SameRuns(s: State, t: State) {
    t.runs == s.runs && t.generations == s.generations && SamePointers(s, t)
  }

  /** No other source of the generation is recorded under the path. */
  ghost predicate PathFree(s: State, g: string, sourceId: string, path: string) {
    forall id: string | id != sourceId && (g, id) in s.documents :: s.documents[(g, id)].relativePath != path
  }

  lemma PathFreeMeaning(s: State, g: string, sourceId: string, path: string)
    ensures PathFree(s, g, sourceId, path) <==> !PathTaken(s.documents, g, sourceId, path)
  {
    if PathTaken(s.documents, g, sourceId, path) {
      var k :| k in s.documents && k.0 == g && k.1 != sourceId && s.documents[k].relativePath == path;
      assert k == (g, k.1);
    }
  }

  lemma RowKnowledgeBase(s: State, k: Key)
    requires Reachable(s)
    ensures k in s.documents ==> k.0 in s.generations && s.documents[k].kbId == s.generations[k.0].kbId
  {
    ReachableHolds(s);
  }

  /** A document is recorded under the run's generation only by that RUNNING run, in its knowledge base,
      under its pipeline and on a free path; then the row holds the source and nothing else changes. */
  lemma RecordEffect(s: State, runId: string, source: Source, pipeline: Pipeline, chunkCount: int)
    requires Reachable(s)
    ensures var o := Record(s, runId, source, pipeline, chunkCount);
      && (o.Done? <==>
            && chunkCount >= 0 && runId in s.runs && s.runs[runId].state == Running
            && source.kbId == s.runs[runId].kbId && PipelineDigest(pipeline) == s.runs[runId].digest
            && PathFree(s, s.runs[runId].generationId, source.sourceId, source.relativePath))
      && (o.Done? ==>
            var key := (s.runs[runId].generationId, source.sourceId);
            && key in o.state.documents && OnlyAt(s.documents, o.state.documents, key)
            && o.state.documents[key] == DocumentRow(source.kbId, source.relativePath, source.mediaType,
                 source.sizeBytes, source.mtimeNs, source.sha256, pipeline, chunkCount)
            && o.state.chunks == s.chunks && SameRuns(s, o.state))
  {
    if Writable(s, runId) {
      var g := s.runs[runId].generationId;
      PathFreeMeaning(s, g, source.sourceId, source.relativePath);
      RunGeneration(s, runId);
      RowKnowledgeBase(s, (g, source.sourceId));
    }
  }

  /** Chunk manifests are accepted from a RUNNING run only, with unique IDs, inside its knowledge base and
      for recorded documents; `ChunkManifest` states what they then leave. */
  lemma ChunksAccepted(s: State, runId: string, chunks: seq<ChunkInput>)
    ensures RecordChunks(s, runId, chunks).Done? <==>
      && runId in s.runs && s.runs[runId].state == Running && |chunks| <= 1_000_000
      && (forall i | 0 <= i < |chunks| ::
            chunks[i].kbId == s.runs[runId].kbId && (s.runs[runId].generationId, chunks[i].sourceId) in s.documents)
      && (forall i, j | 0 <= i < j < |chunks| :: chunks[i].chunkId != chunks[j].chunkId)
    ensures RecordChunks(s, runId, chunks).Done? ==> SameRuns(s, RecordChunks(s, runId, chunks).state)
  {
    if Writable(s, runId) {
      var g := s.runs[runId].generationId;
      assert (forall c | c in chunks :: (g, c.sourceId) in s.documents) <==>
             (forall id | id in SourcesOf(chunks) :: (g, id) in s.documents) by {
        forall c | c in chunks ensures c.sourceId in SourcesOf(chunks) {}
      }
    }
  }

  /** The rows of the document's chunks stand under the target generation too. */
  ghost predicate CopiesChunks(s: State, t: State, from: string, sourceId: string, to: string) {
    && (forall id: string | (from, id) in s.chunks && s.chunks[(from, id)].sourceId == sourceId ::
          (to, id) in t.chunks && t.chunks[(to, id)] == s.chunks[(from, id)])
    && forall k: Key | k.0 != to || (from, k.1) !in s.chunks || s.chunks[(from, k.1)].sourceId != sourceId ::
          SameEntry(s.chunks, t.chunks, k)
  }

  /** No chunk of the document is already stored under the target generation. */
  ghost predicate ChunksFree(s: State, from: string, sourceId: string, to: string) {
    forall id: string | (from, id) in s.chunks && s.chunks[(from, id)].sourceId == sourceId :: (to, id) !in s.chunks
  }

  lemma ChunksFreeMeaning(s: State, from: string, sourceId: string, to: string)
    ensures ChunksFree(s, from, sourceId, to) <==> !ChunkClash(s.chunks, from, sourceId, to)
  {
    if ChunkClash(s.chunks, from, sourceId, to) {
      var k :| k in s.chunks && k.0 == from && s.chunks[k].sourceId == sourceId && (to, k.1) in s.chunks;
      assert k == (from, k.1);
    }
  }

  lemma CopiedChunks(s: State, t: State, from: string, sourceId: string, to: string)
    requires t.chunks == s.chunks + CopiedRows(s.chunks, from, sourceId, to)
    ensures CopiesChunks(s, t, from, sourceId, to)
  {
    var copied := CopiedRows(s.chunks, from, sourceId, to);
    forall id: string
      ensures (to, id) in copied <==> (from, id) in s.chunks && s.chunks[(from, id)].sourceId == sourceId
    {
    }
  }

  ghost predicate CarryAllowed(s: State, runId: string, d: ManifestDocument, pipeline: Pipeline) {
    && runId in s.runs && s.runs[runId].state == Running
    && d.kbId == s.runs[runId].kbId && PipelineDigest(pipeline) == s.runs[runId].digest
    && (d.generationId, d.sourceId) in s.documents
    && (s.runs[runId].generationId, d.sourceId) !in s.documents
    && PathFree(s, s.runs[runId].generationId, d.sourceId, d.relativePath)
    && ChunksFree(s, d.generationId, d.sourceId, s.runs[runId].generationId)
  }

  lemma CarryAccepted(s: State, runId: string, d: ManifestDocument, override: Option<Pipeline>)
    ensures Carry(s, runId, d, override).Done? <==>
      CarryAllowed(s, runId, d, if override.Some? then override.value else d.pipeline)
  {
    if Writable(s, runId) {
      var g := s.runs[runId].generationId;
      PathFreeMeaning(s, g, d.sourceId, d.relativePath);
      ChunksFreeMeaning(s, d.generationId, d.sourceId, g);
    }
  }

  /** The document's row under the generation, with its chunk rows; everything else is the same. */
  ghost predicate Carries(s: State, t: State, g: string, d: ManifestDocument, pipeline: Pipeline) {
    var key := (g, d.sourceId);
    && key in t.documents && OnlyAt(s.documents, t.documents, key)
    && t.documents[key] == DocumentRow(d.kbId, d.relativePath, d.mediaType, d.sizeBytes, d.mtimeNs,
         d.contentSha256, pipeline, d.chunkCount)
    && CopiesChunks(s, t, d.generationId, d.sourceId, g) && SameRuns(s, t)
  }

  lemma CarryChanges(s: State, runId: string, d: ManifestDocument, override: Option<Pipeline>)
    requires Carry(s, runId, d, override).Done?
    ensures Carries(s, Carry(s, runId, d, override).state, s.runs[runId].generationId, d,
              if override.Some? then override.value else d.pipeline)
  {
    CopiedChunks(s, Carry(s, runId, d, override).state, d.generationId, d.sourceId, s.runs[runId].generationId);
  }

  /** A document is carried over only by a RUNNING run of its knowledge base, under the run's pipeline and
      where nothing is stored yet; then its row and its chunk rows are copied and nothing else changes. */
  lemma CarryEffect(s: State, runId: string, d: ManifestDocument, override: Option<Pipeline>)
    ensures var o := Carry(s, runId, d, override);
      var pipeline := if override.Some? then override.value else d.pipeline;
      && (o.Done? <==> CarryAllowed(s, runId, d, pipeline))
      && (o.Done? ==> Carries(s, o.state, s.runs[runId].generationId, d, pipeline))
  {
    CarryAccepted(s, runId, d, override);
    if Carry(s, runId, d, override).Done? { CarryChanges(s, runId, d, override); }
  }

  // ----- a failed run stays failed

  lemma FailedStep(s: State, op: Operation, now: int, runId: string)
    requires runId in s.runs && s.runs[runId].state == RunFailed
    ensures runId in Step(s, op, now).runs && Step(s, op, now).runs[runId] == s.runs[runId]
  {
  }

  lemma {:induction false} FailedExec(s: State, further: seq<(Operation, int)>, runId: string)
    requires runId in s.runs && s.runs[runId].state == RunFailed
    ensures runId in Exec(s, further).runs && Exec(s, further).runs[runId] == s.runs[runId]
  {
    if further != [] {
      var n := |further| - 1;
      FailedExec(s, further[..n], runId);
      FailedStep(Exec(s, further[..n]), further[n].0, further[n].1, runId);
    }
  }

  lemma PointedPublished(u: State, kbId: string)
    requires Pointed(u.generations, u.current)
    ensures kbId in u.current ==>
      u.current[kbId] in u.generations && u.generations[u.current[kbId]].state == Published
  {
    if kbId in u.current {
      var h := u.current[kbId];
      assert u.generations[h].kbId == kbId && PointedAt(h, u.generations[h], u.current);
    }
  }

  lemma FailedUnpointed(u: State, runId: string)
    requires Reachable(u) && runId in u.runs && u.runs[runId].state == RunFailed
    ensures var g := u.runs[runId].generationId;
      && g in u.generations && u.generations[g].state == Failed
      && forall kbId: string :: CurrentOf(u, kbId) != Some(g)
  {
    ReachableHolds(u);
    var g := u.runs[runId].generationId;
    assert RunLinked(u.generations, u.runs[runId]);
    forall kbId: string ensures CurrentOf(u, kbId) != Some(g) { PointedPublished(u, kbId); }
  }

  /** A run that has failed is failed after any further calls, and so is its generation; no knowledge base
      points at it, and its rows are the ones it had. */
  lemma FailedStays(s: State, runId: string, further: seq<(Operation, int)>)
    requires Reachable(s) && runId in s.runs && s.runs[runId].state == RunFailed
    ensures var g := s.runs[runId].generationId; var u := Exec(s, further);
      && runId in u.runs && u.runs[runId] == s.runs[runId]
      && g in u.generations && u.generations[g].state == Failed
      && (forall kbId: string :: CurrentOf(u, kbId) != Some(g))
      && SameRows(s, u, g)
  {
    FailedExec(s, further, runId);
    ClosedRunFrozen(s, further, runId);
    ReachableExec(s, further);
    FailedUnpointed(Exec(s, further), runId);
  }

  /** `fail_run` is final. */
  lemma FailedForever(s: State, runId: string, further: seq<(Operation, int)>)
    requires Reachable(s) && Fail(s, runId).Done?
    ensures var g := s.runs[runId].generationId; var u := Exec(Fail(s, runId).state, further);
      && runId in u.runs && u.runs[runId] == s.runs[runId].(state := RunFailed)
      && g in u.generations && u.generations[g].state == Failed
      && (forall kbId: string :: CurrentOf(u, kbId) != Some(g))
      && SameRows(s, u, g)
  {
    var g, t := s.runs[runId].generationId, Fail(s, runId).state;
    FailEffect(s, runId);
    ReachableStep(s, FailOp(runId), 0);
    FailedStays(t, runId, further);
    assert SameRows(s, t, g);
    RowsTransitive(s, t, Exec(t, further), g);
  }

  // ----- one pipeline for each generation

  ghost predicate RowPiped(s: State, k: Key) {
    k in s.documents ==>
      && k.0 in s.generations
      && PipelineDigest(s.documents[k].pipeline) == PipelineDigest(s.generations[k.0].pipeline)
  }

  ghost predicate Piped(s: State) {
    forall k: Key :: RowPiped(s, k)
  }

  lemma PipedStep(s: State, op: Operation, now: int, k: Key)
    requires Reachable(s) && RowPiped(s, k)
    ensures RowPiped(Step(s, op, now), k)
  {
    ReachableHolds(s);
    if WriterOf(op).Some? && Writable(s, WriterOf(op).value) { WritableBuilding(s, WriterOf(op).value); }
    if k in s.documents { PipelineStays(s, op, now, k.0); }
    StepPiped(s, op, now, k);
  }

  lemma PipelineStays(s: State, op: Operation, now: int, g: string)
    requires g in s.generations
    ensures g in Step(s, op, now).generations && Step(s, op, now).generations[g].pipeline == s.generations[g].pipeline
  {
  }

  /** Each row keeps its pipeline or is written under the digest of the writing run. */
  lemma StepPiped(s: State, op: Operation, now: int, k: Key)
    requires RowPiped(s, k)
    requires k in s.documents ==>
      && k.0 in Step(s, op, now).generations
      && Step(s, op, now).generations[k.0].pipeline == s.generations[k.0].pipeline
    requires WriterOf(op).Some? && Writable(s, WriterOf(op).value) ==>
      var run := s.runs[WriterOf(op).value];
      run.generationId in s.generations && run.digest == PipelineDigest(s.generations[run.generationId].pipeline)
    ensures RowPiped(Step(s, op, now), k)
  {
  }

  lemma {:induction false} PipedExec(calls: seq<(Operation, int)>)
    ensures Piped(Exec(EMPTY, calls))
  {
    if calls != [] {
      var n := |calls| - 1;
      PipedExec(calls[..n]);
      assert Reaches(calls[..n], Exec(EMPTY, calls[..n]));
      forall k: Key ensures RowPiped(Exec(EMPTY, calls), k) {
        PipedStep(Exec(EMPTY, calls[..n]), calls[n].0, calls[n].1, k);
      }
    }
  }

  /** In every reachable catalog all documents of a generation were made under the pipeline the
      generation was begun with. */
  lemma GenerationPipeline(s: State)
    requires Reachable(s)
    ensures forall k | k in s.documents ::
      && k.0 in s.generations
      && PipelineDigest(s.documents[k].pipeline) == PipelineDigest(s.generations[k.0].pipeline)
  {
    var calls :| Reaches(calls, s);
    PipedExec(calls);
    forall k | k in s.documents
      ensures k.0 in s.generations &&
        PipelineDigest(s.documents[k].pipeline) == PipelineDigest(s.generations[k.0].pipeline)
    {
      assert RowPiped(s, k);
    }
  }
}
