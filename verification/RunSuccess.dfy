/** When a synchronization run goes through: with fresh identifiers, chunks that name their own source
    and chunk IDs that belong to one source each, no action of a plan can fail. */
module RunSuccess {
  import opened Common
  import opened Digest
  import opened Records
  import opened Catalog
  import opened CatalogInvariants
  import Store = CatalogStore
  import History = CatalogHistory
  import opened Planner
  import opened Convergence
  import opened Replanning

  /** The one source a chunk ID belongs to. */
  type Owner = string -> string

  ghost predicate OwnedRows(chunks: Chunks, owner: Owner) {
    forall k {:trigger chunks[k]} | k in chunks :: owner(k.1) == chunks[k].sourceId
  }

  /** The chunks of every source are a valid manifest of that source alone. */
  ghost predicate GoodTable(table: ChunkTable, kbId: string, owner: Owner) {
    && Owned(table)
    && forall id | id in table ::
         && |table[id]| <= 1_000_000 && Store.Acceptable(table[id], kbId)
         && forall c | c in table[id] :: owner(c.chunkId) == id
  }

  /** The document an action carries over is a row of another generation. */
  ghost predicate CarriesRow(documents: Documents, g: string, kbId: string, a: SyncAction) {
    Carries(a) ==>
      && a.previous.Some? && a.previous.value.generationId != g && a.previous.value.kbId == kbId
      && (a.previous.value.generationId, a.sourceId) in documents
  }

  /** The chunks of every source that is processed anew are there. */
  ghost predicate Materialized(a: SyncAction, table: ChunkTable) {
    a.change != Deleted && !Carries(a) ==> a.sourceId in table
  }

  ghost predicate AllMaterialized(actions: seq<SyncAction>, table: ChunkTable) {
    forall a | a in actions :: Materialized(a, table)
  }

  ghost predicate Building(t: State, runId: string, g: string, kbId: string, pipeline: Pipeline, owner: Owner) {
    && RunsIn(t, runId, g, kbId) && t.runs[runId].digest == PipelineDigest(pipeline)
    && OwnedRows(t.chunks, owner) && Referenced(t.generations, t.documents, t.chunks)
  }

  ghost predicate Unrecorded(documents: Documents, g: string, kbId: string, a: SyncAction) {
    a.change != Deleted ==>
      && (g, a.sourceId) !in documents && a.source.Some? && a.source.value.kbId == kbId
      && !PathTaken(documents, g, a.sourceId, a.relativePath)
  }

  // ----- carrying

  lemma NoClash(chunks: Chunks, from: string, sourceId: string, to: string, documents: Documents, owner: Owner)
    requires OwnedRows(chunks, owner) && (to, sourceId) !in documents
    requires forall k {:trigger chunks[k]} | k in chunks :: (k.0, chunks[k].sourceId) in documents
    ensures !ChunkClash(chunks, from, sourceId, to)
  {
    forall k | k in chunks && k.0 == from && chunks[k].sourceId == sourceId ensures (to, k.1) !in chunks {
      assert owner(k.1) == sourceId;
      assert (to, k.1) in chunks ==> owner(k.1) == chunks[(to, k.1)].sourceId;
    }
  }

  lemma CopiedOwned(chunks: Chunks, from: string, sourceId: string, to: string, owner: Owner)
    requires OwnedRows(chunks, owner)
    ensures OwnedRows(chunks + CopiedRows(chunks, from, sourceId, to), owner)
  {
    var copied := CopiedRows(chunks, from, sourceId, to);
    var all := chunks + copied;
    forall k | k in copied ensures owner(k.1) == copied[k].sourceId {
      assert chunks[(from, k.1)] == copied[k];
    }
    forall k | k in all ensures owner(k.1) == all[k].sourceId {
      if k !in copied { assert chunks[k] == all[k]; }
    }
  }

  lemma CarryReady(
    t: State, runId: string, g: string, kbId: string, pipeline: Pipeline, owner: Owner, a: SyncAction,
    override: Option<Pipeline>)
    requires Building(t, runId, g, kbId, pipeline, owner) && Coherent(a, pipeline) && Carries(a)
    requires CarriesRow(t.documents, g, kbId, a) && Unrecorded(t.documents, g, kbId, a)
    requires (if override.Some? then override.value else a.previous.value.pipeline) == pipeline
    ensures var o := Carry(t, runId, a.previous.value, override);
      o.Done? && OwnedRows(o.state.chunks, owner)
  {
    NoClash(t.chunks, a.previous.value.generationId, a.sourceId, g, t.documents, owner);
    CopiedOwned(t.chunks, a.previous.value.generationId, a.sourceId, g, owner);
  }

  // ----- recording

  lemma {:induction false} WithRowsOwned(rows: Chunks, g: string, chunks: seq<ChunkInput>, owner: Owner)
    requires OwnedRows(rows, owner) && forall c | c in chunks :: owner(c.chunkId) == c.sourceId
    ensures OwnedRows(WithRows(rows, g, chunks), owner)
  {
    if chunks != [] {
      var n := |chunks| - 1;
      var last := chunks[n];
      assert last in chunks && forall c | c in chunks[..n] :: c in chunks;
      WithRowsOwned(rows, g, chunks[..n], owner);
      var earlier := WithRows(rows, g, chunks[..n]);
      var after: Chunks := earlier[(g, last.chunkId) := RowOf(last)];
      forall k: Key | k in after ensures owner(k.1) == after[k].sourceId {
        if k != (g, last.chunkId) { assert earlier[k] == after[k]; }
      }
    }
  }

  lemma WithoutOwned(rows: Chunks, g: string, sources: set<string>, owner: Owner)
    requires OwnedRows(rows, owner)
    ensures OwnedRows(WithoutSources(rows, g, sources), owner)
  {
    var after := WithoutSources(rows, g, sources);
    forall k | k in after ensures owner(k.1) == after[k].sourceId { assert rows[k] == after[k]; }
  }

  lemma GoodChunks(table: ChunkTable, kbId: string, owner: Owner, id: string)
    requires GoodTable(table, kbId, owner)
    ensures var chunks := ChunksOf(table, id);
      && |chunks| <= 1_000_000 && Store.Acceptable(chunks, kbId)
      && forall c | c in chunks :: owner(c.chunkId) == id && c.sourceId == id
  {
  }

  lemma ChunksReady(t: State, runId: string, g: string, kbId: string, chunks: seq<ChunkInput>, id: string, owner: Owner)
    requires RunsIn(t, runId, g, kbId) && (g, id) in t.documents && OwnedRows(t.chunks, owner)
    requires |chunks| <= 1_000_000 && Store.Acceptable(chunks, kbId)
    requires forall c | c in chunks :: owner(c.chunkId) == id && c.sourceId == id
    ensures var o := RecordChunks(t, runId, chunks);
      o.Done? && OwnedRows(o.state.chunks, owner)
  {
    CountAll(chunks, id);
    WithoutOwned(t.chunks, g, SourcesOf(chunks), owner);
    WithRowsOwned(WithoutSources(t.chunks, g, SourcesOf(chunks)), g, chunks, owner);
  }

  lemma RecordReady(
    t: State, runId: string, g: string, kbId: string, pipeline: Pipeline, owner: Owner, a: SyncAction, count: nat)
    requires Building(t, runId, g, kbId, pipeline, owner) && Coherent(a, pipeline) && a.change != Deleted
    requires Unrecorded(t.documents, g, kbId, a)
    ensures Record(t, runId, a.source.value, pipeline, count).Done?
    ensures Record(t, runId, a.source.value, pipeline, count).state.chunks == t.chunks
  {
  }

  lemma PerformReady(
    t: State, runId: string, g: string, kbId: string, pipeline: Pipeline, owner: Owner, a: SyncAction,
    table: ChunkTable)
    requires Building(t, runId, g, kbId, pipeline, owner) && Coherent(a, pipeline) && GoodTable(table, kbId, owner)
    requires CarriesRow(t.documents, g, kbId, a) && Unrecorded(t.documents, g, kbId, a) && Materialized(a, table)
    ensures var p := Perform(t, runId, a, pipeline, table);
      p.ok && OwnedRows(p.state.chunks, owner)
  {
    if a.change == Deleted {
    } else if Carries(a) {
      CarryReady(t, runId, g, kbId, pipeline, owner, a, if a.change == Unchanged then None else Some(pipeline));
    } else {
      var chunks := ChunksOf(table, a.sourceId);
      RecordReady(t, runId, g, kbId, pipeline, owner, a, |chunks|);
      RecordAdds(t, runId, g, kbId, a, pipeline, |chunks|);
      GoodChunks(table, kbId, owner, a.sourceId);
      ChunksReady(Record(t, runId, a.source.value, pipeline, |chunks|).state, runId, g, kbId, chunks, a.sourceId,
        owner);
    }
  }

  // ----- what an action leaves alone

  lemma PerformReachable(t: State, runId: string, a: SyncAction, pipeline: Pipeline, table: ChunkTable)
    requires Reachable(t)
    ensures Reachable(Perform(t, runId, a, pipeline, table).state)
  {
    if a.change == Unchanged {
      if a.previous.Some? { ReachableStep(t, CarryOp(runId, a.previous.value, None), 0); }
    } else if a.change == Deleted {
    } else if a.startStage == IndexStage && a.previous.Some? {
      ReachableStep(t, CarryOp(runId, a.previous.value, Some(pipeline)), 0);
    } else if a.source.Some? {
      var chunks := ChunksOf(table, a.source.value.sourceId);
      var recorded := RecordOp(runId, a.source.value, pipeline, |chunks|);
      ReachableStep(t, recorded, 0);
      ReachableStep(Step(t, recorded, 0), ChunksOp(runId, chunks), 0);
    }
  }

  lemma ReachableRows(t: State)
    requires Reachable(t)
    ensures Referenced(t.generations, t.documents, t.chunks)
  {
    ReachableHolds(t);
  }

  lemma PerformElsewhere(t: State, runId: string, a: SyncAction, pipeline: Pipeline, table: ChunkTable, k: Key)
    requires runId in t.runs && k.0 != t.runs[runId].generationId
    ensures SameRow(t.documents, Perform(t, runId, a, pipeline, table).state.documents, k)
    ensures SameRow(t.chunks, Perform(t, runId, a, pipeline, table).state.chunks, k)
  {
    if a.change == Unchanged {
      if a.previous.Some? { CarryElsewhere(t, runId, a.previous.value, None, k); }
    } else if a.change == Deleted {
    } else if a.startStage == IndexStage && a.previous.Some? {
      CarryElsewhere(t, runId, a.previous.value, Some(pipeline), k);
    } else if a.source.Some? {
      var chunks := ChunksOf(table, a.source.value.sourceId);
      RecordElsewhere(t, runId, a.source.value, pipeline, |chunks|, k);
      ChunksElsewhere(After(t, Record(t, runId, a.source.value, pipeline, |chunks|)), runId, chunks, k);
    }
  }

  // ----- the whole list

  /** The actions follow a plan for these sources and carry over rows of the given tables. */
  ghost predicate Feasible(
    documents: Documents, g: string, kbId: string, sources: seq<Source>, actions: seq<SyncAction>, pipeline: Pipeline)
  {
    && IdsDiffer(actions)
    && forall a | a in actions ::
         && Coherent(a, pipeline) && CarriesRow(documents, g, kbId, a)
         && (a.change != Deleted ==> a.source.value in sources && a.source.value.kbId == kbId)
  }

  lemma NextUnrecorded(
    t: State, g: string, kbId: string, sources: seq<Source>, earlier: seq<SyncAction>, a: SyncAction,
    pipeline: Pipeline, table: ChunkTable)
    requires UniqueSources(sources) && HoldsActions(t, g, earlier, kbId, pipeline, table)
    requires forall b | b in earlier + [a] ::
      Coherent(b, pipeline) && (b.change != Deleted ==> b.source.value in sources)
    requires a.change != Deleted ==> a.source.Some? && a.source.value.kbId == kbId
    requires forall b | b in earlier :: b.sourceId != a.sourceId
    ensures Unrecorded(t.documents, g, kbId, a)
  {
    assert (earlier + [a])[|earlier|] == a;
    forall b | b in earlier ensures b in earlier + [a] {}
    if a.change != Deleted {
      assert forall b :: !Kept(earlier, a.sourceId, b);
      forall k | k in t.documents && k.0 == g && k.1 != a.sourceId
        ensures t.documents[k].relativePath != a.relativePath
      {
        assert (g, k.1) in t.documents;
        var b :| Kept(earlier, k.1, b);
        assert RowMatches(t.documents[(g, k.1)], b, kbId, pipeline, CountAfter(b, table));
        PathsDiffer(sources, a.source.value, b.source.value);
      }
    }
  }

  lemma {:induction false} PerformedReady(
    s: State, runId: string, g: string, kbId: string, sources: seq<Source>, actions: seq<SyncAction>,
    pipeline: Pipeline, table: ChunkTable, owner: Owner)
    requires Reachable(s) && Building(s, runId, g, kbId, pipeline, owner) && GoodTable(table, kbId, owner)
    requires UniqueSources(sources) && Feasible(s.documents, g, kbId, sources, actions, pipeline)
    requires AllMaterialized(actions, table) && forall id: string :: (g, id) !in s.documents
    ensures var p := Performed(s, runId, actions, pipeline, table);
      && p.ok && Reachable(p.state) && OwnedRows(p.state.chunks, owner)
      && forall k: Key | k.0 != g :: SameRow(s.documents, p.state.documents, k)
  {
    if actions != [] {
      var n := |actions| - 1;
      var earlier, a := actions[..n], actions[n];
      FeasiblePrefix(s.documents, g, kbId, sources, actions, pipeline);
      PerformedReady(s, runId, g, kbId, sources, earlier, pipeline, table, owner);
      PerformedHolds(s, runId, g, kbId, earlier, pipeline, table);
      var mid := Performed(s, runId, earlier, pipeline, table).state;
      StepReady(s, mid, runId, g, kbId, sources, earlier, a, pipeline, table, owner);
    }
  }

  lemma FeasiblePrefix(
    documents: Documents, g: string, kbId: string, sources: seq<Source>, actions: seq<SyncAction>, pipeline: Pipeline)
    requires Feasible(documents, g, kbId, sources, actions, pipeline) && actions != []
    ensures var n := |actions| - 1;
      && Feasible(documents, g, kbId, sources, actions[..n], pipeline)
      && actions == actions[..n] + [actions[n]] && actions[n] in actions
      && (forall b | b in actions[..n] :: b in actions && b.sourceId != actions[n].sourceId)
  {
    var n := |actions| - 1;
    forall b | b in actions[..n] ensures b in actions && b.sourceId != actions[n].sourceId {
      var i :| 0 <= i < n && actions[i] == b;
    }
  }

  lemma StepReady(
    s: State, mid: State, runId: string, g: string, kbId: string, sources: seq<Source>, earlier: seq<SyncAction>,
    a: SyncAction, pipeline: Pipeline, table: ChunkTable, owner: Owner)
    requires Reachable(mid) && RunsIn(s, runId, g, kbId) && s.runs[runId].digest == PipelineDigest(pipeline)
    requires Replanning.SameRuns(s, mid) && HoldsActions(mid, g, earlier, kbId, pipeline, table)
    requires OwnedRows(mid.chunks, owner) && GoodTable(table, kbId, owner) && UniqueSources(sources)
    requires forall k: Key | k.0 != g :: SameRow(s.documents, mid.documents, k)
    requires Feasible(s.documents, g, kbId, sources, earlier + [a], pipeline)
    requires Materialized(a, table) && forall b | b in earlier :: b.sourceId != a.sourceId
    ensures var p := Perform(mid, runId, a, pipeline, table);
      && p.ok && Reachable(p.state) && OwnedRows(p.state.chunks, owner)
      && forall k: Key | k.0 != g :: SameRow(s.documents, p.state.documents, k)
  {
    assert (earlier + [a])[|earlier|] == a;
    NextUnrecorded(mid, g, kbId, sources, earlier, a, pipeline, table);
    if Carries(a) { assert SameRow(s.documents, mid.documents, (a.previous.value.generationId, a.sourceId)); }
    ReachableRows(mid);
    PerformReady(mid, runId, g, kbId, pipeline, owner, a, table);
    PerformReachable(mid, runId, a, pipeline, table);
    forall k: Key | k.0 != g ensures SameRow(s.documents, Perform(mid, runId, a, pipeline, table).state.documents, k) {
      assert SameRow(s.documents, mid.documents, k);
      PerformElsewhere(mid, runId, a, pipeline, table, k);
    }
  }

  lemma PlanFeasible(
    s: State, kbId: string, g: string, sources: seq<Source>, manifest: seq<ManifestDocument>, actions: seq<SyncAction>,
    pipeline: Pipeline)
    requires Reachable(s) && g !in s.generations && History.IsListing(s, kbId, None, manifest)
    requires PlanAccepted(sources, manifest, Some(kbId)) && IsPlan(sources, manifest, pipeline, actions)
    ensures Feasible(s.documents, g, kbId, sources, actions, pipeline)
  {
    PlanFollowable(sources, manifest, pipeline, actions);
    SameKb(sources, manifest, kbId);
    forall a | a in actions ensures CarriesRow(s.documents, g, kbId, a) {
      assert InPlan(sources, manifest, pipeline, a);
      if Carries(a) { ListedRow(s, kbId, g, manifest, a.previous.value); }
    }
  }

  lemma ListedRow(s: State, kbId: string, g: string, manifest: seq<ManifestDocument>, d: ManifestDocument)
    requires History.IsListing(s, kbId, None, manifest) && g !in s.generations && d in manifest
    ensures d.generationId != g && d.kbId == kbId && (d.generationId, d.sourceId) in s.documents
  {
    var c := CurrentOf(s, kbId);
    assert History.IsRow(s, kbId, c.value, d);
  }

  lemma StartedBuilding(s: State, kbId: string, t: Ticket, pipeline: Pipeline, owner: Owner)
    requires Reachable(s) && t.generationId !in s.generations && t.runId !in s.runs && OwnedRows(s.chunks, owner)
    ensures var o := Started(s, kbId, t, pipeline);
      && o.Done? && Reachable(o.state) && Building(o.state, t.runId, t.generationId, kbId, pipeline, owner)
      && o.state.documents == s.documents
      && forall id: string :: (t.generationId, id) !in s.documents
  {
    var op := BeginOp(t.runId, t.generationId, kbId, pipeline);
    ReachableStep(s, op, t.began);
    assert Started(s, kbId, t, pipeline).state == Step(s, op, t.began);
    ReachableRows(Step(s, op, t.began));
    forall id: string ensures (t.generationId, id) !in s.documents { FreshGeneration(s, t.generationId, id); }
  }

  lemma ClosingOk(p: State, kbId: string, t: Ticket)
    requires RunsIn(p, t.runId, t.generationId, kbId)
    ensures Closing(Progress(p, true), kbId, t).ok <==> HasChunks(p, kbId, t.generationId)
  {
  }

  lemma {:induction false} MissingFails(
    s: State, runId: string, actions: seq<SyncAction>, pipeline: Pipeline, table: ChunkTable, i: nat)
    requires i < |actions| && Coherent(actions[i], pipeline) && !Materialized(actions[i], table)
    ensures !Performed(s, runId, actions, pipeline, table).ok
  {
    assert actions[..i + 1][..i] == actions[..i];
    StaysFailed(s, runId, actions, pipeline, table, i + 1);
  }

  /** No action of a feasible list fails when every source it processes anew could be processed, and
      one does otherwise; then the run publishes unless the new generation would hold no chunk. */
  lemma RunSucceeds(
    s: State, kbId: string, t: Ticket, sources: seq<Source>, actions: seq<SyncAction>, pipeline: Pipeline,
    table: ChunkTable, owner: Owner)
    requires Reachable(s) && t.generationId !in s.generations && t.runId !in s.runs && UniqueSources(sources)
    requires Feasible(s.documents, t.generationId, kbId, sources, actions, pipeline)
    requires OwnedRows(s.chunks, owner) && GoodTable(table, kbId, owner)
    ensures var p := Performed(Started(s, kbId, t, pipeline).state, t.runId, actions, pipeline, table);
      && (p.ok <==> AllMaterialized(actions, table))
      && (Synced(s, kbId, t, actions, pipeline, table).ok <==> p.ok && HasChunks(p.state, kbId, t.generationId))
  {
    var begun := Started(s, kbId, t, pipeline).state;
    StartedBuilding(s, kbId, t, pipeline, owner);
    if AllMaterialized(actions, table) {
      PerformedReady(begun, t.runId, t.generationId, kbId, sources, actions, pipeline, table, owner);
      PerformedHolds(begun, t.runId, t.generationId, kbId, actions, pipeline, table);
      ClosingOk(Performed(begun, t.runId, actions, pipeline, table).state, kbId, t);
    } else {
      var a :| a in actions && !Materialized(a, table);
      var i :| 0 <= i < |actions| && actions[i] == a;
      MissingFails(begun, t.runId, actions, pipeline, table, i);
    }
  }
}
