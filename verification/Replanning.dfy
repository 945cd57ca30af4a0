/** Convergence: after a successful run, planning again on the same sources and pipeline is a no-op
    exactly when every kept source has at least one chunk. */
module Replanning {
  import opened Common
  import opened Digest
  import opened Records
  import opened Catalog
  import opened CatalogInvariants
  import History = CatalogHistory
  import opened Planner
  import opened Convergence

  // ----- what an action leaves behind

  /** The action names one document consistently. */
  ghost predicate Coherent(a: SyncAction, pipeline: Pipeline) {
    a.change != Deleted ==>
      && a.source.Some? && a.source.value.sourceId == a.sourceId && a.source.value.relativePath == a.relativePath
      && (a.change == Unchanged ==> Carries(a) && a.previous.Some? && a.previous.value.pipeline == pipeline)
      && (Carries(a) ==> a.previous.Some? && Republishes(a.source.value, a.previous.value))
  }

  ghost predicate Republishes(s: Source, d: ManifestDocument) {
    d.sourceId == s.sourceId && d.relativePath == s.relativePath && d.contentSha256 == s.sha256
  }

  /** The chunk count the new manifest will hold. */
  function CountAfter(a: SyncAction, table: ChunkTable): int {
    if Carries(a) && a.previous.Some? then a.previous.value.chunkCount else |ChunksOf(table, a.sourceId)|
  }

  /** Chunking labels every chunk with the source it came from. */
  ghost predicate Owned(table: ChunkTable) {
    forall id, c | id in table && c in table[id] :: c.sourceId == id
  }

  /** The row an action publishes: a carried document keeps its recorded file details, a processed
      source has those of the scan. */
  function PublishedRow(a: SyncAction, kbId: string, pipeline: Pipeline, count: int): DocumentRow
    requires a.source.Some?
  {
    var s := a.source.value;
    if Carries(a) && a.previous.Some? then
      var d := a.previous.value;
      DocumentRow(kbId, a.relativePath, d.mediaType, d.sizeBytes, d.mtimeNs, s.sha256, pipeline, count)
    else DocumentRow(kbId, a.relativePath, s.mediaType, s.sizeBytes, s.mtimeNs, s.sha256, pipeline, count)
  }

  ghost predicate RowMatches(row: DocumentRow, a: SyncAction, kbId: string, pipeline: Pipeline, count: int) {
    a.source.Some? && row == PublishedRow(a, kbId, pipeline, count)
  }

  /** The source a performed action adds to generation `g`, and nothing else. */
  ghost predicate Adds(
    before: State, after: State, g: string, a: SyncAction, kbId: string, pipeline: Pipeline, table: ChunkTable)
  {
    forall id: string ::
      if id == a.sourceId && a.change != Deleted
      then (g, id) in after.documents && RowMatches(after.documents[(g, id)], a, kbId, pipeline, CountAfter(a, table))
      else SameRow(before.documents, after.documents, (g, id))
  }

  ghost predicate SameRuns(s: State, t: State) {
    t.generations == s.generations && t.runs == s.runs && t.current == s.current && t.history == s.history
  }

  ghost predicate RunsIn(s: State, runId: string, g: string, kbId: string) {
    Writable(s, runId) && s.runs[runId].generationId == g && s.runs[runId].kbId == kbId
  }

  lemma CarryAdds(
    s: State, runId: string, g: string, kbId: string, a: SyncAction, pipeline: Pipeline, table: ChunkTable,
    override: Option<Pipeline>)
    requires RunsIn(s, runId, g, kbId) && Coherent(a, pipeline) && Carries(a)
    requires Carry(s, runId, a.previous.value, override).Done?
    requires (if override.Some? then override.value else a.previous.value.pipeline) == pipeline
    ensures var t := Carry(s, runId, a.previous.value, override).state;
      SameRuns(s, t) && Adds(s, t, g, a, kbId, pipeline, table)
  {
  }

  lemma {:induction false} CountAll(chunks: seq<ChunkInput>, id: string)
    requires forall c | c in chunks :: c.sourceId == id
    ensures CountOf(chunks, id) == |chunks| && SourcesOf(chunks) <= {id} && (chunks != [] ==> id in SourcesOf(chunks))
  {
    if chunks != [] {
      var n := |chunks| - 1;
      assert chunks[n] in chunks && forall c | c in chunks[..n] :: c in chunks;
      CountAll(chunks[..n], id);
    }
  }

  lemma OwnChunks(table: ChunkTable, id: string)
    requires Owned(table)
    ensures forall c | c in ChunksOf(table, id) :: c.sourceId == id
  {
  }

  lemma RecordAdds(s: State, runId: string, g: string, kbId: string, a: SyncAction, pipeline: Pipeline, count: int)
    requires RunsIn(s, runId, g, kbId) && a.source.Some? && a.source.value.sourceId == a.sourceId && !Carries(a)
    requires a.source.value.relativePath == a.relativePath && (g, a.sourceId) !in s.documents
    requires Record(s, runId, a.source.value, pipeline, count).Done?
    ensures var t := Record(s, runId, a.source.value, pipeline, count).state;
      && SameRuns(s, t) && (g, a.sourceId) in t.documents &&
        RowMatches(t.documents[(g, a.sourceId)], a, kbId, pipeline, count)
      && forall id: string | id != a.sourceId :: SameRow(s.documents, t.documents, (g, id))
  {
  }

  lemma RecordChunksKeeps(s: State, runId: string, g: string, chunks: seq<ChunkInput>, id: string)
    requires runId in s.runs && s.runs[runId].generationId == g && RecordChunks(s, runId, chunks).Done?
    requires forall c | c in chunks :: c.sourceId == id
    requires (g, id) in s.documents && s.documents[(g, id)].chunkCount == |chunks|
    ensures SameRuns(s, RecordChunks(s, runId, chunks).state)
    ensures RecordChunks(s, runId, chunks).state.documents == s.documents
  {
    CountAll(chunks, id);
    var t := RecordChunks(s, runId, chunks).state;
    assert t.documents == Recounted(s.documents, g, chunks);
    forall k | k in s.documents ensures Recounted(s.documents, g, chunks)[k] == s.documents[k] {}
  }

  lemma PerformAdds(
    s: State, runId: string, g: string, kbId: string, a: SyncAction, pipeline: Pipeline, table: ChunkTable)
    requires RunsIn(s, runId, g, kbId) && Coherent(a, pipeline) && Owned(table)
    requires a.change != Deleted ==> (g, a.sourceId) !in s.documents
    requires Perform(s, runId, a, pipeline, table).ok
    ensures var t := Perform(s, runId, a, pipeline, table).state;
      SameRuns(s, t) && Adds(s, t, g, a, kbId, pipeline, table)
  {
    if a.change == Deleted {
    } else if Carries(a) {
      CarryAdds(s, runId, g, kbId, a, pipeline, table, if a.change == Unchanged then None else Some(pipeline));
    } else {
      var chunks := ChunksOf(table, a.sourceId);
      var recorded := Record(s, runId, a.source.value, pipeline, |chunks|).state;
      RecordAdds(s, runId, g, kbId, a, pipeline, |chunks|);
      OwnChunks(table, a.sourceId);
      RecordChunksKeeps(recorded, runId, g, chunks, a.sourceId);
    }
  }

  // ----- the whole list of actions

  ghost predicate Kept(actions: seq<SyncAction>, id: string, a: SyncAction) {
    a in actions && a.sourceId == id && a.change != Deleted
  }

  /** Generation `g` holds exactly the kept sources of the actions. */
  ghost predicate HoldsActions(
    s: State, g: string, actions: seq<SyncAction>, kbId: string, pipeline: Pipeline, table: ChunkTable)
  {
    && (forall id: string :: (g, id) in s.documents ==> exists a :: Kept(actions, id, a))
    && forall id, a | Kept(actions, id, a) ::
         (g, id) in s.documents && RowMatches(s.documents[(g, id)], a, kbId, pipeline, CountAfter(a, table))
  }

  lemma AddsOne(
    s: State, t: State, g: string, earlier: seq<SyncAction>, a: SyncAction, kbId: string, pipeline: Pipeline,
    table: ChunkTable)
    requires HoldsActions(s, g, earlier, kbId, pipeline, table) && Adds(s, t, g, a, kbId, pipeline, table)
    requires forall b | b in earlier :: b.sourceId != a.sourceId
    ensures HoldsActions(t, g, earlier + [a], kbId, pipeline, table)
  {
    var longer := earlier + [a];
    assert longer[|earlier|] == a && forall b :: b in longer <==> b in earlier || b == a;
    forall id: string | (g, id) in t.documents ensures exists b :: Kept(longer, id, b) {
      if id == a.sourceId && a.change != Deleted {
        assert Kept(longer, id, a);
      } else {
        assert SameRow(s.documents, t.documents, (g, id));
        var b :| Kept(earlier, id, b);
        assert Kept(longer, id, b);
      }
    }
    forall id, b | Kept(longer, id, b)
      ensures (g, id) in t.documents && RowMatches(t.documents[(g, id)], b, kbId, pipeline, CountAfter(b, table))
    {
      if b != a {
        assert Kept(earlier, id, b);
        assert SameRow(s.documents, t.documents, (g, id));
      }
    }
  }

  ghost predicate AllCoherent(actions: seq<SyncAction>, pipeline: Pipeline) {
    forall a | a in actions :: Coherent(a, pipeline)
  }

  lemma LastAction(actions: seq<SyncAction>, pipeline: Pipeline)
    requires actions != [] && IdsDiffer(actions) && AllCoherent(actions, pipeline)
    ensures var n := |actions| - 1;
      && actions == actions[..n] + [actions[n]] && IdsDiffer(actions[..n]) && AllCoherent(actions[..n], pipeline)
      && Coherent(actions[n], pipeline) && forall b | b in actions[..n] :: b.sourceId != actions[n].sourceId
  {
  }

  lemma NextHolds(
    s: State, mid: State, runId: string, g: string, kbId: string, earlier: seq<SyncAction>, a: SyncAction,
    pipeline: Pipeline, table: ChunkTable)
    requires RunsIn(s, runId, g, kbId) && SameRuns(s, mid) && Owned(table) && Coherent(a, pipeline)
    requires HoldsActions(mid, g, earlier, kbId, pipeline, table) && Perform(mid, runId, a, pipeline, table).ok
    requires forall b | b in earlier :: b.sourceId != a.sourceId
    ensures var t := Perform(mid, runId, a, pipeline, table).state;
      SameRuns(s, t) && HoldsActions(t, g, earlier + [a], kbId, pipeline, table)
  {
    assert forall b :: !Kept(earlier, a.sourceId, b);
    PerformAdds(mid, runId, g, kbId, a, pipeline, table);
    AddsOne(mid, Perform(mid, runId, a, pipeline, table).state, g, earlier, a, kbId, pipeline, table);
  }

  lemma {:induction false} PerformedHolds(
    s: State, runId: string, g: string, kbId: string, actions: seq<SyncAction>, pipeline: Pipeline, table: ChunkTable)
    requires RunsIn(s, runId, g, kbId) && Owned(table) && IdsDiffer(actions) && AllCoherent(actions, pipeline)
    requires forall id: string :: (g, id) !in s.documents
    requires Performed(s, runId, actions, pipeline, table).ok
    ensures var t := Performed(s, runId, actions, pipeline, table).state;
      SameRuns(s, t) && HoldsActions(t, g, actions, kbId, pipeline, table)
  {
    if actions != [] {
      var n := |actions| - 1;
      LastAction(actions, pipeline);
      PerformedHolds(s, runId, g, kbId, actions[..n], pipeline, table);
      NextHolds(s, Performed(s, runId, actions[..n], pipeline, table).state, runId, g, kbId, actions[..n], actions[n],
        pipeline, table);
    }
  }

  // ----- the published generation

  lemma FreshGeneration(s: State, g: string, id: string)
    requires Reachable(s) && g !in s.generations
    ensures (g, id) !in s.documents
  {
    ReachableHolds(s);
  }

  /** A successful run publishes a generation holding exactly the kept sources. */
  lemma SyncedHolds(s: State, kbId: string, t: Ticket, actions: seq<SyncAction>, pipeline: Pipeline, table: ChunkTable)
    requires Reachable(s) && Owned(table) && IdsDiffer(actions)
    requires AllCoherent(actions, pipeline)
    requires Synced(s, kbId, t, actions, pipeline, table).ok
    ensures var u := Synced(s, kbId, t, actions, pipeline, table).state;
      && HoldsActions(u, t.generationId, actions, kbId, pipeline, table)
      && CurrentOf(u, kbId) == Some(t.generationId) && t.generationId in u.generations
  {
    var begun := Started(s, kbId, t, pipeline).state;
    forall id: string ensures (t.generationId, id) !in begun.documents { FreshGeneration(s, t.generationId, id); }
    PerformedHolds(begun, t.runId, t.generationId, kbId, actions, pipeline, table);
    ClosingHolds(Performed(begun, t.runId, actions, pipeline, table).state, kbId, t);
    var p := Performed(begun, t.runId, actions, pipeline, table).state;
    SameDocuments(p, Closing(Progress(p, true), kbId, t).state, t.generationId, actions, kbId, pipeline, table);
  }

  lemma ClosingHolds(p: State, kbId: string, t: Ticket)
    requires RunsIn(p, t.runId, t.generationId, kbId) && t.generationId in p.generations
    requires Closing(Progress(p, true), kbId, t).ok
    ensures var u := Closing(Progress(p, true), kbId, t).state;
      u.documents == p.documents && CurrentOf(u, kbId) == Some(t.generationId) && t.generationId in u.generations
  {
  }

  lemma SameDocuments(
    p: State, u: State, g: string, actions: seq<SyncAction>, kbId: string, pipeline: Pipeline, table: ChunkTable)
    requires HoldsActions(p, g, actions, kbId, pipeline, table) && u.documents == p.documents
    ensures HoldsActions(u, g, actions, kbId, pipeline, table)
  {
  }

  // ----- planning again

  /** The kept actions are the given sources, one each. */
  ghost predicate Covers(actions: seq<SyncAction>, sources: seq<Source>) {
    && (forall a | a in actions && a.change != Deleted :: a.source.Some? && a.source.value in sources)
    && forall s | s in sources :: exists a :: Kept(actions, s.sourceId, a) && a.source == Some(s)
  }

  ghost predicate Enough(actions: seq<SyncAction>, table: ChunkTable) {
    forall a | a in actions && a.change != Deleted :: CountAfter(a, table) >= 1
  }

  predicate IsNoop(actions: seq<SyncAction>) {
    forall a | a in actions :: a.change == Unchanged
  }

  /** The document was published by this action for one of the given sources. */
  ghost predicate Descends(
    sources: seq<Source>, actions: seq<SyncAction>, table: ChunkTable, d: ManifestDocument, a: SyncAction)
  {
    && Kept(actions, d.sourceId, a) && a.source.Some? && a.source.value in sources
    && Republishes(a.source.value, d) && d.chunkCount == CountAfter(a, table)
  }

  ghost predicate HasDocument(docs: seq<ManifestDocument>, sourceId: string) {
    exists d :: d in docs && d.sourceId == sourceId
  }

  ghost predicate HasAction(sources: seq<Source>, actions: seq<SyncAction>, table: ChunkTable, d: ManifestDocument) {
    exists a :: Descends(sources, actions, table, d, a)
  }

  ghost predicate Republished(
    sources: seq<Source>, docs: seq<ManifestDocument>, actions: seq<SyncAction>, kbId: string, pipeline: Pipeline,
    table: ChunkTable)
  {
    && (forall d | d in docs :: d.kbId == kbId && d.pipeline == pipeline && HasAction(sources, actions, table, d))
    && forall s | s in sources :: HasDocument(docs, s.sourceId)
  }

  lemma ListedRows(
    u: State, kbId: string, g: string, docs: seq<ManifestDocument>, sources: seq<Source>,
    actions: seq<SyncAction>, pipeline: Pipeline, table: ChunkTable)
    requires HoldsActions(u, g, actions, kbId, pipeline, table) && CurrentOf(u, kbId) == Some(g) && g in u.generations
    requires History.IsListing(u, kbId, None, docs) && Covers(actions, sources)
    requires AllCoherent(actions, pipeline)
    ensures Republished(sources, docs, actions, kbId, pipeline, table)
  {
    forall d | d in docs ensures d.kbId == kbId && d.pipeline == pipeline && HasAction(sources, actions, table, d) {
      assert History.IsRow(u, kbId, g, d);
      var a :| Kept(actions, d.sourceId, a);
      assert RowMatches(u.documents[(g, d.sourceId)], a, kbId, pipeline, CountAfter(a, table));
      assert Coherent(a, pipeline);
      assert Descends(sources, actions, table, d, a);
    }
    forall s | s in sources ensures HasDocument(docs, s.sourceId) {
      var a :| Kept(actions, s.sourceId, a) && a.source == Some(s);
      var d := History.DocumentOf(u, (g, s.sourceId));
      assert RowMatches(u.documents[(g, s.sourceId)], a, kbId, pipeline, CountAfter(a, table));
      assert History.IsRow(u, kbId, g, d);
      assert d in docs;
    }
  }

  lemma PathsDiffer(sources: seq<Source>, s: Source, r: Source)
    requires UniqueSources(sources) && s in sources && r in sources && s.sourceId != r.sourceId
    ensures s.relativePath != r.relativePath
  {
  }

  /** A republished document and the source with its ID describe the same file. */
  lemma DocumentOfSource(
    sources: seq<Source>, actions: seq<SyncAction>, table: ChunkTable, d: ManifestDocument, s: Source)
    requires UniqueSources(sources) && s in sources && s.sourceId == d.sourceId && HasAction(sources, actions, table, d)
    ensures Republishes(s, d)
  {
  }

  lemma SourceOfDocument(
    sources: seq<Source>, actions: seq<SyncAction>, table: ChunkTable, d: ManifestDocument) returns (s: Source)
    requires HasAction(sources, actions, table, d)
    ensures s in sources && Republishes(s, d)
  {
    var a :| Descends(sources, actions, table, d, a);
    s := a.source.value;
  }

  ghost predicate IdsUnique(docs: seq<ManifestDocument>) {
    Distinct(docs) && forall d, e | d in docs && e in docs && d.sourceId == e.sourceId :: d == e
  }

  lemma RepublishedAccepted(
    sources: seq<Source>, docs: seq<ManifestDocument>, actions: seq<SyncAction>, kbId: string, pipeline: Pipeline,
    table: ChunkTable)
    requires Republished(sources, docs, actions, kbId, pipeline, table) && UniqueSources(sources) && IdsUnique(docs)
    ensures UniqueDocuments(docs) && PathsAgree(sources, docs)
  {
  }

  lemma ListingDistinct(u: State, kbId: string, g: string, docs: seq<ManifestDocument>)
    requires History.IsListing(u, kbId, None, docs) && CurrentOf(u, kbId) == Some(g)
    ensures IdsUnique(docs)
  {
    History.ByPathAsymmetric();
    StrictlyDistinct(docs, History.ByPath());
    forall d, e | d in docs && e in docs && d.sourceId == e.sourceId ensures d == e {
      assert History.IsRow(u, kbId, g, d) && History.IsRow(u, kbId, g, e);
    }
  }

  lemma OneKnowledgeBase(sources: seq<Source>, docs: seq<ManifestDocument>, kbId: string)
    requires kbId != "" && (forall s | s in sources :: s.kbId == kbId) && forall d | d in docs :: d.kbId == kbId
    ensures exists kb :: kb != "" && KnowledgeBases(sources, docs, Some(kbId)) == {kb}
  {
    assert KnowledgeBases(sources, docs, Some(kbId)) == {kbId};
  }

  lemma UnchangedWhen(s: Source, d: ManifestDocument, pipeline: Pipeline)
    requires Republishes(s, d) && d.pipeline == pipeline
    ensures Classified(s, Some(d), pipeline).change == Unchanged <==> d.chunkCount >= 1
  {
  }

  ghost predicate AllChunked(docs: seq<ManifestDocument>) {
    forall d | d in docs :: d.chunkCount >= 1
  }

  /** Every action of the second plan is about a republished document. */
  lemma Replanned(
    sources: seq<Source>, docs: seq<ManifestDocument>, actions: seq<SyncAction>, table: ChunkTable, kbId: string,
    pipeline: Pipeline, b: SyncAction)
    requires Republished(sources, docs, actions, kbId, pipeline, table) && UniqueSources(sources)
    requires InPlan(sources, docs, pipeline, b)
    ensures b.previous.Some? && b.previous.value in docs
    ensures b.change == Unchanged <==> b.previous.value.chunkCount >= 1
  {
    if b.source.Some? {
      var s := b.source.value;
      assert HasDocument(docs, s.sourceId);
      DocumentOfSource(sources, actions, table, b.previous.value, s);
      UnchangedWhen(s, b.previous.value, pipeline);
    } else {
      var s := SourceOfDocument(sources, actions, table, b.previous.value);
    }
  }

  lemma ReplannedDocument(
    sources: seq<Source>, docs: seq<ManifestDocument>, actions: seq<SyncAction>, table: ChunkTable, kbId: string,
    pipeline: Pipeline, replan: seq<SyncAction>, d: ManifestDocument)
    requires Republished(sources, docs, actions, kbId, pipeline, table) && UniqueSources(sources) && IdsUnique(docs)
    requires IsPlan(sources, docs, pipeline, replan) && IsNoop(replan) && d in docs
    ensures d.chunkCount >= 1
  {
    var s := SourceOfDocument(sources, actions, table, d);
    var b := PlannedSource(sources, docs, pipeline, replan, s);
    assert b.previous == Some(d);
    UnchangedWhen(s, d, pipeline);
  }

  lemma NoopWhenChunked(
    sources: seq<Source>, docs: seq<ManifestDocument>, actions: seq<SyncAction>, table: ChunkTable, kbId: string,
    pipeline: Pipeline, replan: seq<SyncAction>)
    requires Republished(sources, docs, actions, kbId, pipeline, table) && UniqueSources(sources) && IdsUnique(docs)
    requires IsPlan(sources, docs, pipeline, replan)
    ensures IsNoop(replan) <==> AllChunked(docs)
  {
    if AllChunked(docs) {
      forall b | b in replan ensures b.change == Unchanged {
        assert InPlan(sources, docs, pipeline, b);
        Replanned(sources, docs, actions, table, kbId, pipeline, b);
      }
    }
    if IsNoop(replan) {
      forall d | d in docs ensures d.chunkCount >= 1 {
        ReplannedDocument(sources, docs, actions, table, kbId, pipeline, replan, d);
      }
    }
  }

  lemma ChunkedWhenEnough(
    sources: seq<Source>, docs: seq<ManifestDocument>, actions: seq<SyncAction>, table: ChunkTable, kbId: string,
    pipeline: Pipeline)
    requires Republished(sources, docs, actions, kbId, pipeline, table) && IdsDiffer(actions)
    requires Covers(actions, sources)
    requires AllCoherent(actions, pipeline)
    ensures AllChunked(docs) <==> Enough(actions, table)
  {
    if Enough(actions, table) {
      forall d | d in docs ensures d.chunkCount >= 1 { var a :| Descends(sources, actions, table, d, a); }
    }
    if AllChunked(docs) {
      forall a | a in actions && a.change != Deleted ensures CountAfter(a, table) >= 1 {
        assert Coherent(a, pipeline);
        assert HasDocument(docs, a.source.value.sourceId);
        var d :| d in docs && d.sourceId == a.sourceId;
        var b :| Descends(sources, actions, table, d, b);
        OneAction(actions, a, b);
      }
    }
  }

  lemma OneAction(actions: seq<SyncAction>, a: SyncAction, b: SyncAction)
    requires IdsDiffer(actions) && a in actions && b in actions && a.sourceId == b.sourceId
    ensures a == b
  {
    var i :| 0 <= i < |actions| && actions[i] == a;
    var j :| 0 <= j < |actions| && actions[j] == b;
  }

  // ----- the theorem

  /** A list of actions a run may follow: one per source, removals apart. */
  ghost predicate Followable(actions: seq<SyncAction>, sources: seq<Source>, pipeline: Pipeline) {
    IdsDiffer(actions) && Covers(actions, sources) && AllCoherent(actions, pipeline)
  }

  lemma Follows(
    s: State, kbId: string, t: Ticket, sources: seq<Source>, actions: seq<SyncAction>, pipeline: Pipeline,
    table: ChunkTable, docs: seq<ManifestDocument>, replan: seq<SyncAction>)
    requires Reachable(s) && Owned(table) && Followable(actions, sources, pipeline) && UniqueSources(sources)
    requires kbId != "" && forall x | x in sources :: x.kbId == kbId
    requires Synced(s, kbId, t, actions, pipeline, table).ok
    requires History.IsListing(Synced(s, kbId, t, actions, pipeline, table).state, kbId, None, docs)
    ensures PlanAccepted(sources, docs, Some(kbId))
    ensures IsPlan(sources, docs, pipeline, replan) ==> (IsNoop(replan) <==> Enough(actions, table))
  {
    var u := Synced(s, kbId, t, actions, pipeline, table).state;
    SyncedHolds(s, kbId, t, actions, pipeline, table);
    ListedRows(u, kbId, t.generationId, docs, sources, actions, pipeline, table);
    ListingDistinct(u, kbId, t.generationId, docs);
    RepublishedAccepted(sources, docs, actions, kbId, pipeline, table);
    OneKnowledgeBase(sources, docs, kbId);
    if IsPlan(sources, docs, pipeline, replan) {
      NoopWhenChunked(sources, docs, actions, table, kbId, pipeline, replan);
      ChunkedWhenEnough(sources, docs, actions, table, kbId, pipeline);
    }
  }

  lemma PlanFollowable(
    sources: seq<Source>, manifest: seq<ManifestDocument>, pipeline: Pipeline, actions: seq<SyncAction>)
    requires UniqueSources(sources) && UniqueDocuments(manifest) && PathsAgree(sources, manifest)
    requires IsPlan(sources, manifest, pipeline, actions)
    ensures Followable(actions, sources, pipeline)
  {
    ByPathStrict();
    StrictlyDistinct(actions, ByPath());
    forall i, j | 0 <= i < j < |actions| ensures actions[i].sourceId != actions[j].sourceId {
      assert InPlan(sources, manifest, pipeline, actions[i]) && InPlan(sources, manifest, pipeline, actions[j]);
      if actions[i].sourceId == actions[j].sourceId {
        SameIdSameAction(sources, manifest, pipeline, actions[i], actions[j]);
      }
    }
    forall a | a in actions
      ensures Coherent(a, pipeline) && (a.change != Deleted ==> a.source.Some? && a.source.value in sources)
    {
      assert InPlan(sources, manifest, pipeline, a);
    }
    forall s | s in sources ensures exists a :: Kept(actions, s.sourceId, a) && a.source == Some(s) {
      var a := PlannedSource(sources, manifest, pipeline, actions, s);
      assert Kept(actions, s.sourceId, a);
    }
  }

  /** Follow a plan, publish, plan again on the same sources and pipeline: the second plan is
      accepted, and it is a no-op exactly when every source processed yields a chunk and every
      document carried over had one. */
  lemma SyncConverges(
    s: State, kbId: string, t: Ticket, sources: seq<Source>, manifest: seq<ManifestDocument>, actions: seq<SyncAction>,
    pipeline: Pipeline, table: ChunkTable, docs: seq<ManifestDocument>, replan: seq<SyncAction>)
    requires Reachable(s) && Owned(table)
    requires PlanAccepted(sources, manifest, Some(kbId)) && IsPlan(sources, manifest, pipeline, actions)
    requires Synced(s, kbId, t, actions, pipeline, table).ok
    requires History.IsListing(Synced(s, kbId, t, actions, pipeline, table).state, kbId, None, docs)
    ensures PlanAccepted(sources, docs, Some(kbId))
    ensures IsPlan(sources, docs, pipeline, replan) ==> (IsNoop(replan) <==> Enough(actions, table))
  {
    PlanFollowable(sources, manifest, pipeline, actions);
    SameKb(sources, manifest, kbId);
    Follows(s, kbId, t, sources, actions, pipeline, table, docs, replan);
  }

  lemma SameKb(sources: seq<Source>, manifest: seq<ManifestDocument>, kbId: string)
    requires PlanAccepted(sources, manifest, Some(kbId))
    ensures kbId != "" && forall x | x in sources :: x.kbId == kbId
  {
    var kb :| kb != "" && KnowledgeBases(sources, manifest, Some(kbId)) == {kb};
    assert kbId in KnowledgeBases(sources, manifest, Some(kbId));
    forall x | x in sources ensures x.kbId == kbId { assert x.kbId in KnowledgeBases(sources, manifest, Some(kbId)); }
  }

  /** The case that does not converge: only the index fingerprint changed and the published document
      has no chunks. It is carried over as it is, and the next plan sends it back to the parser. */
  lemma IndexOnlyEmpty(s: Source, d: ManifestDocument, pipeline: Pipeline, table: ChunkTable)
    requires Republishes(s, d) && d.chunkCount == 0 && d.pipeline != pipeline
    requires d.pipeline.(indexing := pipeline.indexing) == pipeline
    ensures var a := Classified(s, Some(d), pipeline);
      && Carries(a) && CountAfter(a, table) == 0
      && Classified(s, Some(d.(pipeline := pipeline)), pipeline)
        == Action(s, PipelineChanged, ParseStage, Some(d.(pipeline := pipeline)))
  {
  }

  // ----- the dimension migration

  /** `_force_current_sources_to_embedding`: nothing is carried when the vector size changes. */
  function Forced(a: SyncAction): SyncAction {
    if a.source.None? || a.startStage in
         {ParseStage, RestructureStage, RefineLayoutStage, EnrichStage, ChunkStage, EmbedStage}
    then a
    else SyncAction(a.sourceId, a.relativePath, PipelineChanged, EmbedStage, a.source, a.previous)
  }

  function ForcedActions(actions: seq<SyncAction>): seq<SyncAction> {
    Map(actions, (a: SyncAction) => Forced(a))
  }

  /** Removals have no source; an unchanged source has no stage to start at. */
  ghost predicate WellStaged(a: SyncAction) {
    (a.change == Deleted <==> a.source.None?) && (a.change == Unchanged ==> a.startStage == NoStage)
  }

  lemma PlanStaged(sources: seq<Source>, manifest: seq<ManifestDocument>, pipeline: Pipeline, actions: seq<SyncAction>)
    requires IsPlan(sources, manifest, pipeline, actions)
    ensures forall a | a in actions :: WellStaged(a)
  {
    forall a | a in actions ensures WellStaged(a) { assert InPlan(sources, manifest, pipeline, a); }
  }

  lemma ForcedAction(a: SyncAction, pipeline: Pipeline)
    requires Coherent(a, pipeline) && WellStaged(a)
    ensures var f := Forced(a);
      && Coherent(f, pipeline) && f.sourceId == a.sourceId && f.source == a.source && WellStaged(f)
      && (f.change == Deleted <==> a.change == Deleted) && f.change != Unchanged && !Carries(f)
  {
  }

  /** The migrated plan covers the same sources and carries nothing over. */
  lemma ForcedFollowable(actions: seq<SyncAction>, sources: seq<Source>, pipeline: Pipeline)
    requires Followable(actions, sources, pipeline) && forall a | a in actions :: WellStaged(a)
    ensures Followable(ForcedActions(actions), sources, pipeline)
    ensures forall a | a in ForcedActions(actions) :: !Carries(a) && a.change != Unchanged
  {
    var r := ForcedActions(actions);
    forall i | 0 <= i < |r|
      ensures Coherent(r[i], pipeline) && r[i].sourceId == actions[i].sourceId && r[i].source == actions[i].source
      ensures r[i].change == Deleted <==> actions[i].change == Deleted
      ensures !Carries(r[i]) && r[i].change != Unchanged
      ensures r[i].change != Deleted ==> r[i].source.Some? && r[i].source.value in sources
    {
      assert actions[i] in actions;
      ForcedAction(actions[i], pipeline);
    }
    forall s | s in sources ensures exists a :: Kept(r, s.sourceId, a) && a.source == Some(s) {
      var a :| Kept(actions, s.sourceId, a) && a.source == Some(s);
      var i :| 0 <= i < |actions| && actions[i] == a;
      assert r[i] in r && Kept(r, s.sourceId, r[i]);
    }
  }
}
