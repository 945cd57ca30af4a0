/** A catalog on which a synchronization that succeeds does not settle: a document was recorded without
    chunks beside one with a chunk, and then only the index fingerprint changes. The chunker never
    yields such a document; the catalog's own methods accept it. */
module IndexOnlyRun {
  import opened Common
  import opened Digest
  import opened Records
  import opened Catalog
  import opened CatalogInvariants
  import History = CatalogHistory
  import Store = CatalogStore
  import opened Planner
  import opened Convergence
  import opened Replanning
  import opened RunSuccess
  import opened ChunkCounts
  import opened SyncHistory

  /** Two files of one knowledge base; the second yields one chunk, the first none. */
  predicate TwoSources(kbId: string, x: Source, y: Source, c: ChunkInput) {
    && kbId != "" && x.kbId == kbId && y.kbId == kbId && x.sourceId != y.sourceId && x.relativePath != y.relativePath
    && c.kbId == kbId && c.sourceId == y.sourceId
  }

  function FirstTable(x: Source, y: Source, c: ChunkInput): ChunkTable {
    map[x.sourceId := [], y.sourceId := [c]]
  }

  function OnlyOwner(y: Source): Owner {
    (id: string) => y.sourceId
  }

  lemma FirstTableGood(kbId: string, x: Source, y: Source, c: ChunkInput)
    requires TwoSources(kbId, x, y, c)
    ensures GoodTable(FirstTable(x, y, c), kbId, OnlyOwner(y)) && OwnedTable(FirstTable(x, y, c), OnlyOwner(y))
  {
  }

  /** What a run leaves: the published rows are counted, listed and match the actions. */
  lemma RunListed(
    s: State, kbId: string, t: Ticket, sources: seq<Source>, manifest: seq<ManifestDocument>, actions: seq<SyncAction>,
    pipeline: Pipeline, table: ChunkTable, owner: Owner, y: Source) returns (docs: seq<ManifestDocument>)
    requires Reachable(s) && t.generationId !in s.generations && t.runId !in s.runs
    requires OwnedRows(s.chunks, owner) && GoodTable(table, kbId, owner) && OwnedTable(table, owner)
    requires History.IsListing(s, kbId, None, manifest) && PlanAccepted(sources, manifest, Some(kbId))
    requires IsPlan(sources, manifest, pipeline, actions) && AllMaterialized(actions, table)
    requires forall a | a in actions :: CarriesCounted(s, t.generationId, a)
    requires y in sources && forall a | Kept(actions, y.sourceId, a) :: CountAfter(a, table) >= 1
    ensures var p := Synced(s, kbId, t, actions, pipeline, table);
      && p.ok && Reachable(p.state) && OwnedRows(p.state.chunks, owner) && Counted(p.state, t.generationId)
      && CurrentOf(p.state, kbId) == Some(t.generationId) && t.generationId in p.state.generations
      && HoldsActions(p.state, t.generationId, actions, kbId, pipeline, table)
      && History.IsListing(p.state, kbId, None, docs) && PlanAccepted(sources, docs, Some(kbId))
  {
    RunGoes(s, kbId, t, sources, manifest, actions, pipeline, table, owner, y);
    PlanFollowable(sources, manifest, pipeline, actions);
    SyncedHolds(s, kbId, t, actions, pipeline, table);
    SyncedOthers(s, kbId, t, actions, pipeline, table, owner);
    docs := Store.ListingExists(Synced(s, kbId, t, actions, pipeline, table).state, kbId, None);
    SyncConverges(s, kbId, t, sources, manifest, actions, pipeline, table, docs, actions);
  }

  lemma RunGoes(
    s: State, kbId: string, t: Ticket, sources: seq<Source>, manifest: seq<ManifestDocument>, actions: seq<SyncAction>,
    pipeline: Pipeline, table: ChunkTable, owner: Owner, y: Source)
    requires Reachable(s) && t.generationId !in s.generations && t.runId !in s.runs
    requires OwnedRows(s.chunks, owner) && GoodTable(table, kbId, owner) && OwnedTable(table, owner)
    requires History.IsListing(s, kbId, None, manifest) && PlanAccepted(sources, manifest, Some(kbId))
    requires IsPlan(sources, manifest, pipeline, actions) && AllMaterialized(actions, table)
    requires forall a | a in actions :: CarriesCounted(s, t.generationId, a)
    requires y in sources && forall a | Kept(actions, y.sourceId, a) :: CountAfter(a, table) >= 1
    ensures var p := Synced(s, kbId, t, actions, pipeline, table); p.ok && Counted(p.state, t.generationId)
  {
    var begun := Started(s, kbId, t, pipeline).state;
    var done := Performed(begun, t.runId, actions, pipeline, table);
    PlanFollowable(sources, manifest, pipeline, actions);
    PlanFeasible(s, kbId, t.generationId, sources, manifest, actions, pipeline);
    RunSucceeds(s, kbId, t, sources, actions, pipeline, table, owner);
    BegunRun(s, kbId, t, pipeline);
    BegunCarries(s, begun, t.generationId, actions);
    PerformedCounts(begun, t.runId, t.generationId, kbId, actions, pipeline, table, owner);
    PerformedHolds(begun, t.runId, t.generationId, kbId, actions, pipeline, table);
    var a :| Kept(actions, y.sourceId, a) && a.source == Some(y);
    KeptHasChunks(done.state, kbId, t.generationId, a, actions, pipeline, table);
    PerformedFrame(begun, t.runId, actions, pipeline, table, owner);
    ClosingCloses(done, kbId, t);
    CountedHere(done.state, Synced(s, kbId, t, actions, pipeline, table).state, t.generationId);
  }

  // ----- the first run: both files are new

  lemma FirstPlan(kbId: string, x: Source, y: Source, c: ChunkInput, p: Pipeline) returns (actions: seq<SyncAction>)
    requires TwoSources(kbId, x, y, c)
    ensures PlanAccepted([x, y], [], Some(kbId)) && IsPlan([x, y], [], p, actions)
    ensures forall a | a in actions :: a == Action(x, New, ParseStage, None) || a == Action(y, New, ParseStage, None)
  {
    assert KnowledgeBases([x, y], [], Some(kbId)) == {kbId};
    actions := PlanExists([x, y], [], p);
    forall a | a in actions ensures a == Action(x, New, ParseStage, None) || a == Action(y, New, ParseStage, None) {
      assert InPlan([x, y], [], p, a);
    }
  }

  lemma FirstRun(kbId: string, x: Source, y: Source, c: ChunkInput, p: Pipeline, t: Ticket)
    returns (s: State, actions: seq<SyncAction>, docs: seq<ManifestDocument>)
    requires TwoSources(kbId, x, y, c)
    ensures Reachable(s) && s.generations.Keys == {t.generationId} && s.runs.Keys == {t.runId}
    ensures OwnedRows(s.chunks, OnlyOwner(y)) && Counted(s, t.generationId)
    ensures CurrentOf(s, kbId) == Some(t.generationId)
    ensures History.IsListing(s, kbId, None, docs) && PlanAccepted([x, y], docs, Some(kbId))
    ensures Republished([x, y], docs, actions, kbId, p, FirstTable(x, y, c))
    ensures forall a | a in actions :: a == Action(x, New, ParseStage, None) || a == Action(y, New, ParseStage, None)
  {
    var table := FirstTable(x, y, c);
    actions := FirstPlan(kbId, x, y, c, p);
    FirstTableGood(kbId, x, y, c);
    EmptySound(OnlyOwner(y));
    docs := RunListed(EMPTY, kbId, t, [x, y], [], actions, p, table, OnlyOwner(y), y);
    s := Synced(EMPTY, kbId, t, actions, p, table).state;
    PlanFollowable([x, y], [], p, actions);
    ListedRows(s, kbId, t.generationId, docs, [x, y], actions, p, table);
    FirstKeys(kbId, t, actions, p, table);
  }

  lemma FirstKeys(kbId: string, t: Ticket, actions: seq<SyncAction>, p: Pipeline, table: ChunkTable)
    ensures var s := Synced(EMPTY, kbId, t, actions, p, table).state;
      s.generations.Keys == {t.generationId} && s.runs.Keys == {t.runId}
  {
    var begun := Started(EMPTY, kbId, t, p).state;
    PerformedRuns(begun, t.runId, actions, p, table);
  }

  lemma {:induction false} PerformedRuns(
    s: State, runId: string, actions: seq<SyncAction>, pipeline: Pipeline, table: ChunkTable)
    ensures Replanning.SameRuns(s, Performed(s, runId, actions, pipeline, table).state)
  {
    if actions != [] {
      var n := |actions| - 1;
      PerformedRuns(s, runId, actions[..n], pipeline, table);
      PerformRuns(Performed(s, runId, actions[..n], pipeline, table).state, runId, actions[n], pipeline, table);
    }
  }

  // ----- the second run: only the index fingerprint has changed

  predicate IndexOnly(p: Pipeline, q: Pipeline) {
    q == p.(indexing := q.indexing) && q.indexing != p.indexing
  }

  lemma IndexOnlyAction(
    sources: seq<Source>, docs: seq<ManifestDocument>, actions: seq<SyncAction>, kbId: string, p: Pipeline, q: Pipeline,
    table: ChunkTable, b: SyncAction)
    requires Republished(sources, docs, actions, kbId, p, table) && UniqueSources(sources) && IndexOnly(p, q)
    requires InPlan(sources, docs, q, b)
    ensures b.change == PipelineChanged && b.startStage == IndexStage && b.source.Some? && b.source.value in sources
    ensures b.previous.Some? && b.previous.value in docs && b.previous.value.sourceId == b.sourceId && Carries(b)
  {
    if b.source.Some? {
      assert HasDocument(docs, b.source.value.sourceId);
      DocumentOfSource(sources, actions, table, b.previous.value, b.source.value);
    } else {
      var s := SourceOfDocument(sources, actions, table, b.previous.value);
    }
  }

  lemma DocumentCount(
    x: Source, y: Source, c: ChunkInput, docs: seq<ManifestDocument>, actions: seq<SyncAction>, kbId: string,
    p: Pipeline, d: ManifestDocument)
    requires TwoSources(kbId, x, y, c) && Republished([x, y], docs, actions, kbId, p, FirstTable(x, y, c)) && d in docs
    requires forall a | a in actions :: a == Action(x, New, ParseStage, None) || a == Action(y, New, ParseStage, None)
    ensures d.chunkCount == if d.sourceId == x.sourceId then 0 else 1
  {
    var a :| Descends([x, y], actions, FirstTable(x, y, c), d, a);
  }

  lemma ListedCounted(s: State, kbId: string, g: string, h: string, docs: seq<ManifestDocument>, a: SyncAction)
    requires History.IsListing(s, kbId, None, docs) && CurrentOf(s, kbId) == Some(h) && Counted(s, h) && g != h
    requires a.previous.Some? && a.previous.value in docs
    ensures CarriesCounted(s, g, a)
  {
    assert History.IsRow(s, kbId, h, a.previous.value);
  }

  /** The action carries its document over into `g`: no chunk for the first source, one for the second. */
  ghost predicate CarriedOver(s: State, x: Source, g: string, a: SyncAction) {
    && a.change == PipelineChanged && a.startStage == IndexStage && Carries(a) && CarriesCounted(s, g, a)
    && a.previous.Some? && a.previous.value.chunkCount == if a.sourceId == x.sourceId then 0 else 1
  }

  lemma SecondRun(
    kbId: string, x: Source, y: Source, q: Pipeline, s: State, docs: seq<ManifestDocument>, actions: seq<SyncAction>,
    t: Ticket)
    returns (docs': seq<ManifestDocument>)
    requires Reachable(s) && t.generationId !in s.generations && t.runId !in s.runs && OwnedRows(s.chunks, OnlyOwner(y))
    requires History.IsListing(s, kbId, None, docs) && PlanAccepted([x, y], docs, Some(kbId))
    requires x.sourceId != y.sourceId
    requires IsPlan([x, y], docs, q, actions) && forall a | a in actions :: CarriedOver(s, x, t.generationId, a)
    ensures var run := Synced(s, kbId, t, actions, q, map[]); run.ok && History.IsListing(run.state, kbId, None, docs')
    ensures PlanAccepted([x, y], docs', Some(kbId))
  {
    forall a | a in actions
      ensures Materialized(a, map[]) && CarriesCounted(s, t.generationId, a)
      ensures a.sourceId == y.sourceId ==> CountAfter(a, map[]) >= 1
    {
      assert CarriedOver(s, x, t.generationId, a);
    }
    docs' := RunListed(s, kbId, t, [x, y], docs, actions, q, map[], OnlyOwner(y), y);
  }

  /** The second list: both documents are carried over with the counts they have. */
  lemma SecondPlan(
    kbId: string, x: Source, y: Source, c: ChunkInput, p: Pipeline, q: Pipeline, s: State, first: seq<SyncAction>,
    docs: seq<ManifestDocument>, g: string, h: string, a: SyncAction)
    requires TwoSources(kbId, x, y, c) && IndexOnly(p, q) && UniqueSources([x, y])
    requires Republished([x, y], docs, first, kbId, p, FirstTable(x, y, c))
    requires forall b | b in first :: b == Action(x, New, ParseStage, None) || b == Action(y, New, ParseStage, None)
    requires History.IsListing(s, kbId, None, docs) && CurrentOf(s, kbId) == Some(h) && Counted(s, h) && g != h
    requires InPlan([x, y], docs, q, a)
    ensures CarriedOver(s, x, g, a)
  {
    IndexOnlyAction([x, y], docs, first, kbId, p, q, FirstTable(x, y, c), a);
    ListedCounted(s, kbId, g, h, docs, a);
    DocumentCount(x, y, c, docs, first, kbId, p, a.previous.value);
  }

  lemma StillWork(
    kbId: string, x: Source, y: Source, q: Pipeline, s: State, docs: seq<ManifestDocument>, actions: seq<SyncAction>,
    t: Ticket, docs': seq<ManifestDocument>, replan: seq<SyncAction>)
    requires Reachable(s) && PlanAccepted([x, y], docs, Some(kbId)) && IsPlan([x, y], docs, q, actions)
    requires forall a | a in actions :: CarriedOver(s, x, t.generationId, a)
    requires var run := Synced(s, kbId, t, actions, q, map[]); run.ok && History.IsListing(run.state, kbId, None, docs')
    requires IsPlan([x, y], docs', q, replan)
    ensures !IsNoop(replan)
  {
    SyncConverges(s, kbId, t, [x, y], docs, actions, q, map[], docs', replan);
    var a := PlannedSource([x, y], docs, q, actions, x);
    assert CarriedOver(s, x, t.generationId, a) && CountAfter(a, map[]) == 0;
  }

  /** From a reachable catalog, a plan in which only the index fingerprint has changed, a run that
      succeeds, and a second plan that still has work: the document without chunks is to be parsed. */
  lemma IndexOnlyUnsettled(
    kbId: string, x: Source, y: Source, c: ChunkInput, p: Pipeline, q: Pipeline, t: Ticket, t': Ticket)
    returns (s: State, docs: seq<ManifestDocument>, actions: seq<SyncAction>, docs': seq<ManifestDocument>,
      replan: seq<SyncAction>)
    requires TwoSources(kbId, x, y, c) && IndexOnly(p, q) && t.generationId != t'.generationId && t.runId != t'.runId
    ensures Reachable(s) && History.IsListing(s, kbId, None, docs) && PlanAccepted([x, y], docs, Some(kbId))
    ensures IsPlan([x, y], docs, q, actions)
    ensures forall a | a in actions :: a.change == PipelineChanged && a.startStage == IndexStage
    ensures var run := Synced(s, kbId, t', actions, q, map[]);
      && run.ok && History.IsListing(run.state, kbId, None, docs')
      && IsPlan([x, y], docs', q, replan) && !IsNoop(replan)
  {
    var first: seq<SyncAction>;
    s, first, docs := FirstRun(kbId, x, y, c, p, t);
    actions := PlanExists([x, y], docs, q);
    forall a | a in actions ensures CarriedOver(s, x, t'.generationId, a) {
      assert InPlan([x, y], docs, q, a);
      SecondPlan(kbId, x, y, c, p, q, s, first, docs, t'.generationId, t.generationId, a);
    }
    docs' := SecondRun(kbId, x, y, q, s, docs, actions, t');
    replan := PlanExists([x, y], docs', q);
    StillWork(kbId, x, y, q, s, docs, actions, t', docs', replan);
  }
}
