/** `_sync_unlogged` (pipeline.py): the plan or the rebuild list, the dimension migration, the early
    return when there is nothing to do, the refusal of an empty source list, then the run. */
module Synchronizer {
  import opened Common
  import opened Digest
  import opened Records
  import opened Catalog
  import opened CatalogInvariants
  import opened CatalogStore
  import History = CatalogHistory
  import opened Planner
  import opened Convergence
  import opened Replanning

  // ----- what there is to do

  ghost predicate FromRebuild(sources: seq<Source>, manifest: seq<ManifestDocument>, a: SyncAction) {
    && a.source.Some? && a.source.value in sources && Holds(manifest, a.source.value.sourceId, a.previous)
    && a == Action(a.source.value, PipelineChanged, ParseStage, a.previous)
  }

  function ByRelativePath(): (SyncAction, SyncAction) -> bool {
    (a: SyncAction, b: SyncAction) => StrLess(a.relativePath, b.relativePath)
  }

  /** With `force_rebuild`: every source from its parse on, every other document removed. */
  ghost predicate IsRebuild(sources: seq<Source>, manifest: seq<ManifestDocument>, actions: seq<SyncAction>) {
    && IdsDiffer(actions) && Ascending(actions, ByRelativePath())
    && forall a :: a in actions <==> FromRebuild(sources, manifest, a) || FromRemoval(sources, manifest, a)
  }

  /** `_scan_and_plan`: what the loop of the run is to follow. */
  ghost predicate IsTodo(
    sources: seq<Source>, manifest: seq<ManifestDocument>, pipeline: Pipeline, force: bool, actions: seq<SyncAction>)
  {
    if force then IsRebuild(sources, manifest, actions) else IsPlan(sources, manifest, pipeline, actions)
  }

  /** `_requires_dimension_migration`. */
  predicate Migrates(actions: seq<SyncAction>, pipeline: Pipeline, active: bool) {
    && active && pipeline.dimension.Some?
    && exists a | a in actions :: a.previous.Some? && a.previous.value.pipeline.dimension != pipeline.dimension
  }

  function Todo(actions: seq<SyncAction>, pipeline: Pipeline, active: bool): seq<SyncAction> {
    if Migrates(actions, pipeline, active) then ForcedActions(actions) else actions
  }

  /** One synchronization, its list of actions given. */
  function SyncOnce(
    s: State, kbId: string, t: Ticket, sources: seq<Source>, actions: seq<SyncAction>, pipeline: Pipeline,
    table: ChunkTable)
    : Progress
  {
    var todo := Todo(actions, pipeline, CurrentOf(s, kbId).Some?);
    if IsNoop(todo) then Progress(s, true)
    else if sources == [] then Progress(s, false)
    else Synced(s, kbId, t, todo, pipeline, table)
  }

  // ----- every list can be followed

  lemma RebuildFollowable(
    sources: seq<Source>, manifest: seq<ManifestDocument>, pipeline: Pipeline, actions: seq<SyncAction>)
    requires UniqueSources(sources) && IsRebuild(sources, manifest, actions)
    ensures Followable(actions, sources, pipeline)
    ensures forall a | a in actions :: WellStaged(a) && !Carries(a) && a.change != Unchanged
  {
    forall a | a in actions
      ensures Coherent(a, pipeline) && WellStaged(a) && !Carries(a) && a.change != Unchanged
      ensures a.change != Deleted ==> a.source.Some? && a.source.value in sources
    {
      assert FromRebuild(sources, manifest, a) || FromRemoval(sources, manifest, a);
    }
    forall s | s in sources ensures exists a :: Kept(actions, s.sourceId, a) && a.source == Some(s) {
      var previous: Option<ManifestDocument> := None;
      if d :| d in manifest && d.sourceId == s.sourceId { previous := Some(d); }
      var a := Action(s, PipelineChanged, ParseStage, previous);
      assert FromRebuild(sources, manifest, a);
      assert Kept(actions, s.sourceId, a);
    }
  }

  ghost predicate CarriesListed(actions: seq<SyncAction>, manifest: seq<ManifestDocument>) {
    forall a | a in actions && Carries(a) :: a.previous.Some? && a.previous.value in manifest
  }

  lemma ListFollowable(
    sources: seq<Source>, manifest: seq<ManifestDocument>, pipeline: Pipeline, force: bool, actions: seq<SyncAction>)
    requires UniqueSources(sources) && UniqueDocuments(manifest) && PathsAgree(sources, manifest)
    requires IsTodo(sources, manifest, pipeline, force, actions)
    ensures Followable(actions, sources, pipeline) && CarriesListed(actions, manifest)
    ensures forall a | a in actions :: WellStaged(a)
  {
    if force {
      RebuildFollowable(sources, manifest, pipeline, actions);
    } else {
      PlanFollowable(sources, manifest, pipeline, actions);
      PlanStaged(sources, manifest, pipeline, actions);
      forall a | a in actions && Carries(a) ensures a.previous.Some? && a.previous.value in manifest {
        assert InPlan(sources, manifest, pipeline, a);
      }
    }
  }

  /** What a run follows covers the sources, and what it carries over is published. */
  lemma TodoFollowable(
    sources: seq<Source>, manifest: seq<ManifestDocument>, pipeline: Pipeline, force: bool, actions: seq<SyncAction>,
    active: bool)
    requires UniqueSources(sources) && UniqueDocuments(manifest) && PathsAgree(sources, manifest)
    requires IsTodo(sources, manifest, pipeline, force, actions)
    ensures Followable(Todo(actions, pipeline, active), sources, pipeline)
    ensures CarriesListed(Todo(actions, pipeline, active), manifest)
  {
    ListFollowable(sources, manifest, pipeline, force, actions);
    if Migrates(actions, pipeline, active) { ForcedFollowable(actions, sources, pipeline); }
  }

  // ----- planning again

  /** A list without work: nothing is scanned anew, and planning again gives the same. */
  lemma NoopList(
    sources: seq<Source>, manifest: seq<ManifestDocument>, pipeline: Pipeline, force: bool, actions: seq<SyncAction>,
    active: bool, replan: seq<SyncAction>)
    requires UniqueSources(sources) && IsTodo(sources, manifest, pipeline, force, actions)
    requires UniqueDocuments(manifest) && PathsAgree(sources, manifest)
    requires IsNoop(Todo(actions, pipeline, active)) && IsPlan(sources, manifest, pipeline, replan)
    ensures IsNoop(replan)
  {
    ListFollowable(sources, manifest, pipeline, force, actions);
    if Migrates(actions, pipeline, active) { MigrationWorks(actions, sources, pipeline); }
    if force {
      RebuildFollowable(sources, manifest, pipeline, actions);
      forall b | b in replan ensures b.change == Unchanged {
        assert InPlan(sources, manifest, pipeline, b);
        EmptyRebuild(sources, manifest, actions);
      }
    } else {
      PlanOrderIndependent(sources, manifest, sources, manifest, pipeline, actions, replan);
    }
  }

  lemma MigrationWorks(actions: seq<SyncAction>, sources: seq<Source>, pipeline: Pipeline)
    requires Followable(actions, sources, pipeline) && (forall a | a in actions :: WellStaged(a)) && actions != []
    ensures !IsNoop(ForcedActions(actions))
  {
    ForcedFollowable(actions, sources, pipeline);
    assert ForcedActions(actions)[0] in ForcedActions(actions);
  }

  lemma EmptyRebuild(sources: seq<Source>, manifest: seq<ManifestDocument>, actions: seq<SyncAction>)
    requires UniqueSources(sources) && IsRebuild(sources, manifest, actions) && IsNoop(actions)
    ensures sources == [] && manifest == []
  {
    forall a
      ensures a !in actions
    {
      assert a in actions ==> FromRebuild(sources, manifest, a) || FromRemoval(sources, manifest, a);
    }
    if sources != [] {
      var previous: Option<ManifestDocument> := None;
      if d :| d in manifest && d.sourceId == sources[0].sourceId { previous := Some(d); }
      assert FromRebuild(sources, manifest, Action(sources[0], PipelineChanged, ParseStage, previous));
    } else if manifest != [] {
      assert FromRemoval(sources, manifest, Removal(manifest[0]));
    }
  }

  /** A plan without work needs no migration. */
  lemma NoopStays(
    sources: seq<Source>, manifest: seq<ManifestDocument>, pipeline: Pipeline, plan: seq<SyncAction>, active: bool)
    requires IsPlan(sources, manifest, pipeline, plan) && IsNoop(plan)
    ensures Todo(plan, pipeline, active) == plan
  {
    forall a | a in plan ensures a.previous.Some? ==> a.previous.value.pipeline.dimension == pipeline.dimension {
      assert InPlan(sources, manifest, pipeline, a);
    }
  }

  /** After a successful synchronization, synchronizing again on the same sources and pipeline plans
      nothing and changes nothing, provided every kept source has a chunk. */
  lemma SyncAgain(
    s: State, kbId: string, t: Ticket, sources: seq<Source>, manifest: seq<ManifestDocument>, force: bool,
    actions: seq<SyncAction>, pipeline: Pipeline, table: ChunkTable, docs: seq<ManifestDocument>,
    replan: seq<SyncAction>, t': Ticket, table': ChunkTable)
    requires Reachable(s) && Owned(table) && History.IsListing(s, kbId, None, manifest)
    requires PlanAccepted(sources, manifest, Some(kbId)) && IsTodo(sources, manifest, pipeline, force, actions)
    requires SyncOnce(s, kbId, t, sources, actions, pipeline, table).ok
    requires var u := SyncOnce(s, kbId, t, sources, actions, pipeline, table).state;
      History.IsListing(u, kbId, None, docs)
    requires var todo := Todo(actions, pipeline, CurrentOf(s, kbId).Some?); IsNoop(todo) || Enough(todo, table)
    ensures PlanAccepted(sources, docs, Some(kbId))
    ensures var u := SyncOnce(s, kbId, t, sources, actions, pipeline, table).state;
      IsPlan(sources, docs, pipeline, replan) ==>
        IsNoop(replan) && SyncOnce(u, kbId, t', sources, replan, pipeline, table') == Progress(u, true)
  {
    var active := CurrentOf(s, kbId).Some?;
    var todo := Todo(actions, pipeline, active);
    var u := SyncOnce(s, kbId, t, sources, actions, pipeline, table).state;
    TodoFollowable(sources, manifest, pipeline, force, actions, active);
    SameKb(sources, manifest, kbId);
    if IsNoop(todo) {
      History.ListingUnique(s, kbId, None, manifest, docs);
      if IsPlan(sources, docs, pipeline, replan) {
        NoopList(sources, manifest, pipeline, force, actions, active, replan);
      }
    } else {
      Follows(s, kbId, t, sources, todo, pipeline, table, docs, replan);
    }
    if IsPlan(sources, docs, pipeline, replan) { NoopStays(sources, docs, pipeline, replan, CurrentOf(u, kbId).Some?); }
  }

  // ----- the steps as they are carried out

  function Rebuilding(previous: map<string, ManifestDocument>): Source -> SyncAction {
    (s: Source) => Action(s, PipelineChanged, ParseStage, Lookup(previous, s.sourceId))
  }

  lemma RebuildMembers(
    sources: seq<Source>, manifest: seq<ManifestDocument>, previous: map<string, ManifestDocument>, a: SyncAction)
    requires IndexesDocuments(previous, manifest)
    ensures a in Map(sources, Rebuilding(previous)) <==> FromRebuild(sources, manifest, a)
  {
    MapMember(sources, Rebuilding(previous), a);
    if a in Map(sources, Rebuilding(previous)) {
      var s :| s in sources && Rebuilding(previous)(s) == a;
      LookupHolds(manifest, previous, s.sourceId, a.previous);
    }
    if FromRebuild(sources, manifest, a) {
      LookupHolds(manifest, previous, a.source.value.sourceId, a.previous);
      assert Rebuilding(previous)(a.source.value) == a;
    }
  }

  lemma RebuildIds(
    sources: seq<Source>, manifest: seq<ManifestDocument>, current: map<string, Source>,
    previous: map<string, ManifestDocument>)
    requires IndexesSources(current, sources) && UniqueDocuments(manifest)
    ensures IdsDiffer(Map(sources, Rebuilding(previous)) + RemovalActions(manifest, current))
  {
    var r := Map(sources, Rebuilding(previous));
    forall i | 0 <= i < |r| ensures r[i].sourceId == sources[i].sourceId && r[i].sourceId in current {
      assert sources[i] in sources;
    }
    RemovalIds(manifest, current);
    ConcatIds(r, RemovalActions(manifest, current), current.Keys);
  }

  lemma SortedIdsDiffer(actions: seq<SyncAction>, r: seq<SyncAction>)
    requires IdsDiffer(actions) && multiset(r) == multiset(actions)
    ensures IdsDiffer(r)
  {
    MultisetDistinct(actions, r);
    forall i, j | 0 <= i < j < |r| ensures r[i].sourceId != r[j].sourceId {
      assert r[i] in Elements(actions) && r[j] in Elements(actions);
      var k :| 0 <= k < |actions| && actions[k] == r[i];
      var l :| 0 <= l < |actions| && actions[l] == r[j];
    }
  }

  lemma ByRelativePathStrictWeak()
    ensures StrictWeak(ByRelativePath())
  {
    forall a: SyncAction, b: SyncAction ensures !(ByRelativePath()(a, b) && ByRelativePath()(b, a)) {
      StrTrichotomy(a.relativePath, b.relativePath);
    }
    forall a: SyncAction, b: SyncAction, c: SyncAction | !ByRelativePath()(b, a) && !ByRelativePath()(c, b)
      ensures !ByRelativePath()(c, a)
    {
      PathChain(a.relativePath, b.relativePath, c.relativePath);
    }
  }

  lemma PathChain(a: string, b: string, c: string)
    requires !StrLess(b, a) && !StrLess(c, b)
    ensures !StrLess(c, a)
  {
    StrTrichotomy(a, b);
    StrTrichotomy(b, c);
    StrTrichotomy(a, c);
    if StrLess(a, b) && StrLess(b, c) { StrTransitive(a, b, c); }
  }

  /** The list of a forced rebuild. */
  method RebuildList(sources: seq<Source>, manifest: seq<ManifestDocument>) returns (actions: seq<SyncAction>)
    requires UniqueSources(sources) && UniqueDocuments(manifest)
    ensures IsRebuild(sources, manifest, actions)
  {
    var sourcesOk, current := IndexSources(sources);
    var manifestOk, previous := IndexDocuments(manifest);
    var removals := RemoveMissing(manifest, current);
    var all := Map(sources, Rebuilding(previous)) + removals;
    actions := Sorted(all, ByRelativePath());
    RebuildIds(sources, manifest, current, previous);
    ByRelativePathStrictWeak();
    SortedAscends(all, ByRelativePath());
    SortedIdsDiffer(all, actions);
    forall a ensures a in actions <==> FromRebuild(sources, manifest, a) || FromRemoval(sources, manifest, a) {
      assert a in actions <==> a in multiset(actions);
      assert a in all <==> a in multiset(all);
      RebuildMembers(sources, manifest, previous, a);
      RemovalMembers(manifest, current, a);
      if a.previous.Some? { MissingMeans(sources, current, a.previous.value.sourceId); }
    }
  }

  /** `_force_current_sources_to_embedding`. */
  method ForceCurrent(actions: seq<SyncAction>) returns (forced: seq<SyncAction>)
    ensures forced == ForcedActions(actions)
  {
    forced := [];
    for i := 0 to |actions|
      invariant |forced| == i && forall j | 0 <= j < i :: forced[j] == Forced(actions[j])
    {
      forced := forced + [Forced(actions[i])];
    }
  }

  /** The migration, the early return, the refusal and the run. */
  method Follow(
    catalog: ManifestCatalog, kbId: string, t: Ticket, sources: seq<Source>, actions: seq<SyncAction>,
    pipeline: Pipeline, table: ChunkTable) returns (ok: bool)
    modifies catalog
    ensures Progress(catalog.Snapshot(), ok)
         == SyncOnce(old(catalog.Snapshot()), kbId, t, sources, actions, pipeline, table)
  {
    var todo := actions;
    if Migrates(actions, pipeline, kbId in catalog.current) { todo := ForceCurrent(actions); }
    if IsNoop(todo) {
      ok := true;
    } else if sources == [] {
      ok := false;
    } else {
      ok := Synchronize(catalog, kbId, t, todo, pipeline, table);
    }
  }

  /** `_sync_unlogged` on a catalog: what is listed, planned and done. */
  method Sync(
    catalog: ManifestCatalog, kbId: string, t: Ticket, sources: seq<Source>, force: bool, pipeline: Pipeline,
    table: ChunkTable)
    returns (ok: bool, ghost manifest: seq<ManifestDocument>, ghost actions: seq<SyncAction>)
    modifies catalog
    ensures History.IsListing(old(catalog.Snapshot()), kbId, None, manifest)
    ensures Attempt(old(catalog.Snapshot()), kbId, t, sources, force, pipeline, table, manifest, actions,
                    Progress(catalog.Snapshot(), ok))
  {
    var docs := catalog.ListDocuments(kbId, None);
    manifest, actions := docs, [];
    var plan := PlanIncrementalSync(sources, docs, pipeline, Some(kbId));
    if plan.Err? {
      ok := false;
    } else {
      var todo := plan.value.actions;
      if force { todo := RebuildList(sources, docs); }
      actions := todo;
      ok := Follow(catalog, kbId, t, sources, todo, pipeline, table);
    }
  }

  /** What one synchronization does, given the listed documents and the list it follows. */
  ghost predicate Attempt(
    s: State, kbId: string, t: Ticket, sources: seq<Source>, force: bool, pipeline: Pipeline, table: ChunkTable,
    manifest: seq<ManifestDocument>, actions: seq<SyncAction>, p: Progress)
  {
    if PlanAccepted(sources, manifest, Some(kbId)) then
      && IsTodo(sources, manifest, pipeline, force, actions)
      && p == SyncOnce(s, kbId, t, sources, actions, pipeline, table)
    else p == Progress(s, false)
  }
}
