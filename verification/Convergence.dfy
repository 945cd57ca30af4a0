/** One synchronization run (pipeline.py): plan, begin a generation, carry or record every source,
    stage, commit. Planning again on the same sources then finds nothing to do. */
module Convergence {
  import opened Common
  import opened Digest
  import opened Records
  import opened Catalog
  import opened CatalogInvariants
  import opened CatalogStore
  import History = CatalogHistory
  import opened Planner

  /** The chunks each source yields when it is processed; a source that cannot be processed is missing. */
  type ChunkTable = map<string, seq<ChunkInput>>

  function ChunksOf(table: ChunkTable, sourceId: string): seq<ChunkInput> {
    if sourceId in table then table[sourceId] else []
  }

  /** A run that may have stopped at a raised error. */
  datatype Progress = Progress(state: State, ok: bool)

  predicate Carries(a: SyncAction) {
    a.change == Unchanged || (a.change != Deleted && a.startStage == IndexStage && a.previous.Some?)
  }

  function Finish(s: State, o: Outcome): Progress {
    Progress(After(s, o), o.Done?)
  }

  /** One iteration of the loop over the plan's actions. */
  function Perform(s: State, runId: string, a: SyncAction, pipeline: Pipeline, table: ChunkTable): Progress {
    if a.change == Unchanged then
      if a.previous.None? then Progress(s, false) else Finish(s, Carry(s, runId, a.previous.value, None))
    else if a.change == Deleted then Progress(s, true)
    else if a.startStage == IndexStage && a.previous.Some?
      then Finish(s, Carry(s, runId, a.previous.value, Some(pipeline)))
    else if a.source.None? || a.source.value.sourceId !in table then Progress(s, false)
    else
      var chunks := ChunksOf(table, a.source.value.sourceId);
      var recorded := Finish(s, Record(s, runId, a.source.value, pipeline, |chunks|));
      if !recorded.ok then recorded else Finish(recorded.state, RecordChunks(recorded.state, runId, chunks))
  }

  function Performed(
    s: State, runId: string, actions: seq<SyncAction>, pipeline: Pipeline, table: ChunkTable): Progress
  {
    if actions == [] then Progress(s, true)
    else
      var earlier := Performed(s, runId, actions[..|actions| - 1], pipeline, table);
      if !earlier.ok then earlier else Perform(earlier.state, runId, actions[|actions| - 1], pipeline, table)
  }

  /** `list_chunk_ids` of the staging generation is not empty. */
  predicate HasChunks(s: State, kbId: string, g: string) {
    exists k | k in s.chunks ::
      k.0 == g && (g, s.chunks[k].sourceId) in s.documents && s.documents[(g, s.chunks[k].sourceId)].kbId == kbId
  }

  /** The two identifiers drawn for a run and its two clock readings. */
  datatype Ticket = Ticket(generationId: string, runId: string, began: int, committed: int)

  function Started(s: State, kbId: string, t: Ticket, pipeline: Pipeline): Outcome {
    Begin(s, t.runId, t.generationId, kbId, pipeline, t.began)
  }

  function Closing(p: Progress, kbId: string, t: Ticket): Progress {
    if p.ok && HasChunks(p.state, kbId, t.generationId) then
      var staged := After(p.state, Catalog.Stage(p.state, t.runId));
      Finish(staged, Commit(staged, t.runId, t.committed))
    else Progress(After(p.state, Fail(p.state, t.runId)), false)
  }

  /** A whole run: `begin_run`, the actions, `mark_staged`, `commit_published`; `fail_run` on error. */
  function Synced(
    s: State, kbId: string, t: Ticket, actions: seq<SyncAction>, pipeline: Pipeline, table: ChunkTable): Progress
  {
    var begun := Started(s, kbId, t, pipeline);
    if begun.Rejected? then Progress(s, false)
    else Closing(Performed(begun.state, t.runId, actions, pipeline, table), kbId, t)
  }

  // ----- the run as it is carried out on a catalog

  method PerformAction(catalog: ManifestCatalog, runId: string, a: SyncAction, pipeline: Pipeline, table: ChunkTable)
    returns (ok: bool)
    modifies catalog
    ensures Progress(catalog.Snapshot(), ok) == Perform(old(catalog.Snapshot()), runId, a, pipeline, table)
  {
    if a.change == Unchanged {
      ok := a.previous.Some?;
      if ok {
        var r := catalog.CarryForwardDocument(runId, a.previous.value, None);
        ok := r.Ok?;
      }
    } else if a.change == Deleted {
      ok := true;
    } else if a.startStage == IndexStage && a.previous.Some? {
      var r := catalog.CarryForwardDocument(runId, a.previous.value, Some(pipeline));
      ok := r.Ok?;
    } else if a.source.None? || a.source.value.sourceId !in table {
      ok := false;
    } else {
      var chunks := ChunksOf(table, a.source.value.sourceId);
      var r := catalog.RecordDocument(runId, a.source.value, pipeline, |chunks|);
      ok := r.Ok?;
      if ok {
        r := catalog.RecordChunks(runId, chunks);
        ok := r.Ok?;
      }
    }
  }

  lemma PerformedNext(s: State, runId: string, actions: seq<SyncAction>, pipeline: Pipeline, table: ChunkTable, i: nat)
    requires i < |actions| && Performed(s, runId, actions[..i], pipeline, table).ok
    ensures Performed(s, runId, actions[..i + 1], pipeline, table)
         == Perform(Performed(s, runId, actions[..i], pipeline, table).state, runId, actions[i], pipeline, table)
  {
    assert actions[..i + 1][..i] == actions[..i];
  }

  method PerformActions(
    catalog: ManifestCatalog, runId: string, actions: seq<SyncAction>, pipeline: Pipeline, table: ChunkTable)
    returns (ok: bool)
    modifies catalog
    ensures Progress(catalog.Snapshot(), ok) == Performed(old(catalog.Snapshot()), runId, actions, pipeline, table)
  {
    ok := true;
    ghost var before := catalog.Snapshot();
    var i := 0;
    while i < |actions| && ok
      invariant 0 <= i <= |actions|
      invariant Progress(catalog.Snapshot(), ok) == Performed(before, runId, actions[..i], pipeline, table)
    {
      PerformedNext(before, runId, actions, pipeline, table, i);
      ok := PerformAction(catalog, runId, actions[i], pipeline, table);
      i := i + 1;
    }
    if ok {
      assert actions[..i] == actions;
    } else {
      StaysFailed(before, runId, actions, pipeline, table, i);
    }
  }

  lemma {:induction false} StaysFailed(
    s: State, runId: string, actions: seq<SyncAction>, pipeline: Pipeline, table: ChunkTable, i: nat)
    requires i <= |actions| && !Performed(s, runId, actions[..i], pipeline, table).ok
    ensures Performed(s, runId, actions, pipeline, table) == Performed(s, runId, actions[..i], pipeline, table)
  {
    if i == |actions| {
      assert actions[..i] == actions;
    } else {
      var n := |actions| - 1;
      assert actions[..n][..i] == actions[..i];
      StaysFailed(s, runId, actions[..n], pipeline, table, i);
    }
  }

  method Synchronize(
    catalog: ManifestCatalog, kbId: string, t: Ticket, actions: seq<SyncAction>, pipeline: Pipeline, table: ChunkTable)
    returns (ok: bool)
    modifies catalog
    ensures Progress(catalog.Snapshot(), ok) == Synced(old(catalog.Snapshot()), kbId, t, actions, pipeline, table)
  {
    var r := catalog.BeginRun(kbId, pipeline, t.generationId, t.runId, t.began);
    ok := r.Ok?;
    if ok {
      ok := PerformActions(catalog, t.runId, actions, pipeline, table);
      var tables :=
        State(catalog.generations, catalog.runs, catalog.current, catalog.documents, catalog.chunks, []);
      ok := ok && HasChunks(tables, kbId, t.generationId);
      if ok {
        r := catalog.MarkStaged(t.runId);
        r := catalog.CommitPublished(t.runId, t.committed);
        ok := r.Ok?;
      } else {
        r := catalog.FailRun(t.runId);
      }
    }
  }
}
