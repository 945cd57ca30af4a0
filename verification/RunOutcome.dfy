/** What one synchronization leaves in the catalog (pipeline.py): a published generation that takes over
    the pointer or one failed generation, and everything else as it was. */
module RunOutcome {
  import opened Common
  import opened Digest
  import opened Records
  import opened Catalog
  import opened CatalogInvariants
  import opened CatalogEffects
  import opened Planner
  import opened Convergence
  import Replanning
  import opened RunSuccess
  import opened SyncHistory

  /** The actions of a run write rows of its own generation and nothing else. */
  lemma {:induction false} ActionsKeep(
    s: State, runId: string, actions: seq<SyncAction>, pipeline: Pipeline, table: ChunkTable)
    requires runId in s.runs && Reachable(s)
    ensures var t := Performed(s, runId, actions, pipeline, table).state;
      && Reachable(t) && CatalogEffects.SameRuns(s, t)
      && forall h | h != s.runs[runId].generationId :: SameRows(s, t, h)
  {
    if actions != [] {
      var n := |actions| - 1;
      var mid := Performed(s, runId, actions[..n], pipeline, table);
      ActionsKeep(s, runId, actions[..n], pipeline, table);
      if mid.ok {
        ActionKeeps(mid.state, runId, actions[n], pipeline, table);
        var t := Perform(mid.state, runId, actions[n], pipeline, table).state;
        forall h | h != s.runs[runId].generationId ensures SameRows(s, t, h) { RowsTransitive(s, mid.state, t, h); }
      }
    }
  }

  lemma ActionKeeps(s: State, runId: string, a: SyncAction, pipeline: Pipeline, table: ChunkTable)
    requires runId in s.runs && Reachable(s)
    ensures var t := Perform(s, runId, a, pipeline, table).state;
      && Reachable(t) && CatalogEffects.SameRuns(s, t)
      && forall h | h != s.runs[runId].generationId :: SameRows(s, t, h)
  {
    var t := Perform(s, runId, a, pipeline, table).state;
    PerformRuns(s, runId, a, pipeline, table);
    PerformReachable(s, runId, a, pipeline, table);
    forall h | h != s.runs[runId].generationId ensures SameRows(s, t, h) {
      forall k: Key | k.0 == h ensures SameRow(s.documents, t.documents, k) && SameRow(s.chunks, t.chunks, k) {
        PerformElsewhere(s, runId, a, pipeline, table, k);
      }
    }
  }

  ghost predicate Fresh(s: State, t: Ticket) {
    t.runId !in s.runs && t.generationId !in s.generations
  }

  /** The run and its generation are recorded as failed; every other run, generation, pointer and row is
      as it was. */
  ghost predicate LeavesFailed(s: State, u: State, kbId: string, t: Ticket, pipeline: Pipeline) {
    && Sets(s, u, t.runId, Run(t.generationId, kbId, RunFailed, PipelineDigest(pipeline)),
            t.generationId, Generation(kbId, Failed, pipeline, t.began, None))
    && SamePointers(s, u)
    && forall h | h != t.generationId :: SameRows(s, u, h)
  }

  lemma FailingLeaves(s: State, p: State, kbId: string, t: Ticket, pipeline: Pipeline)
    requires Reachable(p) && Started(s, kbId, t, pipeline).Done?
    requires CatalogEffects.SameRuns(Started(s, kbId, t, pipeline).state, p)
    requires forall h | h != t.generationId :: SameRows(s, p, h)
    ensures LeavesFailed(s, After(p, Fail(p, t.runId)), kbId, t, pipeline)
  {
    var begun := Started(s, kbId, t, pipeline).state;
    var running := Run(t.generationId, kbId, Running, PipelineDigest(pipeline));
    var building := Generation(kbId, Building, pipeline, t.began, None);
    BeginEffect(s, t.runId, t.generationId, kbId, pipeline, t.began);
    FailEffect(p, t.runId);
    assert Sets(s, p, t.runId, running, t.generationId, building);
    var u := Fail(p, t.runId).state;
    SetsTwice(s, p, u, t.runId, running, running.(state := RunFailed), t.generationId, building,
      building.(state := Failed));
    forall h | h != t.generationId ensures SameRows(s, u, h) { SameRowsHere(s, p, u, h); }
  }

  /** A run that cannot begin changes nothing. A run that begins and does not succeed leaves its own
      generation FAILED and everything else untouched; no later call revives it. */
  lemma FailedRunLeaves(
    s: State, kbId: string, t: Ticket, actions: seq<SyncAction>, pipeline: Pipeline, table: ChunkTable,
    further: seq<(Operation, int)>)
    requires Reachable(s) && !Synced(s, kbId, t, actions, pipeline, table).ok
    ensures var u := Synced(s, kbId, t, actions, pipeline, table).state;
      && (!Fresh(s, t) ==> u == s)
      && (Fresh(s, t) ==>
            && LeavesFailed(s, u, kbId, t, pipeline)
            && t.generationId in Exec(u, further).generations
            && Exec(u, further).generations[t.generationId].state == Failed
            && forall kb: string :: CurrentOf(Exec(u, further), kb) != Some(t.generationId))
  {
    if Started(s, kbId, t, pipeline).Done? {
      var begun := Started(s, kbId, t, pipeline).state;
      BegunRun(s, kbId, t, pipeline);
      ActionsKeep(begun, t.runId, actions, pipeline, table);
      var p := Performed(begun, t.runId, actions, pipeline, table);
      ClosingCloses(p, kbId, t);
      ClosingFails(p, kbId, t);
      forall h | h != t.generationId ensures SameRows(s, p.state, h) { assert SameRows(begun, p.state, h); }
      FailingLeaves(s, p.state, kbId, t, pipeline);
      ReachableStep(p.state, FailOp(t.runId), 0);
      FailedStays(After(p.state, Fail(p.state, t.runId)), t.runId, further);
    }
  }

  lemma ClosingFails(p: Progress, kbId: string, t: Ticket)
    requires Closing(p, kbId, t).ok <==> p.ok && HasChunks(p.state, kbId, t.generationId)
    ensures !Closing(p, kbId, t).ok ==> Closing(p, kbId, t).state == After(p.state, Fail(p.state, t.runId))
  {
  }

  // ----- success

  /** The run and its generation are published, the knowledge base points at it, the generation it
      pointed at is AVAILABLE; every other run, generation, pointer and row is as it was. */
  ghost predicate LeavesPublished(s: State, u: State, kbId: string, t: Ticket, pipeline: Pipeline) {
    && t.runId in u.runs && OnlyAt(s.runs, u.runs, t.runId)
    && u.runs[t.runId] == Run(t.generationId, kbId, RunPublished, PipelineDigest(pipeline))
    && t.generationId in u.generations
    && u.generations[t.generationId] == Generation(kbId, Published, pipeline, t.began, Some(t.committed))
    && kbId in u.current && u.current[kbId] == t.generationId && OnlyAt(s.current, u.current, kbId)
    && (kbId in s.current ==>
          var left := s.current[kbId];
          && left in s.generations && left in u.generations && left != t.generationId
          && u.generations[left] == s.generations[left].(state := Available))
    && (forall h | h != t.generationId && (kbId in s.current ==> h != s.current[kbId]) ::
          SameEntry(s.generations, u.generations, h))
    && forall h | h != t.generationId :: SameRows(s, u, h)
  }

  lemma PointsLeaves(
    s: State, staged: State, u: State, kbId: string, t: Ticket, pipeline: Pipeline, run: Run, building: Generation)
    requires Sets(s, staged, t.runId, run, t.generationId, building)
    requires building == Generation(kbId, Staged, pipeline, t.began, None)
    requires t.runId in u.runs && OnlyAt(staged.runs, u.runs, t.runId)
    requires u.runs[t.runId] == Run(t.generationId, kbId, RunPublished, PipelineDigest(pipeline))
    requires Points(staged, u, kbId, t.generationId, t.committed) && staged.current == s.current
    requires forall h | h != t.generationId :: SameRows(s, u, h)
    ensures LeavesPublished(s, u, kbId, t, pipeline)
  {
    OnlyAtTwice(s.runs, staged.runs, u.runs, t.runId);
    if kbId in s.current { assert SameEntry(s.generations, staged.generations, s.current[kbId]); }
    forall h | h != t.generationId && (kbId in s.current ==> h != s.current[kbId])
      ensures SameEntry(s.generations, u.generations, h)
    {
      assert SameEntry(s.generations, staged.generations, h) && SameEntry(staged.generations, u.generations, h);
    }
  }

  lemma StagingSets(s: State, p: State, kbId: string, t: Ticket, pipeline: Pipeline)
    requires Reachable(p) && Started(s, kbId, t, pipeline).Done?
    requires CatalogEffects.SameRuns(Started(s, kbId, t, pipeline).state, p)
    ensures var o := Catalog.Stage(p, t.runId);
      && o.Done? && Reachable(o.state)
      && Sets(s, o.state, t.runId, Run(t.generationId, kbId, RunStaged, PipelineDigest(pipeline)),
              t.generationId, Generation(kbId, Staged, pipeline, t.began, None))
      && o.state.current == s.current && SameRowTables(p, o.state)
  {
    var running := Run(t.generationId, kbId, Running, PipelineDigest(pipeline));
    var building := Generation(kbId, Building, pipeline, t.began, None);
    BeginEffect(s, t.runId, t.generationId, kbId, pipeline, t.began);
    StageEffect(p, t.runId);
    ReachableStep(p, StageOp(t.runId), 0);
    assert Sets(s, p, t.runId, running, t.generationId, building);
    SetsTwice(s, p, Catalog.Stage(p, t.runId).state, t.runId, running, running.(state := RunStaged), t.generationId,
      building, building.(state := Staged));
  }

  /** A run that succeeds publishes its generation and retires the one before it. */
  lemma SucceededRunLeaves(
    s: State, kbId: string, t: Ticket, actions: seq<SyncAction>, pipeline: Pipeline, table: ChunkTable)
    requires Reachable(s) && Synced(s, kbId, t, actions, pipeline, table).ok
    ensures Fresh(s, t) && LeavesPublished(s, Synced(s, kbId, t, actions, pipeline, table).state, kbId, t, pipeline)
  {
    var begun := Started(s, kbId, t, pipeline).state;
    BegunRun(s, kbId, t, pipeline);
    ActionsKeep(begun, t.runId, actions, pipeline, table);
    var p := Performed(begun, t.runId, actions, pipeline, table).state;
    StagingSets(s, p, kbId, t, pipeline);
    var staged := Catalog.Stage(p, t.runId).state;
    CommitEffect(staged, t.runId, t.committed);
    var u := Synced(s, kbId, t, actions, pipeline, table).state;
    forall h | h != t.generationId ensures SameRows(s, u, h) { SameRowsHere(begun, p, u, h); }
    PointsLeaves(s, staged, u, kbId, t, pipeline, Run(t.generationId, kbId, RunStaged, PipelineDigest(pipeline)),
      Generation(kbId, Staged, pipeline, t.began, None));
  }

  /** A run whose actions all succeed is published exactly when its generation holds a chunk. */
  lemma PublishesWithChunks(
    s: State, kbId: string, t: Ticket, actions: seq<SyncAction>, pipeline: Pipeline, table: ChunkTable)
    requires Reachable(s) && Fresh(s, t)
    requires Performed(Started(s, kbId, t, pipeline).state, t.runId, actions, pipeline, table).ok
    ensures var u := Synced(s, kbId, t, actions, pipeline, table);
      u.ok <==> exists chunkId: string :: (t.generationId, chunkId) in u.state.chunks
  {
    var begun := Started(s, kbId, t, pipeline).state;
    BegunRun(s, kbId, t, pipeline);
    ActionsKeep(begun, t.runId, actions, pipeline, table);
    var p := Performed(begun, t.runId, actions, pipeline, table);
    ClosingCloses(p, kbId, t);
    ChunksOfGeneration(p.state, kbId, t.generationId);
  }

  /** Every chunk row of the generation counts: its document exists and lies in the knowledge base. */
  lemma ChunksOfGeneration(s: State, kbId: string, g: string)
    requires Reachable(s) && g in s.generations && s.generations[g].kbId == kbId
    ensures HasChunks(s, kbId, g) <==> exists chunkId: string :: (g, chunkId) in s.chunks
  {
    ReachableHolds(s);
    if chunkId: string :| (g, chunkId) in s.chunks {
      var k := (g, chunkId);
      assert (g, s.chunks[k].sourceId) in s.documents;
      assert s.documents[(g, s.chunks[k].sourceId)].kbId == kbId;
    }
    if k :| k in s.chunks && k.0 == g && (g, s.chunks[k].sourceId) in s.documents { assert k == (g, k.1); }
  }
}
