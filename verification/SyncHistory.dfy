/** Any sequence of synchronizations and rollbacks (pipeline.py) on an empty catalog: every published
    row has chunks and the right count, and a synchronization that succeeded has nothing left to do. */
module SyncHistory {
  import opened Common
  import opened Digest
  import opened Records
  import opened Catalog
  import opened CatalogInvariants
  import History = CatalogHistory
  import opened Planner
  import opened Convergence
  import opened Replanning
  import opened RunSuccess
  import opened ChunkCounts
  import opened Synchronizer

  datatype Event =
    | SyncEvent(kbId: string, ticket: Ticket, sources: seq<Source>, force: bool, pipeline: Pipeline, table: ChunkTable)
    | RollbackEvent(kbId: string, generationId: string, now: int)

  /** A synchronization as `Sync` carries it out. */
  ghost predicate Synchronizes(s: State, e: Event, p: Progress)
    requires e.SyncEvent?
  {
    exists manifest, actions :: SynchronizesWith(s, e, p, manifest, actions)
  }

  ghost predicate SynchronizesWith(
    s: State, e: Event, p: Progress, manifest: seq<ManifestDocument>, actions: seq<SyncAction>)
    requires e.SyncEvent?
  {
    && History.IsListing(s, e.kbId, None, manifest)
    && Attempt(s, e.kbId, e.ticket, e.sources, e.force, e.pipeline, e.table, manifest, actions, p)
  }

  ghost predicate Happens(s: State, e: Event, u: State) {
    match e
    case SyncEvent(_, _, _, _, _, _) => Synchronizes(s, e, Progress(u, true)) || Synchronizes(s, e, Progress(u, false))
    case RollbackEvent(kb, g, now) => u == After(s, Rollback(s, kb, g, now))
  }

  /** The states before and after every event, from the empty catalog on. */
  ghost predicate IsTrace(events: seq<Event>, states: seq<State>) {
    && |states| == |events| + 1 && states[0] == EMPTY
    && forall i | 0 <= i < |events| :: Happens(states[i], events[i], states[i + 1])
  }

  /** Processing a source gives at least one chunk, each with an ID of that source's own. */
  ghost predicate Chunked(table: ChunkTable, owner: Owner) {
    OwnedTable(table, owner) && forall id | id in table :: table[id] != []
  }

  ghost predicate AllChunkedBy(events: seq<Event>, owner: Owner) {
    forall i | 0 <= i < |events| && events[i].SyncEvent? :: Chunked(events[i].table, owner)
  }

  // ----- the invariant

  /** Every document of the generation has at least one chunk. */
  ghost predicate Populated(s: State, g: string) {
    forall id: string | (g, id) in s.documents :: s.documents[(g, id)].chunkCount >= 1
  }

  ghost predicate SoundGeneration(s: State, g: string) {
    Counted(s, g) && Populated(s, g)
  }

  /** The current and the retained generations are all sound. */
  ghost predicate AllSound(s: State) {
    forall g {:trigger SoundGeneration(s, g)} | g in s.generations && Succeeded(s.generations[g]) ::
      SoundGeneration(s, g)
  }

  ghost predicate Sound(s: State, owner: Owner) {
    Reachable(s) && OwnedRows(s.chunks, owner) && AllSound(s)
  }

  lemma SameRowsCounted(s: State, u: State, g: string)
    requires SameRows(s, u, g) && Counted(s, g)
    ensures Counted(u, g)
  {
    forall id: string ensures CountHolds(u, g, id) {
      assert SameRow(s.documents, u.documents, (g, id)) && CountHolds(s, g, id);
      forall k ensures k in SourceRows(s.chunks, g, id) <==> k in SourceRows(u.chunks, g, id) {
        if k.0 == g { assert SameRow(s.chunks, u.chunks, k); }
      }
      assert SourceRows(s.chunks, g, id) == SourceRows(u.chunks, g, id);
    }
  }

  lemma SameRowsSound(s: State, u: State, g: string)
    requires SameRows(s, u, g) && SoundGeneration(s, g)
    ensures SoundGeneration(u, g)
  {
    SameRowsCounted(s, u, g);
    forall id: string | (g, id) in u.documents ensures u.documents[(g, id)].chunkCount >= 1 {
      assert SameRow(s.documents, u.documents, (g, id));
    }
  }

  // ----- the loop of a run, finished or not

  lemma CarryRuns(s: State, runId: string, d: ManifestDocument, override: Option<Pipeline>)
    ensures Replanning.SameRuns(s, After(s, Carry(s, runId, d, override)))
  {
  }

  lemma RecordRuns(s: State, runId: string, source: Source, pipeline: Pipeline, count: int)
    ensures Replanning.SameRuns(s, After(s, Record(s, runId, source, pipeline, count)))
  {
  }

  lemma ChunksRuns(s: State, runId: string, chunks: seq<ChunkInput>)
    ensures Replanning.SameRuns(s, After(s, RecordChunks(s, runId, chunks)))
  {
  }

  lemma PerformRuns(s: State, runId: string, a: SyncAction, pipeline: Pipeline, table: ChunkTable)
    ensures Replanning.SameRuns(s, Perform(s, runId, a, pipeline, table).state)
  {
    if a.change == Unchanged {
      if a.previous.Some? { CarryRuns(s, runId, a.previous.value, None); }
    } else if a.change == Deleted {
    } else if a.startStage == IndexStage && a.previous.Some? {
      CarryRuns(s, runId, a.previous.value, Some(pipeline));
    } else if a.source.Some? {
      var chunks := Convergence.ChunksOf(table, a.source.value.sourceId);
      RecordRuns(s, runId, a.source.value, pipeline, |chunks|);
      ChunksRuns(After(s, Record(s, runId, a.source.value, pipeline, |chunks|)), runId, chunks);
    }
  }

  lemma {:induction false} PerformedFrame(
    s: State, runId: string, actions: seq<SyncAction>, pipeline: Pipeline, table: ChunkTable, owner: Owner)
    requires runId in s.runs && Reachable(s) && OwnedTable(table, owner) && OwnedRows(s.chunks, owner)
    ensures var t := Performed(s, runId, actions, pipeline, table).state;
      && Replanning.SameRuns(s, t) && Reachable(t) && OwnedRows(t.chunks, owner)
      && forall h | h != s.runs[runId].generationId :: SameRows(s, t, h)
  {
    if actions != [] {
      var n := |actions| - 1;
      PerformedFrame(s, runId, actions[..n], pipeline, table, owner);
      var mid := Performed(s, runId, actions[..n], pipeline, table);
      if mid.ok { PerformFrame(s, mid.state, runId, actions[n], pipeline, table, owner); }
    }
  }

  lemma PerformFrame(
    s: State, mid: State, runId: string, a: SyncAction, pipeline: Pipeline, table: ChunkTable, owner: Owner)
    requires runId in s.runs && Replanning.SameRuns(s, mid) && Reachable(mid) && OwnedTable(table, owner)
    requires OwnedRows(mid.chunks, owner)
    requires forall h | h != s.runs[runId].generationId :: SameRows(s, mid, h)
    ensures var t := Perform(mid, runId, a, pipeline, table).state;
      && Replanning.SameRuns(s, t) && Reachable(t) && OwnedRows(t.chunks, owner)
      && forall h | h != s.runs[runId].generationId :: SameRows(s, t, h)
  {
    var t := Perform(mid, runId, a, pipeline, table).state;
    PerformRuns(mid, runId, a, pipeline, table);
    PerformReachable(mid, runId, a, pipeline, table);
    PerformOwned(mid, runId, a, pipeline, table, owner);
    forall h | h != s.runs[runId].generationId ensures SameRows(s, t, h) {
      forall k: Key | k.0 == h ensures SameRow(mid.documents, t.documents, k) && SameRow(mid.chunks, t.chunks, k) {
        PerformElsewhere(mid, runId, a, pipeline, table, k);
      }
      RowsTransitive(s, mid, t, h);
    }
  }

  lemma CarriesStays(s: State, mid: State, g: string, a: SyncAction)
    requires CarriesCounted(s, g, a) && forall h | h != g :: SameRows(s, mid, h)
    ensures CarriesCounted(mid, g, a)
  {
    if Carries(a) && a.previous.Some? {
      var d := a.previous.value;
      SameRowsCounted(s, mid, d.generationId);
      assert SameRow(s.documents, mid.documents, (d.generationId, d.sourceId));
    }
  }

  lemma {:induction false} PerformedCounts(
    s: State, runId: string, g: string, kbId: string, actions: seq<SyncAction>, pipeline: Pipeline, table: ChunkTable,
    owner: Owner)
    requires Reachable(s) && RunsIn(s, runId, g, kbId) && OwnedTable(table, owner) && OwnedRows(s.chunks, owner)
    requires IdsDiffer(actions) && AllCoherent(actions, pipeline) && forall id: string :: (g, id) !in s.documents
    requires forall a | a in actions :: CarriesCounted(s, g, a)
    requires Performed(s, runId, actions, pipeline, table).ok
    ensures Counted(Performed(s, runId, actions, pipeline, table).state, g)
  {
    if actions != [] {
      var n := |actions| - 1;
      var a := actions[n];
      LastAction(actions, pipeline);
      assert a in actions && forall b | b in actions[..n] :: b in actions;
      PerformedCounts(s, runId, g, kbId, actions[..n], pipeline, table, owner);
      PerformedHolds(s, runId, g, kbId, actions[..n], pipeline, table);
      PerformedFrame(s, runId, actions[..n], pipeline, table, owner);
      var mid := Performed(s, runId, actions[..n], pipeline, table).state;
      CarriesStays(s, mid, g, a);
      ReachableRows(mid);
      assert forall b :: !Kept(actions[..n], a.sourceId, b);
      PerformCounts(mid, runId, g, kbId, a, pipeline, table, owner);
    }
  }

  // ----- one run

  lemma CarriesPublished(
    s: State, kbId: string, g: string, manifest: seq<ManifestDocument>, actions: seq<SyncAction>, pipeline: Pipeline,
    owner: Owner)
    requires Sound(s, owner) && g !in s.generations && History.IsListing(s, kbId, None, manifest)
    requires CarriesListed(actions, manifest)
    ensures forall a | a in actions :: CarriesCounted(s, g, a)
    ensures forall a | a in actions && Carries(a) :: a.previous.Some? && a.previous.value.chunkCount >= 1
  {
    forall a | a in actions && Carries(a)
      ensures a.previous.Some? && a.previous.value.chunkCount >= 1 && CarriesCounted(s, g, a)
    {
      PublishedDocument(s, kbId, manifest, a.previous.value, owner);
    }
  }

  lemma PublishedDocument(s: State, kbId: string, manifest: seq<ManifestDocument>, d: ManifestDocument, owner: Owner)
    requires Sound(s, owner) && History.IsListing(s, kbId, None, manifest) && d in manifest
    ensures d.generationId in s.generations && Counted(s, d.generationId) && d.kbId == kbId && d.chunkCount >= 1
    ensures (d.generationId, d.sourceId) in s.documents
    ensures s.documents[(d.generationId, d.sourceId)].chunkCount == d.chunkCount
  {
    var c := CurrentOf(s, kbId);
    assert History.IsRow(s, kbId, c.value, d);
    History.CurrentPublished(s, kbId);
    assert SoundGeneration(s, c.value);
  }

  lemma {:induction false} AllEnough(
    s: State, runId: string, actions: seq<SyncAction>, pipeline: Pipeline, table: ChunkTable, owner: Owner)
    requires AllCoherent(actions, pipeline) && Chunked(table, owner) && Performed(s, runId, actions, pipeline, table).ok
    requires forall a | a in actions && Carries(a) :: a.previous.Some? && a.previous.value.chunkCount >= 1
    ensures AllMaterialized(actions, table) && Enough(actions, table)
  {
    forall a | a in actions ensures Materialized(a, table) {
      var i :| 0 <= i < |actions| && actions[i] == a;
      if !Materialized(a, table) { MissingFails(s, runId, actions, pipeline, table, i); }
    }
    MaterializedEnough(actions, table, owner);
  }

  lemma MaterializedEnough(actions: seq<SyncAction>, table: ChunkTable, owner: Owner)
    requires AllMaterialized(actions, table) && Chunked(table, owner)
    requires forall a | a in actions && Carries(a) :: a.previous.Some? && a.previous.value.chunkCount >= 1
    ensures Enough(actions, table)
  {
    forall a | a in actions && a.change != Deleted ensures CountAfter(a, table) >= 1 {
      assert Materialized(a, table);
      if !Carries(a) { assert |table[a.sourceId]| >= 1; }
    }
  }

  /** Closing a run writes no rows and makes no other generation succeed. */
  ghost predicate Closes(p: State, u: State, g: string) {
    && Reachable(u) && u.documents == p.documents && u.chunks == p.chunks
    && forall h | h in u.generations && h != g && Succeeded(u.generations[h]) ::
         h in p.generations && Succeeded(p.generations[h])
  }

  lemma FailCloses(p: State, kbId: string, t: Ticket)
    requires Reachable(p) && RunsIn(p, t.runId, t.generationId, kbId)
    ensures var u := After(p, Fail(p, t.runId));
      && Closes(p, u, t.generationId)
      && (t.generationId in u.generations ==> !Succeeded(u.generations[t.generationId]))
  {
    ReachableStep(p, FailOp(t.runId), 0);
  }

  lemma StageCloses(p: State, kbId: string, t: Ticket)
    requires Reachable(p) && RunsIn(p, t.runId, t.generationId, kbId)
    ensures var u := After(p, Catalog.Stage(p, t.runId));
      && Closes(p, u, t.generationId)
      && t.runId in u.runs && u.runs[t.runId] == p.runs[t.runId].(state := RunStaged)
  {
    ReachableStep(p, StageOp(t.runId), 0);
  }

  lemma CommitCloses(p: State, runId: string, now: int)
    requires Reachable(p) && Commit(p, runId, now).Done?
    ensures Closes(p, Commit(p, runId, now).state, p.runs[runId].generationId)
  {
    ReachableStep(p, CommitOp(runId), now);
    if CurrentOf(p, p.runs[runId].kbId).Some? { History.CurrentPublished(p, p.runs[runId].kbId); }
  }

  lemma ClosesChain(p: State, q: State, u: State, g: string)
    requires Closes(p, q, g) && Closes(q, u, g)
    ensures Closes(p, u, g)
  {
  }

  lemma ClosingCloses(p: Progress, kbId: string, t: Ticket)
    requires Reachable(p.state) && RunsIn(p.state, t.runId, t.generationId, kbId)
    ensures var c := Closing(p, kbId, t);
      && Closes(p.state, c.state, t.generationId)
      && (c.ok <==> p.ok && HasChunks(p.state, kbId, t.generationId))
      && (!c.ok && t.generationId in c.state.generations ==> !Succeeded(c.state.generations[t.generationId]))
  {
    if p.ok && HasChunks(p.state, kbId, t.generationId) {
      var staged := After(p.state, Catalog.Stage(p.state, t.runId));
      StageCloses(p.state, kbId, t);
      CommitCloses(staged, t.runId, t.committed);
      ClosesChain(p.state, staged, Commit(staged, t.runId, t.committed).state, t.generationId);
    } else {
      FailCloses(p.state, kbId, t);
    }
  }

  lemma SameRowsHere(s: State, u: State, v: State, g: string)
    requires SameRows(s, u, g) && v.documents == u.documents && v.chunks == u.chunks
    ensures SameRows(s, v, g)
  {
    forall k: Key | k.0 == g ensures SameRow(s.documents, v.documents, k) && SameRow(s.chunks, v.chunks, k) {
      assert SameRow(s.documents, u.documents, k) && SameRow(s.chunks, u.chunks, k);
    }
  }

  lemma BegunRun(s: State, kbId: string, t: Ticket, pipeline: Pipeline)
    requires Reachable(s) && Started(s, kbId, t, pipeline).Done?
    ensures var begun := Started(s, kbId, t, pipeline).state;
      && Reachable(begun) && RunsIn(begun, t.runId, t.generationId, kbId)
      && begun.documents == s.documents && begun.chunks == s.chunks
      && begun.generations == s.generations[t.generationId := Generation(kbId, Building, pipeline, t.began, None)]
      && t.generationId !in s.generations && (forall id: string :: (t.generationId, id) !in s.documents)
  {
    ReachableStep(s, BeginOp(t.runId, t.generationId, kbId, pipeline), t.began);
    forall id: string ensures (t.generationId, id) !in s.documents { FreshGeneration(s, t.generationId, id); }
  }

  /** Everything published before a run stays as it was. */
  lemma SyncedOthers(
    s: State, kbId: string, t: Ticket, actions: seq<SyncAction>, pipeline: Pipeline, table: ChunkTable, owner: Owner)
    requires Reachable(s) && OwnedTable(table, owner) && OwnedRows(s.chunks, owner)
    requires Started(s, kbId, t, pipeline).Done?
    ensures var p := Synced(s, kbId, t, actions, pipeline, table);
      && Reachable(p.state) && OwnedRows(p.state.chunks, owner)
      && (forall h | h in p.state.generations && h != t.generationId && Succeeded(p.state.generations[h]) ::
            h in s.generations && Succeeded(s.generations[h]) && SameRows(s, p.state, h))
      && (!p.ok && t.generationId in p.state.generations ==> !Succeeded(p.state.generations[t.generationId]))
  {
    var begun := Started(s, kbId, t, pipeline).state;
    BegunRun(s, kbId, t, pipeline);
    PerformedFrame(begun, t.runId, actions, pipeline, table, owner);
    var done := Performed(begun, t.runId, actions, pipeline, table);
    ClosingCloses(done, kbId, t);
    var p := Synced(s, kbId, t, actions, pipeline, table);
    forall h | h in p.state.generations && h != t.generationId && Succeeded(p.state.generations[h])
      ensures h in s.generations && Succeeded(s.generations[h]) && SameRows(s, p.state, h)
    {
      SameRowsHere(begun, done.state, p.state, h);
    }
  }

  /** A run that succeeds publishes a sound generation. */
  lemma SyncedSound(
    s: State, kbId: string, t: Ticket, sources: seq<Source>, manifest: seq<ManifestDocument>, actions: seq<SyncAction>,
    pipeline: Pipeline, table: ChunkTable, owner: Owner)
    requires Sound(s, owner) && Chunked(table, owner) && History.IsListing(s, kbId, None, manifest)
    requires Followable(actions, sources, pipeline) && CarriesListed(actions, manifest)
    requires Synced(s, kbId, t, actions, pipeline, table).ok
    ensures SoundGeneration(Synced(s, kbId, t, actions, pipeline, table).state, t.generationId)
    ensures Enough(actions, table)
  {
    var begun := Started(s, kbId, t, pipeline).state;
    var u := Synced(s, kbId, t, actions, pipeline, table).state;
    BegunRun(s, kbId, t, pipeline);
    CarriesPublished(s, kbId, t.generationId, manifest, actions, pipeline, owner);
    BegunCarries(s, begun, t.generationId, actions);
    PerformedCounts(begun, t.runId, t.generationId, kbId, actions, pipeline, table, owner);
    PerformedFrame(begun, t.runId, actions, pipeline, table, owner);
    AllEnough(begun, t.runId, actions, pipeline, table, owner);
    ClosingCloses(Performed(begun, t.runId, actions, pipeline, table), kbId, t);
    CountedHere(Performed(begun, t.runId, actions, pipeline, table).state, u, t.generationId);
    SyncedHolds(s, kbId, t, actions, pipeline, table);
    HoldsPopulated(u, t.generationId, actions, kbId, pipeline, table);
  }

  lemma BegunCarries(s: State, begun: State, g: string, actions: seq<SyncAction>)
    requires begun.documents == s.documents && begun.chunks == s.chunks
    requires forall a | a in actions :: CarriesCounted(s, g, a)
    ensures forall a | a in actions :: CarriesCounted(begun, g, a)
  {
    forall a | a in actions ensures CarriesCounted(begun, g, a) {
      if Carries(a) && a.previous.Some? { CountedHere(s, begun, a.previous.value.generationId); }
    }
  }

  lemma CountedHere(s: State, u: State, g: string)
    requires u.documents == s.documents && u.chunks == s.chunks && Counted(s, g)
    ensures Counted(u, g)
  {
    forall id: string ensures CountHolds(u, g, id) { assert CountHolds(s, g, id); }
  }

  lemma HoldsPopulated(
    u: State, g: string, actions: seq<SyncAction>, kbId: string, pipeline: Pipeline, table: ChunkTable)
    requires HoldsActions(u, g, actions, kbId, pipeline, table) && Enough(actions, table)
    ensures Populated(u, g)
  {
    forall id: string | (g, id) in u.documents ensures u.documents[(g, id)].chunkCount >= 1 {
      var a :| Kept(actions, id, a);
      assert RowMatches(u.documents[(g, id)], a, kbId, pipeline, CountAfter(a, table));
    }
  }

  // ----- every event

  lemma SyncedKeeps(
    s: State, kbId: string, t: Ticket, sources: seq<Source>, manifest: seq<ManifestDocument>, actions: seq<SyncAction>,
    pipeline: Pipeline, table: ChunkTable, owner: Owner)
    requires Sound(s, owner) && Chunked(table, owner) && History.IsListing(s, kbId, None, manifest)
    requires Followable(actions, sources, pipeline) && CarriesListed(actions, manifest)
    ensures Sound(Synced(s, kbId, t, actions, pipeline, table).state, owner)
  {
    var p := Synced(s, kbId, t, actions, pipeline, table);
    if Started(s, kbId, t, pipeline).Done? {
      SyncedOthers(s, kbId, t, actions, pipeline, table, owner);
      if p.ok { SyncedSound(s, kbId, t, sources, manifest, actions, pipeline, table, owner); }
      forall h | h in p.state.generations && Succeeded(p.state.generations[h]) ensures SoundGeneration(p.state, h) {
        if h != t.generationId { SameRowsSound(s, p.state, h); }
      }
    }
  }

  lemma SyncKeeps(s: State, e: Event, p: Progress, owner: Owner)
    requires Sound(s, owner) && e.SyncEvent? && Chunked(e.table, owner) && Synchronizes(s, e, p)
    ensures Sound(p.state, owner)
  {
    var manifest, actions :| SynchronizesWith(s, e, p, manifest, actions);
    if PlanAccepted(e.sources, manifest, Some(e.kbId)) {
      var active := CurrentOf(s, e.kbId).Some?;
      TodoFollowable(e.sources, manifest, e.pipeline, e.force, actions, active);
      SyncedKeeps(s, e.kbId, e.ticket, e.sources, manifest, Todo(actions, e.pipeline, active), e.pipeline, e.table,
        owner);
    }
  }

  lemma RollbackKeeps(s: State, kbId: string, g: string, now: int, owner: Owner)
    requires Sound(s, owner)
    ensures Sound(After(s, Rollback(s, kbId, g, now)), owner)
  {
    var u := After(s, Rollback(s, kbId, g, now));
    ReachableStep(s, RollbackOp(kbId, g), now);
    forall h | h in u.generations && Succeeded(u.generations[h]) ensures SoundGeneration(u, h) {
      RollbackKept(s, kbId, g, now, h);
      SameRowsSound(s, u, h);
    }
  }

  lemma RollbackKept(s: State, kbId: string, g: string, now: int, h: string)
    requires Reachable(s)
    ensures var u := After(s, Rollback(s, kbId, g, now));
      && u.documents == s.documents && u.chunks == s.chunks && SameRows(s, u, h)
      && (h in u.generations && Succeeded(u.generations[h]) ==> h in s.generations && Succeeded(s.generations[h]))
  {
    if CurrentOf(s, kbId).Some? { History.CurrentPublished(s, kbId); }
  }

  lemma EmptySound(owner: Owner)
    ensures Sound(EMPTY, owner)
  {
    assert Reaches([], EMPTY);
  }

  /** Whatever was synchronized and rolled back: every published generation, current or retained, counts
      its chunk rows right and has a chunk in every document. */
  lemma {:induction false} TraceSound(events: seq<Event>, states: seq<State>, owner: Owner, i: nat)
    requires IsTrace(events, states) && AllChunkedBy(events, owner) && i < |states|
    ensures Sound(states[i], owner)
  {
    if i == 0 {
      EmptySound(owner);
    } else {
      var e := events[i - 1];
      TraceSound(events, states, owner, i - 1);
      assert Happens(states[i - 1], e, states[i - 1 + 1]);
      if e.SyncEvent? {
        SyncKeeps(states[i - 1], e, Progress(states[i], Synchronizes(states[i - 1], e, Progress(states[i], true))),
          owner);
      } else {
        RollbackKeeps(states[i - 1], e.kbId, e.generationId, e.now, owner);
      }
    }
  }

  /** A synchronization that succeeds leaves nothing to do: on the same sources and pipeline the next
      plan is accepted and empty of work, and the next synchronization changes nothing. */
  lemma SyncSettles(
    s: State, e: Event, u: State, owner: Owner, docs: seq<ManifestDocument>, replan: seq<SyncAction>, t: Ticket,
    table: ChunkTable)
    requires Sound(s, owner) && e.SyncEvent? && Chunked(e.table, owner) && Synchronizes(s, e, Progress(u, true))
    requires History.IsListing(u, e.kbId, None, docs)
    ensures PlanAccepted(e.sources, docs, Some(e.kbId))
    ensures IsPlan(e.sources, docs, e.pipeline, replan) ==>
      IsNoop(replan) && SyncOnce(u, e.kbId, t, e.sources, replan, e.pipeline, table) == Progress(u, true)
  {
    var manifest, actions :| SynchronizesWith(s, e, Progress(u, true), manifest, actions);
    var active := CurrentOf(s, e.kbId).Some?;
    var todo := Todo(actions, e.pipeline, active);
    TodoFollowable(e.sources, manifest, e.pipeline, e.force, actions, active);
    if !IsNoop(todo) { SyncedSound(s, e.kbId, e.ticket, e.sources, manifest, todo, e.pipeline, e.table, owner); }
    SyncAgain(s, e.kbId, e.ticket, e.sources, manifest, e.force, actions, e.pipeline, e.table, docs, replan, t, table);
  }

  /** In any history of synchronizations and rollbacks, every synchronization that succeeds converges. */
  lemma SyncsConverge(
    events: seq<Event>, states: seq<State>, owner: Owner, i: nat, docs: seq<ManifestDocument>, replan: seq<SyncAction>,
    t: Ticket, table: ChunkTable)
    requires IsTrace(events, states) && AllChunkedBy(events, owner) && i < |events| && events[i].SyncEvent?
    requires Synchronizes(states[i], events[i], Progress(states[i + 1], true))
    requires History.IsListing(states[i + 1], events[i].kbId, None, docs)
    ensures PlanAccepted(events[i].sources, docs, Some(events[i].kbId))
    ensures IsPlan(events[i].sources, docs, events[i].pipeline, replan) ==>
      && IsNoop(replan)
      && SyncOnce(states[i + 1], events[i].kbId, t, events[i].sources, replan, events[i].pipeline, table)
         == Progress(states[i + 1], true)
  {
    TraceSound(events, states, owner, i);
    SyncSettles(states[i], events[i], states[i + 1], owner, docs, replan, t, table);
  }

  // ----- when a synchronization succeeds

  lemma TodoFeasible(
    s: State, kbId: string, g: string, sources: seq<Source>, manifest: seq<ManifestDocument>, actions: seq<SyncAction>,
    pipeline: Pipeline, owner: Owner)
    requires Sound(s, owner) && g !in s.generations && History.IsListing(s, kbId, None, manifest)
    requires Followable(actions, sources, pipeline) && CarriesListed(actions, manifest)
    requires forall x | x in sources :: x.kbId == kbId
    ensures Feasible(s.documents, g, kbId, sources, actions, pipeline)
  {
    forall a | a in actions ensures Coherent(a, pipeline) && CarriesRow(s.documents, g, kbId, a) {
      if Carries(a) { PublishedDocument(s, kbId, manifest, a.previous.value, owner); }
    }
  }

  lemma KeptHasChunks(
    p: State, kbId: string, g: string, a: SyncAction, actions: seq<SyncAction>, pipeline: Pipeline, table: ChunkTable)
    requires HoldsActions(p, g, actions, kbId, pipeline, table) && Counted(p, g)
    requires Kept(actions, a.sourceId, a) && CountAfter(a, table) >= 1
    ensures HasChunks(p, kbId, g)
  {
    assert RowMatches(p.documents[(g, a.sourceId)], a, kbId, pipeline, CountAfter(a, table));
    assert CountHolds(p, g, a.sourceId) && |SourceRows(p.chunks, g, a.sourceId)| >= 1;
    var k :| k in SourceRows(p.chunks, g, a.sourceId);
  }

  lemma RunHasChunks(
    s: State, kbId: string, t: Ticket, sources: seq<Source>, manifest: seq<ManifestDocument>, actions: seq<SyncAction>,
    pipeline: Pipeline, table: ChunkTable, owner: Owner)
    requires Sound(s, owner) && Chunked(table, owner) && History.IsListing(s, kbId, None, manifest)
    requires Followable(actions, sources, pipeline) && CarriesListed(actions, manifest) && sources != []
    requires Started(s, kbId, t, pipeline).Done?
    requires Performed(Started(s, kbId, t, pipeline).state, t.runId, actions, pipeline, table).ok
    ensures HasChunks(Performed(Started(s, kbId, t, pipeline).state, t.runId, actions, pipeline, table).state, kbId,
      t.generationId)
  {
    var begun := Started(s, kbId, t, pipeline).state;
    BegunRun(s, kbId, t, pipeline);
    CarriesPublished(s, kbId, t.generationId, manifest, actions, pipeline, owner);
    BegunCarries(s, begun, t.generationId, actions);
    PerformedCounts(begun, t.runId, t.generationId, kbId, actions, pipeline, table, owner);
    PerformedHolds(begun, t.runId, t.generationId, kbId, actions, pipeline, table);
    AllEnough(begun, t.runId, actions, pipeline, table, owner);
    var a :| Kept(actions, sources[0].sourceId, a) && a.source == Some(sources[0]);
    KeptHasChunks(Performed(begun, t.runId, actions, pipeline, table).state, kbId, t.generationId, a, actions, pipeline,
      table);
  }

  /** With fresh identifiers, an accepted synchronization succeeds exactly when there is nothing to do,
      or there is a source and every source processed anew could be processed. */
  lemma SyncSucceeds(
    s: State, kbId: string, t: Ticket, sources: seq<Source>, manifest: seq<ManifestDocument>, force: bool,
    actions: seq<SyncAction>, pipeline: Pipeline, table: ChunkTable, owner: Owner)
    requires Sound(s, owner) && t.generationId !in s.generations && t.runId !in s.runs
    requires Chunked(table, owner) && GoodTable(table, kbId, owner) && History.IsListing(s, kbId, None, manifest)
    requires PlanAccepted(sources, manifest, Some(kbId)) && IsTodo(sources, manifest, pipeline, force, actions)
    ensures var todo := Todo(actions, pipeline, CurrentOf(s, kbId).Some?);
      SyncOnce(s, kbId, t, sources, actions, pipeline, table).ok
      <==> IsNoop(todo) || (sources != [] && AllMaterialized(todo, table))
  {
    var active := CurrentOf(s, kbId).Some?;
    var todo := Todo(actions, pipeline, active);
    TodoFollowable(sources, manifest, pipeline, force, actions, active);
    SameKb(sources, manifest, kbId);
    TodoFeasible(s, kbId, t.generationId, sources, manifest, todo, pipeline, owner);
    RunSucceeds(s, kbId, t, sources, todo, pipeline, table, owner);
    if sources != [] && AllMaterialized(todo, table) {
      RunHasChunks(s, kbId, t, sources, manifest, todo, pipeline, table, owner);
    }
  }
}
