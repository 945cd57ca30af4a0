/** The catalog's invariants hold after every call of every run, whatever the clock reads. */
module CatalogInvariants {
  import opened Common
  import opened Digest
  import opened Records
  import opened Catalog

  type Generations = map<string, Generation>
  type Documents = map<Key, DocumentRow>
  type Chunks = map<Key, ChunkRow>

  // ----- tables of rows

  lemma WithDocument(generations: Generations, documents: Documents, chunks: Chunks, key: Key, row: DocumentRow)
    requires Referenced(generations, documents, chunks)
    requires key.0 in generations && row.kbId == generations[key.0].kbId
    requires !PathTaken(documents, key.0, key.1, row.relativePath)
    ensures Referenced(generations, documents[key := row], chunks)
  {
  }

  lemma WritableBuilding(s: State, runId: string)
    requires Linked(s.generations, s.runs) && Writable(s, runId)
    ensures s.runs[runId].generationId in s.generations
    ensures s.generations[s.runs[runId].generationId].state == Building
    ensures s.generations[s.runs[runId].generationId].kbId == s.runs[runId].kbId
    ensures s.runs[runId].digest == PipelineDigest(s.generations[s.runs[runId].generationId].pipeline)
  {
  }

  lemma SameHistory(s: State, t: State)
    requires Inv(s) && Referenced(t.generations, t.documents, t.chunks)
    requires t.generations == s.generations && t.runs == s.runs && t.current == s.current && t.history == s.history
    ensures Inv(t)
  {
    forall kbId: string ensures Remembers(t, kbId) { assert Remembers(s, kbId); }
  }

  lemma RecordInv(s: State, runId: string, source: Source, pipeline: Pipeline, chunkCount: int)
    requires Inv(s)
    ensures Inv(After(s, Record(s, runId, source, pipeline, chunkCount)))
  {
    var o := Record(s, runId, source, pipeline, chunkCount);
    if o.Done? {
      WritableBuilding(s, runId);
      var key := (s.runs[runId].generationId, source.sourceId);
      if key in s.documents { assert s.documents[key].kbId == s.generations[key.0].kbId; }
      WithDocument(s.generations, s.documents, s.chunks, key, o.state.documents[key]);
      SameHistory(s, o.state);
    }
  }

  lemma {:induction false} WithRowsFrom(rows: Chunks, g: string, chunks: seq<ChunkInput>, k: Key)
    requires k in WithRows(rows, g, chunks)
    ensures (k in rows && WithRows(rows, g, chunks)[k] == rows[k])
         || (k.0 == g && WithRows(rows, g, chunks)[k].sourceId in SourcesOf(chunks))
  {
    if chunks != [] {
      var n := |chunks| - 1;
      assert chunks[n] in chunks && forall c | c in chunks[..n] :: c in chunks;
      if k != (g, chunks[n].chunkId) { WithRowsFrom(rows, g, chunks[..n], k); }
    }
  }

  lemma RecountedReferenced(
    generations: Generations, documents: Documents, rows: Chunks, g: string, chunks: seq<ChunkInput>)
    requires Referenced(generations, documents, rows)
    ensures Referenced(generations, Recounted(documents, g, chunks), rows)
  {
  }

  lemma RowsReferenced(generations: Generations, documents: Documents, rows: Chunks, g: string, chunks: seq<ChunkInput>)
    requires Referenced(generations, documents, rows)
    requires forall sourceId | sourceId in SourcesOf(chunks) :: (g, sourceId) in documents
    ensures Referenced(generations, documents, WithRows(WithoutSources(rows, g, SourcesOf(chunks)), g, chunks))
  {
    var kept := WithoutSources(rows, g, SourcesOf(chunks));
    var after := WithRows(kept, g, chunks);
    forall k | k in after ensures (k.0, after[k].sourceId) in documents {
      WithRowsFrom(kept, g, chunks, k);
      if k in rows { assert rows[k] == rows[k]; }
    }
  }

  lemma ChunksInv(s: State, runId: string, chunks: seq<ChunkInput>)
    requires Inv(s)
    ensures Inv(After(s, RecordChunks(s, runId, chunks)))
  {
    var o := RecordChunks(s, runId, chunks);
    if o.Done? {
      var g := s.runs[runId].generationId;
      RowsReferenced(s.generations, s.documents, s.chunks, g, chunks);
      RecountedReferenced(s.generations, s.documents, o.state.chunks, g, chunks);
      SameHistory(s, o.state);
    }
  }

  lemma CarryInv(s: State, runId: string, document: ManifestDocument, override: Option<Pipeline>)
    requires Inv(s)
    ensures Inv(After(s, Carry(s, runId, document, override)))
  {
    var o := Carry(s, runId, document, override);
    if o.Done? {
      WritableBuilding(s, runId);
      var key := (s.runs[runId].generationId, document.sourceId);
      WithDocument(s.generations, s.documents, s.chunks, key, o.state.documents[key]);
      CopiedReferenced(s.generations, o.state.documents, s.chunks, document.generationId, document.sourceId, key.0);
      SameHistory(s, o.state);
    }
  }

  lemma CopiedReferenced(
    generations: Generations, documents: Documents, chunks: Chunks, from: string, sourceId: string, to: string)
    requires Referenced(generations, documents, chunks) && (to, sourceId) in documents
    ensures Referenced(generations, documents, chunks + CopiedRows(chunks, from, sourceId, to))
  {
  }

  // ----- states that no pointer move depends on

  /** Generations keep their knowledge base, and the successful ones stay exactly as they are. */
  ghost predicate SuccessKept(before: Generations, after: Generations) {
    && before.Keys <= after.Keys
    && (forall g {:trigger after[g]} | g in before :: after[g].kbId == before[g].kbId)
    && forall g {:trigger after[g]} | g in after && (Succeeded(after[g]) || (g in before && Succeeded(before[g]))) ::
         g in before && after[g] == before[g]
  }

  lemma KeptPointed(before: Generations, after: Generations, current: map<string, string>)
    requires Pointed(before, current) && SuccessKept(before, after)
    ensures Pointed(after, current)
  {
  }

  lemma KeptAgrees(
    before: Generations, after: Generations, current: map<string, string>, moves: seq<Move>, kbId: string)
    requires Agrees(before, current, moves, kbId) && SuccessKept(before, after)
    ensures Agrees(after, current, moves, kbId)
  {
  }

  lemma KeptRetains(before: Generations, after: Generations, history: seq<Move>)
    requires Retains(before, history) && SuccessKept(before, after)
    ensures Retains(after, history)
  {
  }

  lemma KeptReferenced(before: Generations, after: Generations, documents: Documents, chunks: Chunks)
    requires Referenced(before, documents, chunks)
    requires before.Keys <= after.Keys && forall g {:trigger after[g]} | g in before :: after[g].kbId == before[g].kbId
    ensures Referenced(after, documents, chunks)
  {
  }

  lemma KeptInv(s: State, t: State)
    requires PointerInv(s) && SuccessKept(s.generations, t.generations)
    requires t.current == s.current && t.history == s.history && t.documents == s.documents && t.chunks == s.chunks
    ensures PointerInv(t)
  {
    KeptPointed(s.generations, t.generations, s.current);
    forall kbId: string ensures Remembers(t, kbId) {
      assert Remembers(s, kbId);
      KeptAgrees(s.generations, t.generations, s.current, KbHistory(s.history, kbId), kbId);
    }
    KeptRetains(s.generations, t.generations, s.history);
    KeptReferenced(s.generations, t.generations, s.documents, s.chunks);
  }

  lemma NewKept(before: Generations, g: string, row: Generation)
    requires !Succeeded(row) && (g in before ==> !Succeeded(before[g]) && row.kbId == before[g].kbId)
    ensures SuccessKept(before, before[g := row])
  {
  }

  lemma BeginRuns(generations: Generations, runs: map<string, Run>, runId: string, g: string, row: Generation)
    requires Linked(generations, runs) && g !in generations && runId !in runs && row.state == Building
    ensures var longer := runs[runId := Run(g, row.kbId, Running, PipelineDigest(row.pipeline))];
      RunsLinked(generations[g := row], longer) && RunsUnique(longer)
  {
  }

  lemma BeginCover(generations: Generations, runs: map<string, Run>, runId: string, run: Run, row: Generation)
    requires RunsCover(generations, runs) && runId !in runs
    ensures RunsCover(generations[run.generationId := row], runs[runId := run])
  {
    var longer := runs[runId := run];
    forall h | h in generations[run.generationId := row] ensures HasRun(longer, h) {
      if h == run.generationId {
        assert longer[runId].generationId == h;
      } else {
        assert generations[h] == generations[h] && HasRun(runs, h);
        var r :| r in runs && runs[r].generationId == h;
        assert longer[r].generationId == h;
      }
    }
  }

  lemma BeginLinked(s: State, runId: string, generationId: string, kbId: string, pipeline: Pipeline, now: int)
    requires Linked(s.generations, s.runs)
    ensures var t := After(s, Begin(s, runId, generationId, kbId, pipeline, now)); Linked(t.generations, t.runs)
  {
    if generationId !in s.generations && runId !in s.runs {
      var row := Generation(kbId, Building, pipeline, now, None);
      BeginRuns(s.generations, s.runs, runId, generationId, row);
      BeginCover(s.generations, s.runs, runId, Run(generationId, kbId, Running, PipelineDigest(pipeline)), row);
    }
  }

  lemma BeginInv(s: State, runId: string, generationId: string, kbId: string, pipeline: Pipeline, now: int)
    requires Inv(s)
    ensures Inv(After(s, Begin(s, runId, generationId, kbId, pipeline, now)))
  {
    var o := Begin(s, runId, generationId, kbId, pipeline, now);
    BeginLinked(s, runId, generationId, kbId, pipeline, now);
    if o.Done? {
      NewKept(s.generations, generationId, Generation(kbId, Building, pipeline, now, None));
      KeptInv(s, o.state);
    }
  }

  /** The generation may only move between the states its run's state allows. */
  ghost predicate SameClass(before: Generation, after: Generation) {
    && after.kbId == before.kbId && after.pipeline == before.pipeline
    && (after.state == before.state || (Succeeded(before) && Succeeded(after)))
  }

  lemma UpdatedRuns(before: Generations, after: Generations, runs: map<string, Run>, runId: string, next: Run)
    requires RunsLinked(before, runs) && RunsUnique(runs) && runId in runs
    requires after.Keys == before.Keys && RunLinked(after, next)
    requires forall g {:trigger after[g]} | g in before && g != runs[runId].generationId ::
      SameClass(before[g], after[g])
    ensures RunsLinked(after, runs[runId := next])
  {
  }

  /** Changing a run and its generation together keeps them in lockstep. */
  lemma LinkedUpdate(
    before: Generations, after: Generations, runs: map<string, Run>, runId: string, runState: RunState)
    requires Linked(before, runs) && runId in runs && after.Keys == before.Keys
    requires var g := runs[runId].generationId;
      && g in before && Lockstep(runState, after[g].state)
      && after[g].kbId == before[g].kbId && after[g].pipeline == before[g].pipeline
    requires forall g {:trigger after[g]} | g in before && g != runs[runId].generationId ::
      SameClass(before[g], after[g])
    ensures Linked(after, runs[runId := runs[runId].(state := runState)])
  {
    var next := runs[runId].(state := runState);
    assert RunLinked(before, runs[runId]);
    UpdatedRuns(before, after, runs, runId, next);
    SameRuns(before, runs, runs[runId := next], after);
  }

  lemma SameRuns(before: Generations, runs: map<string, Run>, next: map<string, Run>, after: Generations)
    requires RunsCover(before, runs) && RunsUnique(runs)
    requires runs.Keys == next.Keys
    requires forall r {:trigger next[r]} | r in runs :: next[r].generationId == runs[r].generationId
    requires after.Keys == before.Keys
    ensures RunsCover(after, next) && RunsUnique(next)
  {
  }

  /** Sealing or failing a run that has not been published. */
  function Close(s: State, runId: string, runState: RunState, state: GenerationState): State
    requires runId in s.runs
  {
    s.(generations := SetState(s.generations, s.runs[runId].generationId, state),
       runs := s.runs[runId := s.runs[runId].(state := runState)])
  }

  lemma CloseLinked(
    generations: Generations, runs: map<string, Run>, runId: string, runState: RunState, state: GenerationState)
    requires Linked(generations, runs) && runId in runs && runs[runId].state != RunPublished
    requires (runState == RunStaged && state == Staged) || (runState == RunFailed && state == Failed)
    ensures var after := SetState(generations, runs[runId].generationId, state);
      Linked(after, runs[runId := runs[runId].(state := runState)]) && SuccessKept(generations, after)
  {
    var g := runs[runId].generationId;
    assert RunLinked(generations, runs[runId]);
    var row := generations[g].(state := state);
    NewKept(generations, g, row);
    LinkedUpdate(generations, generations[g := row], runs, runId, runState);
  }

  lemma CloseInv(s: State, runId: string, runState: RunState, state: GenerationState)
    requires Inv(s) && runId in s.runs && s.runs[runId].state != RunPublished
    requires (runState == RunStaged && state == Staged) || (runState == RunFailed && state == Failed)
    ensures Inv(Close(s, runId, runState, state))
  {
    CloseLinked(s.generations, s.runs, runId, runState, state);
    KeptInv(s, Close(s, runId, runState, state));
  }

  lemma StageInv(s: State, runId: string)
    requires Inv(s)
    ensures Inv(After(s, Stage(s, runId)))
  {
    if Writable(s, runId) { CloseInv(s, runId, RunStaged, Staged); }
  }

  lemma FailInv(s: State, runId: string)
    requires Inv(s)
    ensures Inv(After(s, Fail(s, runId)))
    ensures var t := After(s, Fail(s, runId));
      && SuccessKept(s.generations, t.generations) && t.current == s.current && t.history == s.history
      && t.documents == s.documents && t.chunks == s.chunks
  {
    if Fail(s, runId).Done? {
      CloseInv(s, runId, RunFailed, Failed);
      CloseLinked(s.generations, s.runs, runId, RunFailed, Failed);
    }
  }

  // ----- pointer moves

  lemma KbHistorySnoc(history: seq<Move>, m: Move, kbId: string)
    ensures KbHistory(history + [m], kbId) == KbHistory(history, kbId) + if m.kbId == kbId then [m] else []
  {
    FilterSnoc(history, m, OfKb(kbId));
  }

  /** How a pointer move changes the generations: the target is published now, the previous
      target becomes available, nothing else changes. */
  ghost predicate Moved(before: Generations, after: Generations, previous: Option<string>, g: string, now: int) {
    && after.Keys == before.Keys && g in before && previous != Some(g)
    && after[g] == before[g].(state := Published, publishedAt := Some(now))
    && (previous.Some? && previous.value in before ==>
          after[previous.value] == before[previous.value].(state := Available))
    && forall h {:trigger after[h]} | h in before && h != g && previous != Some(h) :: after[h] == before[h]
  }

  lemma MoveMoves(s: State, kbId: string, g: string, now: int, committed: bool)
    requires g in s.generations && CurrentOf(s, kbId) != Some(g)
    ensures Moved(s.generations, MovePointer(s, kbId, g, now, committed).generations, CurrentOf(s, kbId), g, now)
  {
  }

  lemma MovedPointed(
    before: Generations, after: Generations, current: map<string, string>, kbId: string, g: string, now: int)
    requires Pointed(before, current) && g in before && before[g].kbId == kbId
    requires Moved(before, after, if kbId in current then Some(current[kbId]) else None, g, now)
    ensures Pointed(after, current[kbId := g])
  {
  }

  lemma MovedKept(
    before: Generations, after: Generations, current: map<string, string>, kbId: string, g: string, now: int,
    moves: seq<Move>, kb: string)
    requires Pointed(before, current) && g in before && before[g].kbId == kbId && kb != kbId
    requires Moved(before, after, if kbId in current then Some(current[kbId]) else None, g, now)
    requires Agrees(before, current, moves, kb)
    ensures Agrees(after, current[kbId := g], moves, kb)
  {
  }

  lemma MovedExtends(
    before: Generations, after: Generations, current: map<string, string>, kbId: string, m: Move, moves: seq<Move>)
    requires Pointed(before, current) && m.generationId in before && before[m.generationId].kbId == kbId
    requires Moved(before, after, if kbId in current then Some(current[kbId]) else None, m.generationId, m.stamp)
    requires Agrees(before, current, moves, kbId)
    ensures Agrees(after, current[kbId := m.generationId], moves + [m], kbId)
  {
  }

  lemma CommittedSnoc(history: seq<Move>, m: Move, g: string)
    ensures Committed(history + [m], g) <==> Committed(history, g) || (m.generationId == g && m.committed)
  {
    var all := history + [m];
    assert all[|history|] == m;
    if i :| 0 <= i < |history| && history[i].generationId == g && history[i].committed {
      assert all[i].generationId == g && all[i].committed;
    }
  }

  lemma MovedRetains(
    before: Generations, after: Generations, current: map<string, string>, kbId: string, m: Move, history: seq<Move>)
    requires Pointed(before, current) && m.generationId in before && before[m.generationId].kbId == kbId
    requires Moved(before, after, if kbId in current then Some(current[kbId]) else None, m.generationId, m.stamp)
    requires Retains(before, history) && (m.committed || Succeeded(before[m.generationId]))
    ensures Retains(after, history + [m])
  {
    forall h ensures IsRetained(after, h) <==> Committed(history + [m], h) {
      CommittedSnoc(history, m, h);
      assert IsRetained(before, h) <==> Committed(history, h);
      if h in before {
        assert before[h].state == Published <==> PointedAt(h, before[h], current);
        assert after[h] == after[h];
        if kbId in current && current[kbId] == h { assert before[h].kbId == kbId; }
      }
    }
  }

  lemma MovedRemembers(s: State, kbId: string, g: string, now: int, committed: bool, kb: string)
    requires Pointed(s.generations, s.current) && Remembers(s, kb)
    requires g in s.generations && s.generations[g].kbId == kbId && CurrentOf(s, kbId) != Some(g)
    ensures Remembers(MovePointer(s, kbId, g, now, committed), kb)
  {
    var t := MovePointer(s, kbId, g, now, committed);
    var m := Move(kbId, g, now, committed);
    MoveMoves(s, kbId, g, now, committed);
    KbHistorySnoc(s.history, m, kb);
    if kb == kbId {
      MovedExtends(s.generations, t.generations, s.current, kbId, m, KbHistory(s.history, kb));
    } else {
      assert KbHistory(s.history, kb) + [] == KbHistory(s.history, kb);
      MovedKept(s.generations, t.generations, s.current, kbId, g, now, KbHistory(s.history, kb), kb);
    }
  }

  lemma MoveInv(s: State, kbId: string, g: string, now: int, committed: bool)
    requires PointerInv(s) && g in s.generations && s.generations[g].kbId == kbId && CurrentOf(s, kbId) != Some(g)
    requires committed || Succeeded(s.generations[g])
    ensures PointerInv(MovePointer(s, kbId, g, now, committed))
    ensures Moved(s.generations, MovePointer(s, kbId, g, now, committed).generations, CurrentOf(s, kbId), g, now)
  {
    var t := MovePointer(s, kbId, g, now, committed);
    MoveMoves(s, kbId, g, now, committed);
    MovedPointed(s.generations, t.generations, s.current, kbId, g, now);
    forall kb: string ensures Remembers(t, kb) { MovedRemembers(s, kbId, g, now, committed, kb); }
    MovedRetains(s.generations, t.generations, s.current, kbId, Move(kbId, g, now, committed), s.history);
    MovedReferenced(s.generations, t.generations, CurrentOf(s, kbId), g, now, s.documents, s.chunks);
  }

  lemma MovedReferenced(
    before: Generations, after: Generations, previous: Option<string>, g: string, now: int, documents: Documents,
    chunks: Chunks)
    requires Moved(before, after, previous, g, now) && Referenced(before, documents, chunks)
    ensures Referenced(after, documents, chunks)
  {
  }

  lemma MovedSucceeds(
    before: Generations, after: Generations, current: map<string, string>, kbId: string, g: string, now: int)
    requires Pointed(before, current)
    requires Moved(before, after, if kbId in current then Some(current[kbId]) else None, g, now)
    ensures forall h {:trigger after[h]} | h in before ::
      after[h].kbId == before[h].kbId && after[h].pipeline == before[h].pipeline
    ensures forall h {:trigger after[h]} | h in before && h != g :: SameClass(before[h], after[h])
  {
  }

  lemma StagedNotCurrent(s: State, runId: string)
    requires Inv(s) && runId in s.runs && s.runs[runId].state == RunStaged
    ensures var g := s.runs[runId].generationId;
      g in s.generations && s.generations[g].kbId == s.runs[runId].kbId && CurrentOf(s, s.runs[runId].kbId) != Some(g)
  {
  }

  lemma CommitInv(s: State, runId: string, now: int)
    requires Inv(s)
    ensures Inv(After(s, Commit(s, runId, now)))
  {
    var o := Commit(s, runId, now);
    if o.Done? {
      var run := s.runs[runId];
      StagedNotCurrent(s, runId);
      MoveInv(s, run.kbId, run.generationId, now, true);
      CommitLinked(s, runId, now);
      SameTables(MovePointer(s, run.kbId, run.generationId, now, true), o.state);
    }
  }

  lemma CommitLinked(s: State, runId: string, now: int)
    requires Linked(s.generations, s.runs) && Pointed(s.generations, s.current) && Commit(s, runId, now).Done?
    requires var run := s.runs[runId];
      && run.generationId in s.generations
      && Moved(s.generations, MovePointer(s, run.kbId, run.generationId, now, true).generations, CurrentOf(s, run.kbId),
        run.generationId, now)
    ensures var t := Commit(s, runId, now).state; Linked(t.generations, t.runs)
  {
    var run := s.runs[runId];
    var t := Commit(s, runId, now).state;
    MovedSucceeds(s.generations, t.generations, s.current, run.kbId, run.generationId, now);
    LinkedUpdate(s.generations, t.generations, s.runs, runId, RunPublished);
  }

  lemma SameTables(m: State, t: State)
    requires t.generations == m.generations && t.current == m.current && t.history == m.history
    requires t.documents == m.documents && t.chunks == m.chunks && Linked(t.generations, t.runs)
    requires PointerInv(m)
    ensures Inv(t)
  {
    forall kb: string ensures Remembers(t, kb) { assert Remembers(m, kb); }
  }

  lemma RollbackInv(s: State, kbId: string, g: string, now: int)
    requires Inv(s)
    ensures Inv(After(s, Rollback(s, kbId, g, now)))
  {
    var o := Rollback(s, kbId, g, now);
    if o.Done? && CurrentOf(s, kbId) != Some(g) {
      MoveInv(s, kbId, g, now, false);
      MovedSucceeds(s.generations, o.state.generations, s.current, kbId, g, now);
      RollbackLinked(s.generations, o.state.generations, s.runs, g);
      SameTables(MovePointer(s, kbId, g, now, false), o.state);
    }
  }

  lemma RollbackLinked(before: Generations, after: Generations, runs: map<string, Run>, g: string)
    requires Linked(before, runs) && after.Keys == before.Keys && g in before
    requires Succeeded(before[g]) && Succeeded(after[g])
    requires forall h {:trigger after[h]} | h in before ::
      after[h].kbId == before[h].kbId && after[h].pipeline == before[h].pipeline
    requires forall h {:trigger after[h]} | h in before && h != g :: SameClass(before[h], after[h])
    ensures Linked(after, runs)
  {
    forall r | r in runs ensures RunLinked(after, runs[r]) {
      assert RunLinked(before, runs[r]);
      SameClassLinked(before, after, runs[r], g);
    }
    forall h | h in after ensures HasRun(runs, h) { assert before[h] == before[h]; }
  }

  lemma SameClassLinked(before: Generations, after: Generations, run: Run, g: string)
    requires RunLinked(before, run) && after.Keys == before.Keys && g in before
    requires Succeeded(before[g]) && Succeeded(after[g])
    requires after[run.generationId].kbId == before[run.generationId].kbId
    requires after[run.generationId].pipeline == before[run.generationId].pipeline
    requires run.generationId != g ==> SameClass(before[run.generationId], after[run.generationId])
    ensures RunLinked(after, run)
  {
  }

  // ----- every run

  lemma StepInv(s: State, op: Operation, now: int)
    requires Inv(s)
    ensures Inv(Step(s, op, now))
  {
    match op
    case BeginOp(r, g, kb, p) => BeginInv(s, r, g, kb, p, now);
    case RecordOp(r, source, p, n) => RecordInv(s, r, source, p, n);
    case ChunksOp(r, chunks) => ChunksInv(s, r, chunks);
    case CarryOp(r, document, override) => CarryInv(s, r, document, override);
    case StageOp(r) => StageInv(s, r);
    case CommitOp(r) => CommitInv(s, r, now);
    case FailOp(r) => FailInv(s, r);
    case RollbackOp(kb, g) => RollbackInv(s, kb, g, now);
  }

  lemma EmptyInv()
    ensures Inv(EMPTY)
  {
  }

  /** Every sequence of calls on an empty catalog keeps the invariants. */
  lemma {:induction false} ReachableInv(calls: seq<(Operation, int)>)
    ensures Inv(Exec(EMPTY, calls))
  {
    if calls == [] {
      EmptyInv();
    } else {
      var n := |calls| - 1;
      ReachableInv(calls[..n]);
      StepInv(Exec(EMPTY, calls[..n]), calls[n].0, calls[n].1);
    }
  }

  ghost predicate Reaches(calls: seq<(Operation, int)>, s: State) {
    s == Exec(EMPTY, calls)
  }

  /** Some sequence of calls on an empty catalog, failed ones included, ends in this state. */
  ghost predicate Reachable(s: State) {
    exists calls :: Reaches(calls, s)
  }

  lemma ReachableHolds(s: State)
    requires Reachable(s)
    ensures Inv(s)
  {
    var calls :| Reaches(calls, s);
    ReachableInv(calls);
  }

  lemma ReachableStep(s: State, op: Operation, now: int)
    requires Reachable(s)
    ensures Reachable(Step(s, op, now))
  {
    var calls :| Reaches(calls, s);
    assert (calls + [(op, now)])[..|calls|] == calls;
    assert Reaches(calls + [(op, now)], Step(s, op, now));
  }

  lemma {:induction false} ReachableExec(s: State, calls: seq<(Operation, int)>)
    requires Reachable(s)
    ensures Reachable(Exec(s, calls))
  {
    if calls != [] {
      var n := |calls| - 1;
      ReachableExec(s, calls[..n]);
      ReachableStep(Exec(s, calls[..n]), calls[n].0, calls[n].1);
    }
  }

  predicate IsPublished(s: State, g: string) {
    g in s.generations && s.generations[g].state == Published
  }

  /** In every reachable state: each run is in lockstep with its generation; a knowledge base has at
      most one PUBLISHED generation, its pointer's target; AVAILABLE plus current are exactly the
      generations ever committed. */
  lemma ReachableStates(s: State)
    requires Reachable(s)
    ensures forall r | r in s.runs :: RunLinked(s.generations, s.runs[r])
    ensures forall g, h | IsPublished(s, g) && IsPublished(s, h) && s.generations[g].kbId == s.generations[h].kbId ::
      g == h
    ensures forall g | g in s.generations ::
      s.generations[g].state == Published <==> CurrentOf(s, s.generations[g].kbId) == Some(g)
    ensures forall g | g in s.generations ::
      Committed(s.history, g) <==> s.generations[g].state == Available || CurrentOf(s, s.generations[g].kbId) == Some(g)
  {
    ReachableHolds(s);
    forall g | g in s.generations
      ensures s.generations[g].state == Published <==> CurrentOf(s, s.generations[g].kbId) == Some(g)
      ensures Committed(s.history, g) <==>
        s.generations[g].state == Available || CurrentOf(s, s.generations[g].kbId) == Some(g)
    {
      assert s.generations[g].state == Published <==> PointedAt(g, s.generations[g], s.current);
      assert IsRetained(s.generations, g) <==> Committed(s.history, g);
    }
  }

  // ----- frozen rows

  ghost predicate SameRow<T>(before: map<Key, T>, after: map<Key, T>, k: Key) {
    (k in after <==> k in before) && (k in before ==> after[k] == before[k])
  }

  /** The document and chunk rows of one generation are the same in both states. */
  ghost predicate SameRows(s: State, t: State, g: string) {
    forall k: Key | k.0 == g :: SameRow(s.documents, t.documents, k) && SameRow(s.chunks, t.chunks, k)
  }

  lemma {:induction false} WithRowsElsewhere(rows: Chunks, g: string, chunks: seq<ChunkInput>, k: Key)
    requires k.0 != g
    ensures SameRow(rows, WithRows(rows, g, chunks), k)
  {
    if chunks != [] { WithRowsElsewhere(rows, g, chunks[..|chunks| - 1], k); }
  }

  lemma ChunksElsewhere(s: State, runId: string, chunks: seq<ChunkInput>, k: Key)
    requires runId in s.runs && k.0 != s.runs[runId].generationId
    ensures var t := After(s, RecordChunks(s, runId, chunks));
      SameRow(s.documents, t.documents, k) && SameRow(s.chunks, t.chunks, k)
  {
    var h := s.runs[runId].generationId;
    WithRowsElsewhere(WithoutSources(s.chunks, h, SourcesOf(chunks)), h, chunks, k);
  }

  lemma RecordElsewhere(s: State, runId: string, source: Source, pipeline: Pipeline, chunkCount: int, k: Key)
    requires runId in s.runs && k.0 != s.runs[runId].generationId
    ensures var t := After(s, Record(s, runId, source, pipeline, chunkCount));
      SameRow(s.documents, t.documents, k) && SameRow(s.chunks, t.chunks, k)
  {
  }

  lemma CarryElsewhere(s: State, runId: string, document: ManifestDocument, override: Option<Pipeline>, k: Key)
    requires runId in s.runs && k.0 != s.runs[runId].generationId
    ensures var t := After(s, Carry(s, runId, document, override));
      SameRow(s.documents, t.documents, k) && SameRow(s.chunks, t.chunks, k)
  {
  }

  function WriterOf(op: Operation): Option<string> {
    match op
    case RecordOp(r, _, _, _) => Some(r)
    case ChunksOp(r, _) => Some(r)
    case CarryOp(r, _, _) => Some(r)
    case _ => None
  }

  /** A call writes rows of its own run's generation, and only while that run is RUNNING. */
  lemma StepRow(s: State, op: Operation, now: int, k: Key)
    requires WriterOf(op).Some? && Writable(s, WriterOf(op).value) ==> k.0 != s.runs[WriterOf(op).value].generationId
    ensures SameRow(s.documents, Step(s, op, now).documents, k) && SameRow(s.chunks, Step(s, op, now).chunks, k)
  {
    match op
    case RecordOp(r, source, p, n) => if Writable(s, r) { RecordElsewhere(s, r, source, p, n, k); }
    case ChunksOp(r, chunks) => if Writable(s, r) { ChunksElsewhere(s, r, chunks, k); }
    case CarryOp(r, document, override) => if Writable(s, r) { CarryElsewhere(s, r, document, override, k); }
    case _ =>
  }

  /** Calls write rows of BUILDING generations only. */
  lemma StepRows(s: State, op: Operation, now: int, g: string)
    requires Linked(s.generations, s.runs) && g in s.generations && s.generations[g].state != Building
    ensures SameRows(s, Step(s, op, now), g)
  {
    if WriterOf(op).Some? && Writable(s, WriterOf(op).value) { WritableBuilding(s, WriterOf(op).value); }
    forall k: Key | k.0 == g
      ensures SameRow(s.documents, Step(s, op, now).documents, k) && SameRow(s.chunks, Step(s, op, now).chunks, k)
    {
      StepRow(s, op, now, k);
    }
  }

  lemma StepNotBuilding(s: State, op: Operation, now: int, g: string)
    requires g in s.generations && s.generations[g].state != Building
    ensures g in Step(s, op, now).generations && Step(s, op, now).generations[g].state != Building
  {
  }

  lemma {:induction false} ExecFreezes(s: State, calls: seq<(Operation, int)>, g: string)
    requires Inv(s) && g in s.generations && s.generations[g].state != Building
    ensures SameRows(s, Exec(s, calls), g) && Inv(Exec(s, calls))
    ensures g in Exec(s, calls).generations && Exec(s, calls).generations[g].state != Building
  {
    if calls != [] {
      var n := |calls| - 1;
      var mid := Exec(s, calls[..n]);
      ExecFreezes(s, calls[..n], g);
      StepRows(mid, calls[n].0, calls[n].1, g);
      StepNotBuilding(mid, calls[n].0, calls[n].1, g);
      StepInv(mid, calls[n].0, calls[n].1);
      RowsTransitive(s, mid, Exec(s, calls), g);
    }
  }

  lemma RowsTransitive(s: State, t: State, u: State, g: string)
    requires SameRows(s, t, g) && SameRows(t, u, g)
    ensures SameRows(s, u, g)
  {
  }

  /** Once a run leaves RUNNING, its document and chunk rows are the same after any further calls. */
  lemma ClosedRunFrozen(s: State, further: seq<(Operation, int)>, runId: string)
    requires Reachable(s) && runId in s.runs && s.runs[runId].state != Running
    ensures SameRows(s, Exec(s, further), s.runs[runId].generationId)
  {
    ReachableHolds(s);
    assert RunLinked(s.generations, s.runs[runId]);
    ExecFreezes(s, further, s.runs[runId].generationId);
  }
}
