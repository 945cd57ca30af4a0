/** The manifest catalog as a state machine (`ManifestCatalog`, catalog.py): tables are maps, every
    method is one atomic step, and the wall clock is an argument. `history` records every move of a
    knowledge base's pointer; no operation reads it. */
module Catalog {
  import opened Common
  import opened Digest
  import opened Records

  datatype RunState = Running | RunStaged | RunPublished | RunFailed

  datatype Generation = Generation(
    kbId: string, state: GenerationState, pipeline: Pipeline, createdAt: int, publishedAt: Option<int>)

  datatype Run = Run(generationId: string, kbId: string, state: RunState, digest: Sha256)

  datatype DocumentRow = DocumentRow(
    kbId: string, relativePath: string, mediaType: string, sizeBytes: int, mtimeNs: int,
    contentSha256: string, pipeline: Pipeline, chunkCount: int)

  datatype ChunkRow = ChunkRow(
    sourceId: string, sourceRevision: string, ordinal: int, contentSha256: Sha256, embeddingSha256: Sha256)

  /** One chunk as it is handed to `record_chunks`. */
  datatype ChunkInput = ChunkInput(
    chunkId: string, kbId: string, sourceId: string, sourceRevision: string, ordinal: int,
    content: string, embeddingText: string)

  datatype Move = Move(kbId: string, generationId: string, stamp: int, committed: bool)

  /** (generation, source) or (generation, chunk). */
  type Key = (string, string)

  datatype State = State(
    generations: map<string, Generation>,
    runs: map<string, Run>,
    current: map<string, string>,
    documents: map<Key, DocumentRow>,
    chunks: map<Key, ChunkRow>,
    history: seq<Move>)

  const EMPTY := State(map[], map[], map[], map[], map[], [])

  /** A finished call with what it returned, or a raised error that rolled back. */
  datatype Outcome = Done(state: State, value: Option<string>) | Rejected

  function After(s: State, o: Outcome): State {
    if o.Done? then o.state else s
  }

  // ----- the operations

  /** `begin_run`. */
  function Begin(s: State, runId: string, generationId: string, kbId: string, pipeline: Pipeline, now: int): Outcome {
    if generationId in s.generations || runId in s.runs then Rejected
    else
      Done(s.(generations := s.generations[generationId := Generation(kbId, Building, pipeline, now, None)],
              runs := s.runs[runId := Run(generationId, kbId, Running, PipelineDigest(pipeline))]),
           Some(runId))
  }

  predicate Writable(s: State, runId: string) {
    runId in s.runs && s.runs[runId].state == Running
  }

  /** Another source of the generation already holds this path (a UNIQUE constraint). */
  predicate PathTaken(documents: map<Key, DocumentRow>, g: string, sourceId: string, path: string) {
    exists k | k in documents :: k.0 == g && k.1 != sourceId && documents[k].relativePath == path
  }

  /** `record_document`: insert, or overwrite the row of the same source. */
  function Record(s: State, runId: string, source: Source, pipeline: Pipeline, chunkCount: int): Outcome {
    if chunkCount < 0 || !Writable(s, runId) then Rejected
    else
      var run := s.runs[runId];
      var key := (run.generationId, source.sourceId);
      if source.kbId != run.kbId || PipelineDigest(pipeline) != run.digest then Rejected
      else if PathTaken(s.documents, run.generationId, source.sourceId, source.relativePath) then Rejected
      else
        var kbId := if key in s.documents then s.documents[key].kbId else source.kbId;
        Done(s.(documents := s.documents[key :=
               DocumentRow(kbId, source.relativePath, source.mediaType, source.sizeBytes, source.mtimeNs,
                           source.sha256, pipeline, chunkCount)]), None)
  }

  predicate UniqueIds(chunks: seq<ChunkInput>) {
    forall i, j | 0 <= i < j < |chunks| :: chunks[i].chunkId != chunks[j].chunkId
  }

  function SourcesOf(chunks: seq<ChunkInput>): set<string> {
    set c | c in chunks :: c.sourceId
  }

  function CountOf(chunks: seq<ChunkInput>, sourceId: string): nat {
    if chunks == [] then 0
    else CountOf(chunks[..|chunks| - 1], sourceId) + if chunks[|chunks| - 1].sourceId == sourceId then 1 else 0
  }

  function RowOf(c: ChunkInput): ChunkRow {
    ChunkRow(c.sourceId, c.sourceRevision, c.ordinal, Sha256(Utf8(c.content)), Sha256(Utf8(c.embeddingText)))
  }

  /** The inserted rows, each overwriting a row of the same chunk ID. */
  function WithRows(rows: map<Key, ChunkRow>, g: string, chunks: seq<ChunkInput>): map<Key, ChunkRow> {
    if chunks == [] then rows
    else
      var last := chunks[|chunks| - 1];
      WithRows(rows, g, chunks[..|chunks| - 1])[(g, last.chunkId) := RowOf(last)]
  }

  function WithoutSources(rows: map<Key, ChunkRow>, g: string, sources: set<string>): map<Key, ChunkRow> {
    map k | k in rows && !(k.0 == g && rows[k].sourceId in sources) :: rows[k]
  }

  function Recounted(documents: map<Key, DocumentRow>, g: string, chunks: seq<ChunkInput>): map<Key, DocumentRow> {
    map k | k in documents ::
      if k.0 == g && k.1 in SourcesOf(chunks) then documents[k].(chunkCount := CountOf(chunks, k.1)) else documents[k]
  }

  /** `record_chunks`: the complete chunk manifest of every source mentioned. */
  function RecordChunks(s: State, runId: string, chunks: seq<ChunkInput>): Outcome {
    if !Writable(s, runId) || |chunks| > 1_000_000 then Rejected
    else
      var run := s.runs[runId];
      if (exists c | c in chunks :: c.kbId != run.kbId) || !UniqueIds(chunks) then Rejected
      else if exists sourceId | sourceId in SourcesOf(chunks) ::
        (run.generationId, sourceId) !in s.documents then Rejected
      else
        var kept := WithoutSources(s.chunks, run.generationId, SourcesOf(chunks));
        Done(s.(chunks := WithRows(kept, run.generationId, chunks),
                documents := Recounted(s.documents, run.generationId, chunks)), None)
  }

  /** A chunk ID of the carried document is already in use in the target generation. */
  predicate ChunkClash(chunks: map<Key, ChunkRow>, from: string, sourceId: string, to: string) {
    exists k | k in chunks :: k.0 == from && chunks[k].sourceId == sourceId && (to, k.1) in chunks
  }

  function CopiedRows(chunks: map<Key, ChunkRow>, from: string, sourceId: string, to: string): map<Key, ChunkRow> {
    map k | k in chunks && k.0 == from && chunks[k].sourceId == sourceId :: (to, k.1) := chunks[k]
  }

  /** `carry_forward_document`. */
  function Carry(s: State, runId: string, document: ManifestDocument, override: Option<Pipeline>): Outcome {
    if !Writable(s, runId) then Rejected
    else
      var run := s.runs[runId];
      var g := run.generationId;
      var pipeline := if override.Some? then override.value else document.pipeline;
      if document.kbId != run.kbId || PipelineDigest(pipeline) != run.digest then Rejected
      else if (document.generationId, document.sourceId) !in s.documents then Rejected
      else if (g, document.sourceId) in s.documents then Rejected
      else if PathTaken(s.documents, g, document.sourceId, document.relativePath) then Rejected
      else if ChunkClash(s.chunks, document.generationId, document.sourceId, g) then Rejected
      else
        Done(s.(documents := s.documents[(g, document.sourceId) :=
                  DocumentRow(document.kbId, document.relativePath, document.mediaType, document.sizeBytes,
                              document.mtimeNs, document.contentSha256, pipeline, document.chunkCount)],
                chunks := s.chunks + CopiedRows(s.chunks, document.generationId, document.sourceId, g)), None)
  }

  function SetState(generations: map<string, Generation>, g: string, state: GenerationState): map<string, Generation> {
    if g in generations then generations[g := generations[g].(state := state)] else generations
  }

  function Publish(generations: map<string, Generation>, g: string, now: int): map<string, Generation> {
    if g in generations then generations[g := generations[g].(state := Published, publishedAt := Some(now))]
    else generations
  }

  /** `mark_staged`. */
  function Stage(s: State, runId: string): Outcome {
    if !Writable(s, runId) then Rejected
    else
      var run := s.runs[runId];
      Done(s.(generations := SetState(s.generations, run.generationId, Staged),
              runs := s.runs[runId := run.(state := RunStaged)]), Some(run.generationId))
  }

  function CurrentOf(s: State, kbId: string): Option<string> {
    if kbId in s.current then Some(s.current[kbId]) else None
  }

  /** The pointer switch shared by commit and rollback. */
  function MovePointer(s: State, kbId: string, g: string, now: int, committed: bool): State {
    var previous := CurrentOf(s, kbId);
    var retired := if previous.Some? && previous.value != g then SetState(s.generations, previous.value, Available)
                   else s.generations;
    s.(generations := Publish(retired, g, now),
       current := s.current[kbId := g],
       history := s.history + [Move(kbId, g, now, committed)])
  }

  /** `commit_published`. */
  function Commit(s: State, runId: string, now: int): Outcome {
    if runId !in s.runs || s.runs[runId].state != RunStaged then Rejected
    else
      var run := s.runs[runId];
      var moved := MovePointer(s, run.kbId, run.generationId, now, true);
      Done(moved.(runs := s.runs[runId := run.(state := RunPublished)]), CurrentOf(s, run.kbId))
  }

  /** `fail_run`. */
  function Fail(s: State, runId: string): Outcome {
    if runId !in s.runs || s.runs[runId].state == RunPublished then Rejected
    else
      var run := s.runs[runId];
      Done(s.(generations := SetState(s.generations, run.generationId, Failed),
              runs := s.runs[runId := run.(state := RunFailed)]), None)
  }

  /** `rollback_to_generation`. */
  function Rollback(s: State, kbId: string, g: string, now: int): Outcome {
    if g !in s.generations || s.generations[g].kbId != kbId then Rejected
    else if s.generations[g].state != Published && s.generations[g].state != Available then Rejected
    else if CurrentOf(s, kbId) == Some(g) then Done(s, Some(g))
    else Done(MovePointer(s, kbId, g, now, false), CurrentOf(s, kbId))
  }

  // ----- runs of the machine

  datatype Operation =
    | BeginOp(runId: string, generationId: string, kbId: string, pipeline: Pipeline)
    | RecordOp(runId: string, source: Source, pipeline: Pipeline, chunkCount: int)
    | ChunksOp(runId: string, chunks: seq<ChunkInput>)
    | CarryOp(runId: string, document: ManifestDocument, override: Option<Pipeline>)
    | StageOp(runId: string)
    | CommitOp(runId: string)
    | FailOp(runId: string)
    | RollbackOp(kbId: string, generationId: string)

  function Apply(s: State, op: Operation, now: int): Outcome {
    match op
    case BeginOp(r, g, kb, p) => Begin(s, r, g, kb, p, now)
    case RecordOp(r, source, p, n) => Record(s, r, source, p, n)
    case ChunksOp(r, chunks) => RecordChunks(s, r, chunks)
    case CarryOp(r, document, override) => Carry(s, r, document, override)
    case StageOp(r) => Stage(s, r)
    case CommitOp(r) => Commit(s, r, now)
    case FailOp(r) => Fail(s, r)
    case RollbackOp(kb, g) => Rollback(s, kb, g, now)
  }

  function Step(s: State, op: Operation, now: int): State {
    After(s, Apply(s, op, now))
  }

  /** Any sequence of calls, each at some clock reading. */
  function Exec(s: State, calls: seq<(Operation, int)>): State {
    if calls == [] then s
    else Step(Exec(s, calls[..|calls| - 1]), calls[|calls| - 1].0, calls[|calls| - 1].1)
  }

  // ----- invariants

  predicate Lockstep(run: RunState, generation: GenerationState) {
    match run
    case Running => generation == Building
    case RunStaged => generation == Staged
    case RunPublished => generation == Published || generation == Available
    case RunFailed => generation == Failed
  }

  ghost predicate RunLinked(generations: map<string, Generation>, run: Run) {
    && run.generationId in generations
    && run.kbId == generations[run.generationId].kbId
    && run.digest == PipelineDigest(generations[run.generationId].pipeline)
    && Lockstep(run.state, generations[run.generationId].state)
  }

  ghost predicate HasRun(runs: map<string, Run>, g: string) {
    exists r :: r in runs && runs[r].generationId == g
  }

  ghost predicate RunsLinked(generations: map<string, Generation>, runs: map<string, Run>) {
    forall r {:trigger runs[r]} | r in runs :: RunLinked(generations, runs[r])
  }

  ghost predicate RunsUnique(runs: map<string, Run>) {
    forall r, q {:trigger runs[r], runs[q]} | r in runs && q in runs && r != q ::
      runs[r].generationId != runs[q].generationId
  }

  ghost predicate RunsCover(generations: map<string, Generation>, runs: map<string, Run>) {
    forall g {:trigger generations[g]} | g in generations :: HasRun(runs, g)
  }

  /** Runs and generations correspond one to one and their states move together. */
  ghost predicate Linked(generations: map<string, Generation>, runs: map<string, Run>) {
    RunsLinked(generations, runs) && RunsUnique(runs) && RunsCover(generations, runs)
  }

  predicate PointedAt(g: string, generation: Generation, current: map<string, string>) {
    generation.kbId in current && current[generation.kbId] == g
  }

  /** A generation is PUBLISHED exactly when its knowledge base points at it. */
  ghost predicate Pointed(generations: map<string, Generation>, current: map<string, string>) {
    && (forall g {:trigger generations[g]} | g in generations ::
          generations[g].state == Published <==> PointedAt(g, generations[g], current))
    && forall kb {:trigger current[kb]} | kb in current ::
         current[kb] in generations && generations[current[kb]].kbId == kb
  }

  predicate Succeeded(g: Generation) {
    g.state == Published || g.state == Available
  }

  function OfKb(kbId: string): Move -> bool {
    (m: Move) => m.kbId == kbId
  }

  /** The pointer moves of one knowledge base, oldest first. */
  function KbHistory(history: seq<Move>, kbId: string): seq<Move> {
    Filter(history, OfKb(kbId))
  }

  function LastStamp(moves: seq<Move>, g: string): Option<int> {
    if moves == [] then None
    else if moves[|moves| - 1].generationId == g then Some(moves[|moves| - 1].stamp)
    else LastStamp(moves[..|moves| - 1], g)
  }

  ghost predicate Committed(history: seq<Move>, g: string) {
    exists i | 0 <= i < |history| :: history[i].generationId == g && history[i].committed
  }

  ghost predicate StampRemembered(moves: seq<Move>, g: string, generation: Generation) {
    generation.publishedAt.Some? && LastStamp(moves, g) == generation.publishedAt
  }

  ghost predicate MoveSucceeded(generations: map<string, Generation>, kbId: string, m: Move) {
    m.generationId in generations && Succeeded(generations[m.generationId]) && generations[m.generationId].kbId == kbId
  }

  /** The tables agree with the real history of one knowledge base's pointer. */
  ghost predicate Agrees(
    generations: map<string, Generation>, current: map<string, string>, moves: seq<Move>, kbId: string)
  {
    && (kbId in current <==> moves != [])
    && (moves != [] ==> current[kbId] == moves[|moves| - 1].generationId)
    && (forall i | 0 <= i < |moves| - 1 :: moves[i].generationId != moves[i + 1].generationId)
    && (forall i | 0 <= i < |moves| :: MoveSucceeded(generations, kbId, moves[i]))
    && forall g {:trigger generations[g]} | g in generations && generations[g].kbId == kbId &&
      Succeeded(generations[g]) ::
         StampRemembered(moves, g, generations[g])
  }

  ghost predicate Remembers(s: State, kbId: string) {
    Agrees(s.generations, s.current, KbHistory(s.history, kbId), kbId)
  }

  predicate IsRetained(generations: map<string, Generation>, g: string) {
    g in generations && Succeeded(generations[g])
  }

  /** Exactly the generations ever committed are AVAILABLE or current. */
  ghost predicate Retains(generations: map<string, Generation>, history: seq<Move>) {
    forall g :: IsRetained(generations, g) <==> Committed(history, g)
  }

  /** Rows belong to existing generations; paths are unique and chunks have their document. */
  ghost predicate Referenced(
    generations: map<string, Generation>, documents: map<Key, DocumentRow>, chunks: map<Key, ChunkRow>)
  {
    && (forall k {:trigger documents[k]} | k in documents ::
          k.0 in generations && documents[k].kbId == generations[k.0].kbId)
    && (forall k, l {:trigger documents[k], documents[l]} | k in documents && l in documents && k != l && k.0 == l.0 ::
          documents[k].relativePath != documents[l].relativePath)
    && forall k {:trigger chunks[k]} | k in chunks :: (k.0, chunks[k].sourceId) in documents
  }

  ghost predicate PointerInv(s: State) {
    && Pointed(s.generations, s.current)
    && (forall kbId: string :: Remembers(s, kbId))
    && Retains(s.generations, s.history)
    && Referenced(s.generations, s.documents, s.chunks)
  }

  ghost predicate Inv(s: State) {
    Linked(s.generations, s.runs) && PointerInv(s)
  }
}
