/** The chunk table of a synchronization as the chunker fills it (`_materialize_chunks` in pipeline.py,
    `chunk_blocks` in chunking.py): processing a source gives at least one chunk, and every chunk ID
    belongs to one source. With such tables every successful synchronization converges. */
module ChunkTables {
  import opened Common
  import opened Digest
  import opened Records
  import opened Layout
  import opened Grouping
  import Chunking
  import opened Catalog
  import opened CatalogInvariants
  import Store = CatalogStore
  import History = CatalogHistory
  import opened Planner
  import Convergence
  import opened Replanning
  import opened RunSuccess
  import opened ChunkCounts
  import opened Synchronizer
  import opened SyncHistory

  /** `chunk_blocks` returns these chunks. */
  ghost predicate IsChunking(
    source: Source, blocks: seq<Block>, config: Chunking.Config, rev: Chunking.Revisions, chunks: seq<Chunking.Chunk>)
  {
    && Chunking.ValidConfig(config) && Chunking.Bounded(source, rev) && (forall b | b in blocks :: ValidBlock(b))
    && Chunking.BlocksAccepted(source, blocks)
    && exists starts, ends :: Emits(source, blocks, config, rev, chunks, starts, ends)
  }

  ghost predicate Emits(
    source: Source, blocks: seq<Block>, config: Chunking.Config, rev: Chunking.Revisions, chunks: seq<Chunking.Chunk>,
    starts: seq<nat>, ends: seq<nat>)
    requires Chunking.ValidConfig(config)
  {
    var pieces := Chunking.PiecesOf(blocks, config.maxChars);
    && Chunking.WellCut(pieces, config.maxChars) && Chunking.Grouped(pieces, config, starts, ends)
    && Chunking.ChunksOf(source, pieces, rev, chunks, starts, ends)
  }

  /** The chunk's ID is the digest of eight values, the second its source's ID. */
  ghost predicate IdentifiedBy(c: Chunking.Chunk, source: Source, values: seq<string>) {
    && Encodable(values) && |values| == 8 && values[1] == source.sourceId
    && c.chunkId == Sha256(Encode(values))
  }

  ghost predicate ChunkFrom(source: Source, c: Chunking.Chunk) {
    && c.kbId == source.kbId && c.sourceId == source.sourceId && c.sourceRevision == source.sha256
    && exists values :: IdentifiedBy(c, source, values)
  }

  lemma EmittedFrom(
    source: Source, blocks: seq<Block>, config: Chunking.Config, rev: Chunking.Revisions, chunks: seq<Chunking.Chunk>,
    starts: seq<nat>, ends: seq<nat>, k: nat)
    requires Chunking.ValidConfig(config) && Chunking.Bounded(source, rev)
    requires Emits(source, blocks, config, rev, chunks, starts, ends) && k < |chunks|
    ensures ChunkFrom(source, chunks[k])
  {
    var pieces := Chunking.PiecesOf(blocks, config.maxChars);
    Chunking.GroupsGood(source, rev, pieces, config, starts, ends, k);
    var group := pieces[starts[k]..ends[k]];
    assert chunks[k] == Chunking.ChunkOf(source, rev, group, k);
    assert IdentifiedBy(chunks[k], source, Chunking.IdentityValues(source, rev, group));
  }

  lemma EmittedSome(
    source: Source, blocks: seq<Block>, config: Chunking.Config, rev: Chunking.Revisions, chunks: seq<Chunking.Chunk>,
    starts: seq<nat>, ends: seq<nat>)
    requires Chunking.ValidConfig(config) && (forall b | b in blocks :: ValidBlock(b)) && blocks != []
    requires Emits(source, blocks, config, rev, chunks, starts, ends)
    ensures chunks != []
  {
    var pieces := Chunking.PiecesOf(blocks, config.maxChars);
    Chunking.PiecesFew(blocks, config.maxChars);
    Chunking.GroupedBounds(pieces, config, starts, ends);
  }

  /** Accepted blocks give at least one chunk; every chunk names its source, and so does its ID. */
  lemma ChunkingFacts(
    source: Source, blocks: seq<Block>, config: Chunking.Config, rev: Chunking.Revisions, chunks: seq<Chunking.Chunk>)
    requires IsChunking(source, blocks, config, rev, chunks)
    ensures chunks != [] && (forall c | c in chunks :: ChunkFrom(source, c))
    ensures forall i, j | 0 <= i < j < |chunks| :: chunks[i].chunkId != chunks[j].chunkId
  {
    var starts, ends :| Emits(source, blocks, config, rev, chunks, starts, ends);
    EmittedSome(source, blocks, config, rev, chunks, starts, ends);
    forall c | c in chunks ensures ChunkFrom(source, c) {
      var k :| 0 <= k < |chunks| && chunks[k] == c;
      EmittedFrom(source, blocks, config, rev, chunks, starts, ends, k);
    }
  }

  // ----- names

  /** How a digest becomes a chunk ID: "chk_" and its first 32 hexadecimal digits. */
  type Naming = Sha256 -> string

  /** No two digests share their leading digits. */
  ghost predicate Injective(name: Naming) {
    forall a, b :: name(a) == name(b) ==> a == b
  }

  ghost predicate Names(name: Naming, values: seq<string>, id: string) {
    Encodable(values) && |values| == 8 && name(Sha256(Encode(values))) == id
  }

  /** The source a chunk ID was derived for. */
  ghost function OwnerId(name: Naming, id: string): string {
    if exists values :: Names(name, values, id) then
      var values :| Names(name, values, id);
      values[1]
    else ""
  }

  ghost function OwnerOf(name: Naming): Owner {
    (id: string) => OwnerId(name, id)
  }

  lemma SameNames(name: Naming, u: seq<string>, v: seq<string>, id: string)
    requires Injective(name) && Names(name, u, id) && Names(name, v, id)
    ensures u == v
  {
    assert Sha256(Encode(u)) == Sha256(Encode(v));
    EncodeInjective(u, v);
  }

  lemma OwnerIs(name: Naming, values: seq<string>, id: string)
    requires Injective(name) && Names(name, values, id)
    ensures OwnerId(name, id) == values[1]
  {
    forall others | Names(name, others, id) ensures others == values { SameNames(name, others, values, id); }
  }

  // ----- tables

  /** A chunk as `record_chunks` receives it; its embedding text is a parameter. */
  function InputOf(name: Naming, text: Chunking.Chunk -> string, c: Chunking.Chunk): ChunkInput {
    ChunkInput(name(c.chunkId), c.kbId, c.sourceId, c.sourceRevision, c.ordinal, c.content, text(c))
  }

  function ToInput(name: Naming, text: Chunking.Chunk -> string): Chunking.Chunk -> ChunkInput {
    (c: Chunking.Chunk) => InputOf(name, text, c)
  }

  function InputsOf(name: Naming, text: Chunking.Chunk -> string, chunks: seq<Chunking.Chunk>): seq<ChunkInput> {
    Map(chunks, ToInput(name, text))
  }

  /** A call of the chunker that yields these inputs, its embedding texts given. */
  datatype Call = Call(
    source: Source, blocks: seq<Block>, config: Chunking.Config, rev: Chunking.Revisions, chunks: seq<Chunking.Chunk>,
    text: Chunking.Chunk -> string)

  ghost predicate Yields(call: Call, kbId: string, name: Naming, sourceId: string, inputs: seq<ChunkInput>) {
    && call.source.kbId == kbId && call.source.sourceId == sourceId
    && IsChunking(call.source, call.blocks, call.config, call.rev, call.chunks)
    && inputs == InputsOf(name, call.text, call.chunks)
  }

  ghost predicate ProcessedTo(kbId: string, name: Naming, sourceId: string, inputs: seq<ChunkInput>) {
    exists call :: Yields(call, kbId, name, sourceId, inputs)
  }

  ghost predicate Processed(table: Convergence.ChunkTable, kbId: string, name: Naming) {
    forall id | id in table :: ProcessedTo(kbId, name, id, table[id])
  }

  lemma InputOwned(name: Naming, text: Chunking.Chunk -> string, source: Source, c: Chunking.Chunk)
    requires Injective(name) && ChunkFrom(source, c)
    ensures var i := InputOf(name, text, c);
      i.kbId == source.kbId && i.sourceId == source.sourceId && OwnerId(name, i.chunkId) == source.sourceId
  {
    var values :| IdentifiedBy(c, source, values);
    OwnerIs(name, values, name(c.chunkId));
  }

  /** The inputs of one source: its own, in one knowledge base, with different IDs. */
  ghost predicate OwnInputs(kbId: string, name: Naming, sourceId: string, inputs: seq<ChunkInput>) {
    && inputs != [] && UniqueIds(inputs)
    && forall c | c in inputs :: c.kbId == kbId && c.sourceId == sourceId && OwnerId(name, c.chunkId) == sourceId
  }

  lemma InputsOwned(name: Naming, text: Chunking.Chunk -> string, source: Source, chunks: seq<Chunking.Chunk>)
    requires Injective(name) && chunks != [] && forall c | c in chunks :: ChunkFrom(source, c)
    requires forall i, j | 0 <= i < j < |chunks| :: chunks[i].chunkId != chunks[j].chunkId
    ensures OwnInputs(source.kbId, name, source.sourceId, InputsOf(name, text, chunks))
  {
    var inputs := InputsOf(name, text, chunks);
    forall c | c in inputs
      ensures c.kbId == source.kbId && c.sourceId == source.sourceId && OwnerId(name, c.chunkId) == source.sourceId
    {
      var i :| 0 <= i < |inputs| && inputs[i] == c;
      InputOwned(name, text, source, chunks[i]);
    }
    InputsUnique(name, text, chunks);
  }

  lemma InputsUnique(name: Naming, text: Chunking.Chunk -> string, chunks: seq<Chunking.Chunk>)
    requires Injective(name)
    requires forall i, j | 0 <= i < j < |chunks| :: chunks[i].chunkId != chunks[j].chunkId
    ensures UniqueIds(InputsOf(name, text, chunks))
  {
    var inputs := InputsOf(name, text, chunks);
    forall i, j | 0 <= i < j < |inputs| ensures inputs[i].chunkId != inputs[j].chunkId {
      DigestsDiffer(name, chunks[i].chunkId, chunks[j].chunkId);
    }
  }

  lemma DigestsDiffer(name: Naming, a: Sha256, b: Sha256)
    requires Injective(name) && a != b
    ensures name(a) != name(b)
  {
  }

  lemma ProcessedInputs(kbId: string, name: Naming, sourceId: string, inputs: seq<ChunkInput>)
    requires Injective(name) && ProcessedTo(kbId, name, sourceId, inputs)
    ensures OwnInputs(kbId, name, sourceId, inputs)
  {
    var call :| Yields(call, kbId, name, sourceId, inputs);
    ChunkingFacts(call.source, call.blocks, call.config, call.rev, call.chunks);
    InputsOwned(name, call.text, call.source, call.chunks);
  }

  /** Tables filled by the chunker are what the results on synchronization ask for. */
  lemma ProcessedChunked(table: Convergence.ChunkTable, kbId: string, name: Naming)
    requires Injective(name) && Processed(table, kbId, name)
    ensures Chunked(table, OwnerOf(name))
    ensures (forall id | id in table :: |table[id]| <= 1_000_000) ==> GoodTable(table, kbId, OwnerOf(name))
  {
    forall id | id in table ensures OwnInputs(kbId, name, id, table[id]) { ProcessedInputs(kbId, name, id, table[id]); }
    OwnChunked(table, kbId, name);
  }

  lemma OwnChunked(table: Convergence.ChunkTable, kbId: string, name: Naming)
    requires forall id | id in table :: OwnInputs(kbId, name, id, table[id])
    ensures Chunked(table, OwnerOf(name))
    ensures (forall id | id in table :: |table[id]| <= 1_000_000) ==> GoodTable(table, kbId, OwnerOf(name))
  {
    var owner := OwnerOf(name);
    forall id | id in table
      ensures table[id] != [] && Store.Acceptable(table[id], kbId)
      ensures forall c | c in table[id] :: c.sourceId == id && owner(c.chunkId) == id
    {
      assert OwnInputs(kbId, name, id, table[id]);
    }
  }

  /** Chunking one source for `record_chunks`: fails exactly on a rejected block list. */
  method Materialize(
    source: Source, blocks: seq<Block>, config: Chunking.Config, rev: Chunking.Revisions, name: Naming,
    text: Chunking.Chunk -> string) returns (r: Result<seq<ChunkInput>>)
    requires Chunking.ValidConfig(config) && Chunking.Bounded(source, rev) && forall b | b in blocks :: ValidBlock(b)
    ensures r.Ok? <==> Chunking.BlocksAccepted(source, blocks)
    ensures r.Ok? ==> ProcessedTo(source.kbId, name, source.sourceId, r.value)
  {
    ghost var starts: seq<nat>, ends: seq<nat>;
    var chunked;
    chunked, starts, ends := Chunking.ChunkBlocks(source, blocks, config, rev);
    if chunked.Err? {
      r := Err(chunked.error);
    } else {
      var chunks := chunked.value;
      r := Ok(InputsOf(name, text, chunks));
      assert Emits(source, blocks, config, rev, chunks, starts, ends);
      assert Yields(Call(source, blocks, config, rev, chunks, text), source.kbId, name, source.sourceId, r.value);
    }
  }

  // ----- every history

  ghost predicate AllProcessed(events: seq<Event>, name: Naming) {
    forall i | 0 <= i < |events| && events[i].SyncEvent? :: Processed(events[i].table, events[i].kbId, name)
  }

  lemma ProcessedHistory(events: seq<Event>, name: Naming)
    requires Injective(name) && AllProcessed(events, name)
    ensures AllChunkedBy(events, OwnerOf(name))
  {
    forall i | 0 <= i < |events| && events[i].SyncEvent? ensures Chunked(events[i].table, OwnerOf(name)) {
      ProcessedChunked(events[i].table, events[i].kbId, name);
    }
  }

  /** In any history of synchronizations whose chunks come from the chunker, and of rollbacks: every
      published generation counts its rows right and has a chunk in every document, and after every
      synchronization that succeeds, the next one on the same sources and pipeline has no work. */
  lemma ChunkerConverges(
    events: seq<Event>, states: seq<State>, name: Naming, i: nat, docs: seq<ManifestDocument>, replan: seq<SyncAction>,
    t: Convergence.Ticket, table: Convergence.ChunkTable)
    requires IsTrace(events, states) && Injective(name) && AllProcessed(events, name)
    requires i < |events|
    ensures AllSound(states[i + 1])
    ensures
      && events[i].SyncEvent? && Synchronizes(states[i], events[i], Convergence.Progress(states[i + 1], true))
      && History.IsListing(states[i + 1], events[i].kbId, None, docs)
      && IsPlan(events[i].sources, docs, events[i].pipeline, replan) ==>
      && PlanAccepted(events[i].sources, docs, Some(events[i].kbId)) && IsNoop(replan)
      && SyncOnce(states[i + 1], events[i].kbId, t, events[i].sources, replan, events[i].pipeline, table)
         == Convergence.Progress(states[i + 1], true)
  {
    ProcessedHistory(events, name);
    TraceSound(events, states, OwnerOf(name), i + 1);
    if events[i].SyncEvent? && Synchronizes(states[i], events[i], Convergence.Progress(states[i + 1], true))
      && History.IsListing(states[i + 1], events[i].kbId, None, docs) &&
        IsPlan(events[i].sources, docs, events[i].pipeline, replan)
    {
      SyncsConverge(events, states, OwnerOf(name), i, docs, replan, t, table);
    }
  }
}
